/** What one step answers, keeps and puts on record, said of the request, the runner's result and the clock themselves. */
module Record {
  import opened Common
  import opened Events
  import opened Wire
  import opened Execd
  import opened Daemon
  import opened Protocol
  import opened ExecutorLaws
  import Agreement
  import ApprovalTable
  import Digest
  import ExecdRuns
  import Policy
  import Prompt
  import RateLimit
  import Replay

  // ----- Requests on record ------------------------------------------------------------

  ghost function OpenedBy(c: Config, frame: Bytes): Option<ExecRequest> {
    OpenFrame(c.site.codec, Agreement.Key(c), frame)
  }

  /** The entry names the executable of its frame's request and the hash of its arguments. */
  ghost predicate NamesItsRequest(c: Config, p: Pending) {
    match OpenedBy(c, p.frame)
    case None => false
    case Some(r) => p.action == r.action && p.exec == r.exec && p.argsSha256 == c.hashing.sha256Hex(c.hashing.json(r.args))
  }

  /** The last event before the send is the request for exactly what the frame carries. */
  ghost predicate RequestIsTrue(c: Config, audit: seq<AuditEvent>, s: Sent) {
    && 0 < s.auditLength <= |audit|
    && match OpenedBy(c, s.frame)
       case None => false
       case Some(r) =>
         && r.action == s.action
         && audit[s.auditLength - 1] == ExecRequested(c.session, r.action, r.exec, c.hashing.sha256Hex(c.hashing.json(r.args)))
  }

  ghost predicate RecordIsTrue(c: Config, d: Daemon.State) {
    && (forall id :: id in d.pending ==> NamesItsRequest(c, d.pending[id]))
    && (forall i :: 0 <= i < |d.sent| ==> RequestIsTrue(c, d.audit, d.sent[i]))
  }

  lemma LongerRecord(c: Config, audit: seq<AuditEvent>, more: seq<AuditEvent>, s: Sent)
    requires RequestIsTrue(c, audit, s)
    ensures RequestIsTrue(c, audit + more, s)
  {
    hide OpenedBy;
    assert (audit + more)[s.auditLength - 1] == audit[s.auditLength - 1];
  }

  /** Fewer pending entries, the same sends, a longer record. */
  lemma TrueCarriesOver(c: Config, d: Daemon.State, d': Daemon.State)
    requires RecordIsTrue(c, d) && d'.sent == d.sent && d.audit <= d'.audit
    requires forall id :: id in d'.pending ==> id in d.pending && d'.pending[id] == d.pending[id]
    ensures RecordIsTrue(c, d')
  {
    hide RequestIsTrue, NamesItsRequest;
    var more := d'.audit[|d.audit|..];
    assert d'.audit == d.audit + more;
    forall i | 0 <= i < |d'.sent| ensures RequestIsTrue(c, d'.audit, d'.sent[i]) {
      LongerRecord(c, d.audit, more, d.sent[i]);
    }
  }

  /** A dispatch appends its request, then sends, then appends what came of it. */
  lemma DispatchAppends(c: Config, y: System, p: Pending, via: Via, appends: nat, delivery: Delivery)
    requires appends > 0
    ensures var d' := Dispatched(c, y, p, via, appends, delivery).0.d;
            && d'.pending == y.d.pending
            && d'.sent == y.d.sent + [Sent(p.frame, p.action, via, |y.d.audit| + 1)]
            && y.d.audit + [ExecRequested(c.session, p.action, p.exec, p.argsSha256)] <= d'.audit
  {
    hide After, Reply;
  }

  lemma DispatchKeepsTrue(c: Config, y: System, p: Pending, via: Via, appends: nat, delivery: Delivery)
    requires RecordIsTrue(c, y.d) && NamesItsRequest(c, p)
    ensures RecordIsTrue(c, Dispatched(c, y, p, via, appends, delivery).0.d)
  {
    hide Dispatched, OpenedBy;
    if appends == 0 {
      NothingLeft(c, y, p, via, delivery);
    } else {
      DispatchAppends(c, y, p, via, appends, delivery);
      var d' := Dispatched(c, y, p, via, appends, delivery).0.d;
      var more := d'.audit[|y.d.audit|..];
      assert d'.audit == y.d.audit + more;
      forall i | 0 <= i < |y.d.sent| ensures RequestIsTrue(c, d'.audit, y.d.sent[i]) {
        LongerRecord(c, y.d.audit, more, y.d.sent[i]);
      }
      assert d'.audit[|y.d.audit|] == ExecRequested(c.session, p.action, p.exec, p.argsSha256);
    }
  }

  lemma StashKeepsTrue(c: Config, d: Daemon.State, id: string, p: Pending, pruneMs: nat)
    requires RecordIsTrue(c, d) && NamesItsRequest(c, p)
    ensures RecordIsTrue(c, StashedFor(d, id, p, pruneMs).0)
  {
    hide NamesItsRequest, RequestIsTrue;
  }

  lemma SignedNamesItsRequest(c: Config, p: Proposal, m: Manifest, number: nat, twoPerson: bool)
    requires Sound(c.site.codec)
    requires ToFrame(c.site.codec, Seal(c.site.codec, c.secret, RequestOf(c, p, m, number))).Some?
    ensures var frame := ToFrame(c.site.codec, Seal(c.site.codec, c.secret, RequestOf(c, p, m, number))).value;
            NamesItsRequest(c, PendingOf(c, p, m, frame, twoPerson))
  {
    hide OpenFrame, Seal, ToFrame, Sound;
    OpenUndoesSeal(c.site.codec, c.secret, RequestOf(c, p, m, number));
  }

  lemma ProposalKeepsTrue(c: Config, y: System, p: Proposal)
    requires Sound(c.site.codec) && RecordIsTrue(c, y.d)
    ensures RecordIsTrue(c, Proposed(c, y, p).0.d)
  {
    hide NamesItsRequest, OpenFrame, Seal, ToFrame, RequestOf, Policy.Evaluate, Sound, Dispatched, RecordIsTrue, StashedFor;
    TrueCarriesOver(c, y.d, WithAudit(y.d, PolicyDecision(c.session, p.action, p.exec, Events.Deny)));
    if c.site.load(p.exec).Some? && p.appends > 0 {
      var m := c.site.load(p.exec).value;
      var decision := PolicyOn(c, p.exec, m);
      var d1 := WithAudit(y.d, PolicyDecision(c.session, p.action, p.exec, Auditable(decision)));
      var d2 := d1.(number := SaturatingInc(y.d.number));
      TrueCarriesOver(c, y.d, d2);
      var frame := ToFrame(c.site.codec, Seal(c.site.codec, c.secret, RequestOf(c, p, m, d2.number)));
      if frame.Some? {
        if decision.NeedsApproval? {
          SignedNamesItsRequest(c, p, m, d2.number, decision.twoPerson);
          StashKeepsTrue(c, d2, p.approvalId, PendingOf(c, p, m, frame.value, decision.twoPerson), p.pruneMs);
        } else {
          SignedNamesItsRequest(c, p, m, d2.number, false);
          DispatchKeepsTrue(c, System(d2, y.x), PendingOf(c, p, m, frame.value, false), AtOnce, p.appends - 1, p.delivery);
        }
      }
    }
  }

  lemma PendingNamesItsRequest(c: Config, d: Daemon.State, id: string)
    requires RecordIsTrue(c, d) && id in d.pending
    ensures NamesItsRequest(c, d.pending[id])
  {
  }

  lemma ApprovalKeepsTrue(c: Config, y: System, a: Approval)
    requires RecordIsTrue(c, y.d)
    ensures RecordIsTrue(c, ApprovalHandled(c, y, a).0.d)
  {
    hide NamesItsRequest, Dispatched, RecordIsTrue;
    var pruned := Prune(y.d.pending, a.nowMs);
    TrueCarriesOver(c, y.d, y.d.(pending := pruned));
    if a.id in pruned {
      var p := pruned[a.id];
      PendingNamesItsRequest(c, y.d, a.id);
      var d1 := y.d.(pending := Remove(pruned, a.id));
      var d2 := WithAudit(d1, ApprovalGranted(c.session, p.action));
      TrueCarriesOver(c, y.d, ConsumedIn(d1, a.id));
      TrueCarriesOver(c, y.d, ConsumedIn(d2, a.id));
      TrueCarriesOver(c, y.d, ConsumedIn(WithAudit(d1, Note("two-person rule unsatisfied")), a.id));
      TrueCarriesOver(c, y.d, d2);
      if a.appends > 0 {
        DispatchKeepsTrue(c, System(d2, y.x), p, OnApproval(a.id, a.digest, a.nowMs), a.appends - 1, a.delivery);
      }
    }
  }

  lemma StepKeepsTrue(c: Config, y: System, step: Step)
    requires Sound(c.site.codec) && RecordIsTrue(c, y.d)
    ensures RecordIsTrue(c, Next(c, y, step).d)
  {
    hide RecordIsTrue, Proposed, ApprovalHandled, Sound, ToolCall, Exchange;
    match step
    case RunTask(t) =>
      TrueCarriesOver(c, y.d, Exchanged(c, y.d, t));
      if ToolCall(c, t).Some? {
        ProposalKeepsTrue(c, System(Exchanged(c, y.d, t), y.x), ToolCall(c, t).value);
      }
    case Approve(a) => ApprovalKeepsTrue(c, y, a);
    case Reject(id) => TrueCarriesOver(c, y.d, RejectionHandled(y.d, id).0);
    case Redeliver(frame, s) =>
  }

  lemma {:induction false} RunKeepsTrue(c: Config, y: System, steps: seq<Step>)
    requires Sound(c.site.codec) && RecordIsTrue(c, y.d)
    ensures RecordIsTrue(c, Run(c, y, steps).d)
  {
    hide RecordIsTrue, Next, Sound;
    if steps != [] {
      RunKeepsTrue(c, y, steps[..|steps| - 1]);
      StepKeepsTrue(c, Run(c, y, steps[..|steps| - 1]), steps[|steps| - 1]);
    }
  }

  /**
   In every run from the start: each send directly follows a request event that names the
   executable, the hash of the arguments and the action of the very request its frame
   opens to.
   */
  lemma EverySendIsOnRecord(c: Config, ceiling: Mode, limits: RateLimit.RateLimits, clock: int, steps: seq<Step>)
    requires Sound(c.site.codec)
    ensures var d := Run(c, Start(c, ceiling, limits, clock), steps).d;
            forall i :: 0 <= i < |d.sent| ==> RequestIsTrue(c, d.audit, d.sent[i])
  {
    hide Run, RequestIsTrue, Sound;
    RunKeepsTrue(c, Start(c, ceiling, limits, clock), steps);
  }

  // ----- Results on record -------------------------------------------------------------------

  /**
   The step sent a frame, the runner ran it with this result, and the record ends with the
   request, the snapshot if one was taken, and the completion with the result's own exit
   code and output hashes.
   */
  ghost predicate ResultIsOnRecord(c: Config, y: System, y': System, result: RunResult) {
    && |y'.d.sent| == |y.d.sent| + 1 && |y'.x.runs| == |y.x.runs| + 1
    && var s, call := y'.d.sent[|y.d.sent|], y'.x.runs[|y.x.runs|];
    && call.frame == s.frame
    && var end := |y'.d.audit|;
    && s.auditLength + (if call.snapshot.Some? then 2 else 1) == end
    && y'.d.audit[end - 1] == ExecCompleted(c.session, s.action, result.exitCode,
                                            c.hashing.sha256Hex(result.stdout), c.hashing.sha256Hex(result.stderr))
    && (call.snapshot.Some? ==> y'.d.audit[end - 2] == SnapshotTaken(c.session, s.action, call.snapshot.value))
  }

  lemma DispatchRecordsResult(c: Config, y: System, p: Pending, via: Via, appends: nat, delivery: Delivery)
    requires Dispatched(c, y, p, via, appends, delivery).1.Executed?
    ensures delivery.Delivered?
    ensures Dispatched(c, y, p, via, appends, delivery).1 == Executed(p.exec, delivery.s.result)
    ensures ResultIsOnRecord(c, y, Dispatched(c, y, p, via, appends, delivery).0, delivery.s.result)
  {
    hide Refusal;
    var refusal := Refusal(c.site, y.x, p.frame, delivery.s);
    assert refusal == None;
  }

  ghost function DeliveryIn(c: Config, step: Step): Delivery {
    match step
    case RunTask(t) => t.p.delivery
    case Approve(a) => a.delivery
    case _ => Lost
  }

  /** Whenever a step reports an execution, the reported result is the runner's, and it is on record. */
  lemma ExecutedIsOnRecord(c: Config, y: System, step: Step)
    requires Agreement.OutcomeOf(c, y, step).Executed?
    ensures DeliveryIn(c, step).Delivered?
    ensures Agreement.OutcomeOf(c, y, step).result == DeliveryIn(c, step).s.result
    ensures ResultIsOnRecord(c, y, Next(c, y, step), DeliveryIn(c, step).s.result)
  {
    hide Dispatched, Seal, ToFrame, Policy.Evaluate, Prune, Remove, After, Exchange;
    match step
    case RunTask(t) =>
      var p := ToolCall(c, t).value;
      var d0 := Exchanged(c, y.d, t);
      var m := c.site.load(p.exec).value;
      var d1 := WithAudit(d0, PolicyDecision(c.session, p.action, p.exec, Auditable(PolicyOn(c, p.exec, m))));
      var d2 := d1.(number := SaturatingInc(d0.number));
      var frame := ToFrame(c.site.codec, Seal(c.site.codec, c.secret, RequestOf(c, p, m, d2.number)));
      DispatchRecordsResult(c, System(d2, y.x), PendingOf(c, p, m, frame.value, false), AtOnce, p.appends - 1, p.delivery);
    case Approve(a) =>
      var pruned := Prune(y.d.pending, a.nowMs);
      var d2 := WithAudit(y.d.(pending := Remove(pruned, a.id)), ApprovalGranted(c.session, pruned[a.id].action));
      DispatchRecordsResult(c, System(d2, y.x), pruned[a.id], OnApproval(a.id, a.digest, a.nowMs), a.appends - 1, a.delivery);
  }

  // ----- Decisions on record ------------------------------------------------------------------

  /** The daemon refuses the proposal before or by policy. */
  ghost predicate IsRefusedHere(c: Config, p: Proposal) {
    match c.site.load(p.exec)
    case None => true
    case Some(m) =>
      !c.site.argsOk(m, p.args) || Denies(c.site.engine, m) || !Allowlisted(c.site.engine, c.profile, c.mode, p.exec)
  }

  /** A human must approve the bundle. */
  ghost predicate IsForApproval(c: Config, m: Manifest) {
    c.mode == Interactive || m.risk == Critical
  }

  lemma RulingOn(c: Config, exec: string, m: Manifest)
    ensures PolicyOn(c, exec, m) ==
              if Denies(c.site.engine, m) then PolicyOn(c, exec, m)
              else if !Allowlisted(c.site.engine, c.profile, c.mode, exec) then Policy.NotAllowed
              else if IsForApproval(c, m) then Policy.NeedsApproval(m.risk == Critical)
              else Policy.Allowed
    ensures PolicyOn(c, exec, m).Denied? <==> Denies(c.site.engine, m)
  {
    hide Policy.Evaluate, Question, Denies, Allowlisted;
    PolicyByBundle(c.site.engine, c.profile, c.mode, exec, m);
  }

  /** The first event of a proposal is its decision: denied, for approval, or allowed, as the bundle and the policy say. */
  lemma DecisionIsOnRecord(c: Config, y: System, p: Proposal)
    requires p.appends > 0
    ensures var audit := Proposed(c, y, p).0.d.audit;
            && y.d.audit <= audit && |audit| > |y.d.audit|
            && audit[|y.d.audit|] == PolicyDecision(c.session, p.action, p.exec,
                 if IsRefusedHere(c, p) then Events.Deny
                 else if IsForApproval(c, c.site.load(p.exec).value) then RequireApproval
                 else Events.Allow)
  {
    hide Seal, ToFrame, RequestOf, Policy.Evaluate, Dispatched, Denies, Allowlisted, Prune;
    if c.site.load(p.exec).Some? {
      var m := c.site.load(p.exec).value;
      RulingOn(c, p.exec, m);
      if c.site.argsOk(m, p.args) {
        var d1 := WithAudit(y.d, PolicyDecision(c.session, p.action, p.exec, Auditable(PolicyOn(c, p.exec, m))));
        var d2 := d1.(number := SaturatingInc(y.d.number));
        var frame := ToFrame(c.site.codec, Seal(c.site.codec, c.secret, RequestOf(c, p, m, d2.number)));
        if frame.Some? {
          DispatchLengthens(c, System(d2, y.x), PendingOf(c, p, m, frame.value, false), AtOnce, p.appends - 1, p.delivery);
        }
      }
    }
  }

  lemma DispatchLengthens(c: Config, y: System, p: Pending, via: Via, appends: nat, delivery: Delivery)
    ensures y.d.audit <= Dispatched(c, y, p, via, appends, delivery).0.d.audit
  {
    hide Dispatched;
    if appends > 0 {
      DispatchAppends(c, y, p, via, appends, delivery);
    } else {
      NothingLeft(c, y, p, via, delivery);
    }
  }

  /** What a proposal that is not sent comes to, and that nothing then reaches the executor. */
  lemma ProposalOutcome(c: Config, y: System, p: Proposal)
    requires p.appends > 0
    ensures IsRefusedHere(c, p) ==>
              && Proposed(c, y, p).0.x == y.x && Proposed(c, y, p).0.d.sent == y.d.sent
              && Proposed(c, y, p).0.d.pending == y.d.pending
    ensures c.site.load(p.exec).None? ==> Proposed(c, y, p).1 == DeniedAt(AtBundle)
    ensures c.site.load(p.exec).Some? && !c.site.argsOk(c.site.load(p.exec).value, p.args) ==>
              Proposed(c, y, p).1 == DeniedAt(AtArguments)
    ensures c.site.load(p.exec).Some? && c.site.argsOk(c.site.load(p.exec).value, p.args) && IsRefusedHere(c, p) ==>
              Proposed(c, y, p).1 in {DeniedAt(AtPolicy), Failed(FrameTooLong)}
  {
    hide Seal, ToFrame, RequestOf, Policy.Evaluate, Dispatched, Denies, Allowlisted;
    if c.site.load(p.exec).Some? {
      RulingOn(c, p.exec, c.site.load(p.exec).value);
    }
  }

  /**
   When the operator is asked, the action is kept as presented: under the id, digest and
   executable shown, with the frame of exactly these arguments, since the clock reading of
   the proposal; and the unexpired others stay, 64 in all at most.
   */
  lemma AskedMeansKept(c: Config, y: System, p: Proposal)
    requires Sound(c.site.codec) && Proposed(c, y, p).1.ApprovalRequired?
    ensures var y', o := Proposed(c, y, p).0, Proposed(c, y, p).1;
            && y'.x == y.x && y'.d.sent == y.d.sent
            && o.id == p.approvalId && o.id in y'.d.pending
            && var kept := y'.d.pending[o.id];
            && kept.createdMs == p.createdMs && kept.digest == o.digest && kept.exec == o.exec && kept.twoPerson == o.twoPerson
            && c.site.load(p.exec).Some?
            && var m := c.site.load(p.exec).value;
            && o.exec == p.exec && (o.twoPerson <==> m.risk == Critical)
            && OpenedBy(c, kept.frame).Some?
            && OpenedBy(c, kept.frame).value.exec == p.exec && OpenedBy(c, kept.frame).value.args == p.args
            && o.digest == c.hashing.sha256Hex(p.exec + ['\0'] + c.hashing.json(p.args) + ['\0'] + m.payloadSha256)
            && (forall id :: id in y'.d.pending && id != o.id <==>
                  id in y.d.pending && id != o.id && p.pruneMs <= y.d.pending[id].createdMs + 300_000)
            && |y'.d.pending| <= 64
  {
    hide OpenFrame, Seal, ToFrame, Sound, Policy.Evaluate, SafeExecName, Denies, Allowlisted, Dispatched;
    var m := c.site.load(p.exec).value;
    var number := SaturatingInc(y.d.number);
    RulingOn(c, p.exec, m);
    DispatchNeverAsks(c, y, p);
    OpenUndoesSeal(c.site.codec, c.secret, RequestOf(c, p, m, number));
  }

  lemma DispatchNeverAsks(c: Config, y: System, p: Proposal)
    ensures forall z: System, q: Pending, via: Via, n: nat, delivery: Delivery :: !Dispatched(c, z, q, via, n, delivery).1.ApprovalRequired?
  {
    hide Reply, After;
  }

  // ----- Approvals and rejections ------------------------------------------------------------

  /** The entry is there and at most five minutes old. */
  ghost predicate IsLive(d: Daemon.State, id: string, nowMs: nat) {
    id in d.pending && nowMs <= d.pending[id].createdMs + 300_000
  }

  /** An approval leaves exactly the other live entries, whatever comes of it. */
  lemma ApprovalKeepsOthers(c: Config, y: System, a: Approval)
    ensures var d' := ApprovalHandled(c, y, a).0.d;
            && (forall id :: id in d'.pending <==> id != a.id && IsLive(y.d, id, a.nowMs))
            && (forall id :: id in d'.pending ==> d'.pending[id] == y.d.pending[id])
  {
    hide Dispatched;
    var pruned := Prune(y.d.pending, a.nowMs);
    if a.id in pruned && a.appends > 1 {
      var d2 := WithAudit(y.d.(pending := Remove(pruned, a.id)), ApprovalGranted(c.session, pruned[a.id].action));
      DispatchAppends(c, System(d2, y.x), pruned[a.id], OnApproval(a.id, a.digest, a.nowMs), a.appends - 1, a.delivery);
    }
  }

  /** Everything but a live entry under its own digest for one person sends nothing, and is answered as what it is. */
  lemma ApprovalAnswers(c: Config, y: System, a: Approval)
    requires a.appends > 0
    ensures var (y', o) := ApprovalHandled(c, y, a);
            && (!IsLive(y.d, a.id, a.nowMs) ==> o == DeniedAt(UnknownApproval))
            && (IsLive(y.d, a.id, a.nowMs) && y.d.pending[a.id].digest != a.digest ==> o == DeniedAt(DigestMismatch))
            && (IsLive(y.d, a.id, a.nowMs) && y.d.pending[a.id].digest == a.digest && y.d.pending[a.id].twoPerson ==>
                  o == DeniedAt(TwoPersonRule))
            && (!IsLive(y.d, a.id, a.nowMs) || y.d.pending[a.id].digest != a.digest || y.d.pending[a.id].twoPerson ==>
                  y'.d.sent == y.d.sent && y'.x == y.x)
  {
    hide Dispatched;
  }

  /** An approval that goes through is granted on record first, then its stored frame is sent, whatever the transport does. */
  lemma ApprovalSends(c: Config, y: System, a: Approval)
    requires IsLive(y.d, a.id, a.nowMs) && y.d.pending[a.id].digest == a.digest && !y.d.pending[a.id].twoPerson
    requires a.appends >= 2
    ensures var d' := ApprovalHandled(c, y, a).0.d;
            var p := y.d.pending[a.id];
            && y.d.audit + [ApprovalGranted(c.session, p.action), ExecRequested(c.session, p.action, p.exec, p.argsSha256)] <= d'.audit
            && d'.sent == y.d.sent + [Sent(p.frame, p.action, OnApproval(a.id, a.digest, a.nowMs), |y.d.audit| + 2)]
  {
    hide Dispatched, Prune, Remove;
    var p := y.d.pending[a.id];
    LiveIsPruned(y.d, a.id, a.nowMs);
    var d2 := WithAudit(y.d.(pending := Remove(Prune(y.d.pending, a.nowMs), a.id)), ApprovalGranted(c.session, p.action));
    DispatchAppends(c, System(d2, y.x), p, OnApproval(a.id, a.digest, a.nowMs), a.appends - 1, a.delivery);
    assert d2.audit + [ExecRequested(c.session, p.action, p.exec, p.argsSha256)]
        == y.d.audit + [ApprovalGranted(c.session, p.action), ExecRequested(c.session, p.action, p.exec, p.argsSha256)];
  }

  lemma LiveIsPruned(d: Daemon.State, id: string, nowMs: nat)
    requires IsLive(d, id, nowMs)
    ensures id in Prune(d.pending, nowMs) && Prune(d.pending, nowMs)[id] == d.pending[id]
  {
  }

  /** A rejection takes exactly its entry out, sends nothing, and is answered by whether there was one. */
  lemma RejectionAnswers(d: Daemon.State, id: string)
    ensures var (d', o) := RejectionHandled(d, id);
            && (forall k :: k in d'.pending <==> k in d.pending && k != id)
            && (forall k :: k in d'.pending ==> d'.pending[k] == d.pending[k])
            && d'.sent == d.sent && d'.audit == d.audit && d'.number == d.number
            && o == DeniedAt(if id in d.pending then RejectedByOperator else UnknownApproval)
  {
  }

  // ----- Tasks -----------------------------------------------------------------------------------

  /** With the appends working, the exchange goes on record in full before anything else. */
  lemma TaskIsOnRecord(c: Config, y: System, t: Task)
    requires t.appends >= 3 && t.answer.Some?
    ensures var audit := TaskRun(c, y, t).0.d.audit;
            var text := t.answer.value;
            && y.d.audit + [LlmRequest(c.session, c.hashing.sha256Hex(c.system + "\n" + Prompt.Message(c.secrets, t.instruction, t.contexts))),
                            LlmResponse(c.session, c.hashing.sha256Hex(text), Prompt.Occurs(text, c.secrets.canary))] <= audit
  {
    hide Proposed, Prompt.Message, Prompt.Occurs, SafeExecName;
    if ToolCall(c, t).Some? {
      ProposalLengthens(c, System(Exchanged(c, y.d, t), y.x), ToolCall(c, t).value);
    }
  }

  lemma ProposalLengthens(c: Config, y: System, p: Proposal)
    ensures y.d.audit <= Proposed(c, y, p).0.d.audit
  {
    hide Proposed, IsRefusedHere;
    if p.appends > 0 {
      DecisionIsOnRecord(c, y, p);
    } else {
      NoAppendsLeft(c, y, p);
    }
  }

  lemma NoAppendsLeft(c: Config, y: System, p: Proposal)
    requires p.appends == 0
    ensures Proposed(c, y, p) == (y, Failed(AuditFailure))
  {
  }

  /** Nothing but the record has changed, and it ends with a note. */
  ghost predicate IsNoted(y: System, y': System) {
    && y'.x == y.x && y'.d == y.d.(audit := y'.d.audit)
    && |y'.d.audit| > |y.d.audit| && y'.d.audit[|y'.d.audit| - 1].Note?
  }

  /** What an answer without the canary leads to, reply by reply. */
  lemma AnswerLeadsTo(c: Config, y: System, t: Task)
    requires t.appends >= 3 && t.answer.Some? && !Prompt.Occurs(t.answer.value, c.secrets.canary)
    ensures var o := TaskRun(c, y, t).1;
            match c.parse(t.answer.value)
            case Ask => o == Asked
            case Refuse => o == Refused
            case Malformed => o == DeniedAt(AtModelContract) && IsNoted(y, TaskRun(c, y, t).0)
            case UseTool(exec, args) =>
              if SafeExecName(exec) then
                TaskRun(c, y, t) == Proposed(c, System(Exchanged(c, y.d, t), y.x),
                                             t.p.(exec := exec, args := args, appends := t.appends - 2))
              else o == DeniedAt(AtModelContract) && IsNoted(y, TaskRun(c, y, t).0)
  {
    hide Proposed, Prompt.Message, Prompt.Occurs, SafeExecName;
  }
}

/** The order of audit events of each action, with appends that may fail at any point. */
module AuditOrder {
  import opened Common
  import opened Events
  import opened Wire
  import opened Execd
  import opened Daemon
  import opened Protocol
  import Policy
  import RateLimit

  /** Where an action stands on the record. */
  datatype Phase =
    | Unseen
    | Ruled(d: Decision)
    | Granted
    | Requested
    | Snapshotted
    | Done
    | Broken

  /** Whether an event speaks about an action. */
  ghost predicate Mentions(e: AuditEvent, action: Id) {
    match e
    case PolicyDecision(_, a, _, _) => a == action
    case ApprovalGranted(_, a) => a == action
    case ExecRequested(_, a, _, _) => a == action
    case ExecCompleted(_, a, _, _, _) => a == action
    case SnapshotTaken(_, a, _) => a == action
    case RollbackPerformed(_, a, _) => a == action
    case _ => false
  }

  /**
   The grammar: a decision; a grant only after a required approval; a request only
   after an allowance or a grant; then perhaps a snapshot; then a completion.
   */
  ghost function Advance(at: Phase, e: AuditEvent): Phase {
    match (at, e)
    case (Unseen, PolicyDecision(_, _, _, d)) => Ruled(d)
    case (Ruled(RequireApproval), ApprovalGranted(_, _)) => Granted
    case (Ruled(Allow), ExecRequested(_, _, _, _)) => Requested
    case (Granted, ExecRequested(_, _, _, _)) => Requested
    case (Requested, SnapshotTaken(_, _, _)) => Snapshotted
    case (Requested, ExecCompleted(_, _, _, _, _)) => Done
    case (Snapshotted, ExecCompleted(_, _, _, _, _)) => Done
    case _ => Broken
  }

  /** Where `action` stands after the whole log. */
  ghost function PhaseOf(audit: seq<AuditEvent>, action: Id): Phase {
    if audit == [] then Unseen else
      var e := audit[|audit| - 1];
      var before := PhaseOf(audit[..|audit| - 1], action);
      if Mentions(e, action) then Advance(before, e) else before
  }

  lemma PhaseSnoc(audit: seq<AuditEvent>, e: AuditEvent, action: Id)
    ensures PhaseOf(audit + [e], action)
         == if Mentions(e, action) then Advance(PhaseOf(audit, action), e) else PhaseOf(audit, action)
  {
    assert (audit + [e])[..|audit|] == audit;
  }

  /** Every send directly follows the successful append of its own request event. */
  ghost predicate OnRecord(audit: seq<AuditEvent>, s: Sent) {
    && 0 < s.auditLength <= |audit|
    && audit[s.auditLength - 1].ExecRequested?
    && audit[s.auditLength - 1].action == s.action
  }

  ghost predicate Grammatical(audit: seq<AuditEvent>) {
    forall action: Id :: PhaseOf(audit, action) != Broken
  }

  ghost predicate AwaitsApproval(audit: seq<AuditEvent>, p: Pending) {
    PhaseOf(audit, p.action) == Ruled(RequireApproval)
  }

  /** `used` holds every action proposed so far. */
  ghost predicate InOrder(d: Daemon.State, used: set<Id>) {
    && Grammatical(d.audit)
    && (forall action: Id :: PhaseOf(d.audit, action) != Unseen ==> action in used)
    && (forall id :: id in d.pending ==> AwaitsApproval(d.audit, d.pending[id]))
    && (forall id, id' :: id in d.pending && id' in d.pending && id != id' ==> d.pending[id].action != d.pending[id'].action)
    && (forall i :: 0 <= i < |d.sent| ==> OnRecord(d.audit, d.sent[i]))
  }

  // ----- One append --------------------------------------------------------------------------

  lemma OnRecordStays(audit: seq<AuditEvent>, e: AuditEvent, s: Sent)
    requires OnRecord(audit, s)
    ensures OnRecord(audit + [e], s)
  {
    assert (audit + [e])[s.auditLength - 1] == audit[s.auditLength - 1];
  }

  /** An event about `action` that advances it legally keeps everything in order, if no pending entry is about it. */
  lemma AppendKeepsOrder(d: Daemon.State, used: set<Id>, e: AuditEvent, action: Id)
    requires InOrder(d, used) && action in used
    requires forall other: Id :: Mentions(e, other) <==> other == action
    requires Advance(PhaseOf(d.audit, action), e) != Broken
    requires forall id :: id in d.pending ==> d.pending[id].action != action
    ensures InOrder(WithAudit(d, e), used)
    ensures PhaseOf(WithAudit(d, e).audit, action) == Advance(PhaseOf(d.audit, action), e)
  {
    hide PhaseOf, OnRecord, Mentions, Advance;
    forall other: Id ensures PhaseOf(d.audit + [e], other) == if other == action then Advance(PhaseOf(d.audit, action), e) else PhaseOf(d.audit, other) {
      PhaseSnoc(d.audit, e, other);
    }
    forall i | 0 <= i < |d.sent| ensures OnRecord(d.audit + [e], d.sent[i]) {
      OnRecordStays(d.audit, e, d.sent[i]);
    }
  }

  /** An event about no action changes nothing. */
  lemma RemarkKeepsOrder(d: Daemon.State, used: set<Id>, e: AuditEvent)
    requires InOrder(d, used)
    requires forall other: Id :: !Mentions(e, other)
    ensures InOrder(WithAudit(d, e), used)
  {
    hide PhaseOf, OnRecord, Mentions, Advance;
    forall other: Id ensures PhaseOf(d.audit + [e], other) == PhaseOf(d.audit, other) {
      PhaseSnoc(d.audit, e, other);
    }
    forall i | 0 <= i < |d.sent| ensures OnRecord(d.audit + [e], d.sent[i]) {
      OnRecordStays(d.audit, e, d.sent[i]);
    }
  }

  // ----- Dispatch -------------------------------------------------------------------------------

  ghost predicate NotPending(d: Daemon.State, action: Id) {
    forall id :: id in d.pending ==> d.pending[id].action != action
  }

  lemma RecordedKeepsOrder(c: Config, d: Daemon.State, used: set<Id>, action: Id, exec: string, o: Execd.Outcome, appends: nat)
    requires InOrder(d, used) && action in used && NotPending(d, action)
    requires PhaseOf(d.audit, action) == Requested
    ensures InOrder(Recorded(c, d, action, exec, o, appends).0, used)
  {
    hide InOrder, PhaseOf;
    match o
    case Completed(result, snapshot) =>
      var done := ExecCompleted(c.session, action, result.exitCode,
                                c.hashing.sha256Hex(result.stdout), c.hashing.sha256Hex(result.stderr));
      if snapshot.Some? && appends > 0 {
        var taken := SnapshotTaken(c.session, action, snapshot.value);
        AppendKeepsOrder(d, used, taken, action);
        if appends > 1 {
          AppendKeepsOrder(WithAudit(d, taken), used, done, action);
        }
      }
      if snapshot.None? && appends > 0 {
        AppendKeepsOrder(d, used, done, action);
      }
    case Rejected(stage) =>
      if appends > 0 {
        RemarkKeepsOrder(d, used, Note("executor rejected"));
      }
  }

  /** Nothing but the audit log and the list of sends matters here. */
  lemma SendKeepsOrder(d: Daemon.State, used: set<Id>, s: Sent, table: seq<TableEvent>)
    requires InOrder(d, used) && OnRecord(d.audit, s)
    ensures InOrder(d.(sent := d.sent + [s], table := table), used)
  {
    hide PhaseOf, OnRecord;
  }

  lemma DispatchKeepsOrder(c: Config, y: System, used: set<Id>, p: Pending, via: Via, appends: nat, delivery: Delivery)
    requires InOrder(y.d, used) && p.action in used && NotPending(y.d, p.action)
    requires PhaseOf(y.d.audit, p.action) in {Ruled(Allow), Granted}
    ensures InOrder(Dispatched(c, y, p, via, appends, delivery).0.d, used)
  {
    hide InOrder, PhaseOf, After, Reply, Recorded;
    if appends > 0 {
      var e := ExecRequested(c.session, p.action, p.exec, p.argsSha256);
      AppendKeepsOrder(y.d, used, e, p.action);
      var d1 := WithAudit(y.d, e);
      var s := Sent(p.frame, p.action, via, |d1.audit|);
      var table := d1.table + (if via.OnApproval? then [Approved(via.id, p, via.echoed, via.nowMs)] else []);
      SendKeepsOrder(d1, used, s, table);
      var d2 := d1.(sent := d1.sent + [s], table := table);
      if delivery.Delivered? {
        RecordedKeepsOrder(c, d2, used, p.action, p.exec, Reply(c.site, y.x, p.frame, delivery.s).outcome, appends - 1);
      }
    }
  }

  // ----- Steps -----------------------------------------------------------------------------------

  lemma MoreUsed(d: Daemon.State, used: set<Id>, action: Id)
    requires InOrder(d, used)
    ensures InOrder(d, used + {action})
  {
    hide PhaseOf, OnRecord;
  }

  lemma CounterDoesNotMatter(d: Daemon.State, used: set<Id>, number: nat)
    requires InOrder(d, used)
    ensures InOrder(d.(number := number), used)
  {
    hide PhaseOf, OnRecord;
  }

  /** A fresh action is on no record and awaits no approval. */
  lemma FreshAction(d: Daemon.State, used: set<Id>, action: Id)
    requires InOrder(d, used) && action !in used
    ensures PhaseOf(d.audit, action) == Unseen && NotPending(d, action)
  {
    hide PhaseOf, OnRecord;
    forall id | id in d.pending ensures d.pending[id].action != action {
      assert AwaitsApproval(d.audit, d.pending[id]);
    }
  }

  lemma StashKeepsOrder(d: Daemon.State, used: set<Id>, id: string, p: Pending, pruneMs: nat)
    requires InOrder(d, used) && AwaitsApproval(d.audit, p) && NotPending(d, p.action)
    ensures InOrder(StashedFor(d, id, p, pruneMs).0, used)
  {
    hide PhaseOf, OnRecord, AwaitsApproval;
  }

  lemma ProposalKeepsOrder(c: Config, y: System, used: set<Id>, p: Proposal)
    requires InOrder(y.d, used) && p.action !in used
    ensures InOrder(Proposed(c, y, p).0.d, used + {p.action})
  {
    hide InOrder, PhaseOf, Dispatched, Policy.Evaluate, Seal, ToFrame, StashedFor, Decided;
    FreshAction(y.d, used, p.action);
    MoreUsed(y.d, used, p.action);
    var used' := used + {p.action};
    AppendKeepsOrder(y.d, used', PolicyDecision(c.session, p.action, p.exec, Events.Deny), p.action);
    if c.site.load(p.exec).Some? {
      DecidedKeepsOrder(c, y, used', p, c.site.load(p.exec).value);
    }
  }

  lemma DecidedKeepsOrder(c: Config, y: System, used: set<Id>, p: Proposal, m: Manifest)
    requires InOrder(y.d, used) && p.action in used
    requires PhaseOf(y.d.audit, p.action) == Unseen && NotPending(y.d, p.action)
    ensures InOrder(Decided(c, y, p, m).0.d, used)
  {
    hide InOrder, PhaseOf, Dispatched, Policy.Evaluate, Seal, ToFrame, StashedFor;
    if p.appends > 0 {
      var decision := PolicyOn(c, p.exec, m);
      var e := PolicyDecision(c.session, p.action, p.exec, Auditable(decision));
      AppendKeepsOrder(y.d, used, e, p.action);
      var d1 := WithAudit(y.d, e);
      CounterDoesNotMatter(d1, used, SaturatingInc(y.d.number));
      var d2 := d1.(number := SaturatingInc(y.d.number));
      var frame := ToFrame(c.site.codec, Seal(c.site.codec, c.secret, RequestOf(c, p, m, d2.number)));
      if frame.Some? {
        match decision
        case Allowed =>
          DispatchKeepsOrder(c, System(d2, y.x), used, PendingOf(c, p, m, frame.value, false), AtOnce, p.appends - 1, p.delivery);
        case NeedsApproval(twoPerson) =>
          StashKeepsOrder(d2, used, p.approvalId, PendingOf(c, p, m, frame.value, twoPerson), p.pruneMs);
        case Denied(_) =>
        case NotAllowed =>
      }
    }
  }

  lemma TakenOut(d: Daemon.State, used: set<Id>, nowMs: nat, id: string)
    requires InOrder(d, used) && id in Prune(d.pending, nowMs)
    ensures var p := Prune(d.pending, nowMs)[id];
            var d' := d.(pending := Remove(Prune(d.pending, nowMs), id));
            InOrder(d', used) && NotPending(d', p.action) && AwaitsApproval(d'.audit, p) && p.action in used
  {
    hide PhaseOf, OnRecord;
  }

  lemma TableDoesNotMatter(d: Daemon.State, used: set<Id>, id: string)
    requires InOrder(d, used)
    ensures InOrder(ConsumedIn(d, id), used)
  {
    hide PhaseOf, OnRecord;
  }

  lemma FewerPending(d: Daemon.State, used: set<Id>, pending: map<string, Pending>)
    requires InOrder(d, used)
    requires forall id :: id in pending ==> id in d.pending && pending[id] == d.pending[id]
    ensures InOrder(d.(pending := pending), used)
  {
    hide PhaseOf, OnRecord, AwaitsApproval;
  }

  lemma ApprovalKeepsOrder(c: Config, y: System, used: set<Id>, a: Approval)
    requires InOrder(y.d, used)
    ensures InOrder(ApprovalHandled(c, y, a).0.d, used)
  {
    hide InOrder, PhaseOf, Dispatched, Remove;
    var pruned := Prune(y.d.pending, a.nowMs);
    FewerPending(y.d, used, pruned);
    if a.id in pruned {
      TakenOut(y.d, used, a.nowMs, a.id);
      var p := pruned[a.id];
      var d1 := y.d.(pending := Remove(pruned, a.id));
      TableDoesNotMatter(d1, used, a.id);
      RemarkKeepsOrder(d1, used, Note("two-person rule unsatisfied"));
      TableDoesNotMatter(WithAudit(d1, Note("two-person rule unsatisfied")), used, a.id);
      if p.digest == a.digest && !p.twoPerson && a.appends > 0 {
        var e := ApprovalGranted(c.session, p.action);
        AppendKeepsOrder(d1, used, e, p.action);
        TableDoesNotMatter(WithAudit(d1, e), used, a.id);
        if a.appends > 1 {
          DispatchKeepsOrder(c, System(WithAudit(d1, e), y.x), used, p, OnApproval(a.id, a.digest, a.nowMs), a.appends - 1, a.delivery);
        }
      }
    }
  }

  /** The action a step proposes, if it does. */
  ghost function ActionIn(c: Config, step: Step): Option<Id> {
    if step.RunTask? && ToolCall(c, step.t).Some? then Some(step.t.p.action) else None
  }

  ghost function ActionsIn(c: Config, steps: seq<Step>): set<Id> {
    set i | 0 <= i < |steps| && ActionIn(c, steps[i]).Some? :: ActionIn(c, steps[i]).value
  }

  /** Action ids are fresh randomness: no two proposals share one. */
  ghost predicate FreshActions(c: Config, steps: seq<Step>) {
    forall i, j :: 0 <= i < j < |steps| && ActionIn(c, steps[i]).Some? ==> ActionIn(c, steps[i]) != ActionIn(c, steps[j])
  }

  lemma ToolCallAction(c: Config, t: Task)
    requires ToolCall(c, t).Some?
    ensures ToolCall(c, t).value.action == t.p.action
  {
  }

  ghost predicate AreRemarks(events: seq<AuditEvent>) {
    forall i, action: Id :: 0 <= i < |events| ==> !Mentions(events[i], action)
  }

  lemma {:induction false} RemarksKeepOrder(d: Daemon.State, used: set<Id>, events: seq<AuditEvent>)
    requires InOrder(d, used) && AreRemarks(events)
    ensures InOrder(d.(audit := d.audit + events), used)
  {
    hide InOrder, Mentions;
    if events == [] {
      assert d.audit + [] == d.audit;
    } else {
      var n := |events| - 1;
      RemarksKeepOrder(d, used, events[..n]);
      RemarkKeepsOrder(d.(audit := d.audit + events[..n]), used, events[n]);
      assert d.audit + events[..n] + [events[n]] == d.audit + events;
    }
  }

  /** The exchange with the model is about no action. */
  lemma ExchangeKeepsOrder(c: Config, d: Daemon.State, used: set<Id>, t: Task)
    requires InOrder(d, used)
    ensures InOrder(Exchanged(c, d, t), used)
  {
    hide InOrder, Leaked, KeepsContract;
    var events := Exchange(c, t);
    assert AreRemarks(events);
    RemarksKeepOrder(d, used, if t.appends < |events| then events[..t.appends] else events);
  }

  lemma StepKeepsOrder(c: Config, y: System, used: set<Id>, step: Step)
    requires InOrder(y.d, used)
    requires ActionIn(c, step).Some? ==> ActionIn(c, step).value !in used
    ensures InOrder(Next(c, y, step).d, used + if ActionIn(c, step).Some? then {ActionIn(c, step).value} else {})
  {
    hide InOrder, Proposed, ApprovalHandled, After, Remove, ToolCall, Exchange;
    assert used + {} == used;
    match step
    case RunTask(t) =>
      ExchangeKeepsOrder(c, y.d, used, t);
      if ToolCall(c, t).Some? {
        ToolCallAction(c, t);
        ProposalKeepsOrder(c, System(Exchanged(c, y.d, t), y.x), used, ToolCall(c, t).value);
      }
    case Approve(a) => ApprovalKeepsOrder(c, y, used, a);
    case Reject(id) => RejectionKeepsOrder(y.d, used, id);
    case Redeliver(frame, s) =>
  }

  lemma RejectionKeepsOrder(d: Daemon.State, used: set<Id>, id: string)
    requires InOrder(d, used)
    ensures InOrder(RejectionHandled(d, id).0, used)
  {
    hide InOrder;
    FewerPending(d, used, Remove(d.pending, id));
    TableDoesNotMatter(d.(pending := Remove(d.pending, id)), used, id);
  }

  /**
   Over any run, however appends and sends fail: each action's events follow the
   grammar, and every send directly follows the recorded request of its action.
   */
  lemma {:induction false} RunKeepsOrder(c: Config, y: System, steps: seq<Step>)
    requires FreshActions(c, steps) && InOrder(y.d, {})
    ensures InOrder(Run(c, y, steps).d, ActionsIn(c, steps))
  {
    hide InOrder, Next;
    if steps == [] {
      assert ActionsIn(c, steps) == {};
    } else {
      var n := |steps| - 1;
      assert FreshActions(c, steps[..n]) by {
        assert forall i :: 0 <= i < n ==> steps[..n][i] == steps[i];
      }
      RunKeepsOrder(c, y, steps[..n]);
      ActionsSnoc(c, steps);
      StepKeepsOrder(c, Run(c, y, steps[..n]), ActionsIn(c, steps[..n]), steps[n]);
    }
  }

  /** From the start of a session. */
  lemma RunFromStartIsInOrder(c: Config, ceiling: Mode, limits: RateLimit.RateLimits, clock: int, steps: seq<Step>)
    requires FreshActions(c, steps)
    ensures var d := Run(c, Start(c, ceiling, limits, clock), steps).d;
            && (forall action: Id :: PhaseOf(d.audit, action) != Broken)
            && (forall i :: 0 <= i < |d.sent| ==> OnRecord(d.audit, d.sent[i]))
  {
    hide Run, PhaseOf, OnRecord;
    StartInOrder(c, ceiling, limits, clock);
    RunKeepsOrder(c, Start(c, ceiling, limits, clock), steps);
  }

  lemma ActionsSnoc(c: Config, steps: seq<Step>)
    requires steps != [] && FreshActions(c, steps)
    ensures var n := |steps| - 1;
            && ActionsIn(c, steps) == ActionsIn(c, steps[..n]) + (if ActionIn(c, steps[n]).Some? then {ActionIn(c, steps[n]).value} else {})
            && (ActionIn(c, steps[n]).Some? ==> ActionIn(c, steps[n]).value !in ActionsIn(c, steps[..n]))
  {
    var n := |steps| - 1;
    var more := if ActionIn(c, steps[n]).Some? then {ActionIn(c, steps[n]).value} else {};
    assert forall i :: 0 <= i < n ==> steps[..n][i] == steps[i];
    forall a | a in ActionsIn(c, steps[..n]) ensures a in ActionsIn(c, steps) {
      var i :| 0 <= i < n && ActionIn(c, steps[..n][i]) == Some(a);
      assert ActionIn(c, steps[i]) == Some(a);
    }
    forall a | a in ActionsIn(c, steps) ensures a in ActionsIn(c, steps[..n]) + more {
      var i :| 0 <= i < |steps| && ActionIn(c, steps[i]) == Some(a);
      if i < n {
        assert ActionIn(c, steps[..n][i]) == Some(a);
      }
    }
  }

  lemma StartInOrder(c: Config, ceiling: Mode, limits: RateLimit.RateLimits, clock: int)
    ensures InOrder(Start(c, ceiling, limits, clock).d, {})
  {
  }

  // ----- What the grammar rules out ------------------------------------------------------------------

  /** An action decided against is never requested, whatever is appended later, if the log stays grammatical. */
  lemma {:induction false} DeniedIsFinal(audit: seq<AuditEvent>, more: seq<AuditEvent>, action: Id)
    requires PhaseOf(audit, action) == Ruled(Deny)
    requires PhaseOf(audit + more, action) != Broken
    ensures PhaseOf(audit + more, action) == Ruled(Deny)
  {
    if more == [] {
      assert audit + more == audit;
    } else {
      var n := |more| - 1;
      assert audit + more == (audit + more[..n]) + [more[n]];
      PhaseSnoc(audit + more[..n], more[n], action);
      DeniedIsFinal(audit, more[..n], action);
    }
  }
}

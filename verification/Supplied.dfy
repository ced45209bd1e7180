/** Every signed frame carries what was supplied for its action, nonce and issue time among it; and what follows for replay. */
module Supplied {
  import opened Common
  import opened Events
  import opened Wire
  import opened Execd
  import opened Daemon
  import opened Protocol
  import opened Agreement
  import ApprovalTable
  import Policy
  import RateLimit
  import Replay

  /** The frame opens to a request of this session with everything the proposal was supplied with. */
  ghost predicate Carries(c: Config, frame: Bytes, p: Proposal) {
    match OpenFrame(c.site.codec, Key(c), frame)
    case None => false
    case Some(r) =>
      && r.session == c.session && r.mode == c.mode && r.profile == c.profile
      && r.action == p.action && r.exec == p.exec && r.args == p.args
      && r.nonce == p.nonce && r.issuedMs == p.issuedMs
      && c.site.load(p.exec).Some?
      && r.declaredRisk == c.site.load(p.exec).value.risk && r.declaredReadOnly == c.site.load(p.exec).value.readOnly
  }

  ghost predicate CarriesOne(c: Config, frame: Bytes, action: Id, ps: seq<Proposal>) {
    exists k :: 0 <= k < |ps| && Carries(c, frame, ps[k]) && action == ps[k].action
  }

  /** The proposals that the answers of a run made, in order. */
  ghost function ProposalsIn(c: Config, steps: seq<Step>): seq<Proposal> {
    if steps == [] then [] else
      var n := |steps| - 1;
      ProposalsIn(c, steps[..n]) + ProposalOf(c, steps[n])
  }

  ghost function ProposalOf(c: Config, step: Step): seq<Proposal> {
    if step.RunTask? && ToolCall(c, step.t).Some? then [ToolCall(c, step.t).value] else []
  }

  ghost predicate AllSupplied(c: Config, d: Daemon.State, ps: seq<Proposal>) {
    && (forall id :: id in d.pending ==> CarriesOne(c, d.pending[id].frame, d.pending[id].action, ps))
    && (forall i :: 0 <= i < |d.sent| ==> CarriesOne(c, d.sent[i].frame, d.sent[i].action, ps))
  }

  // ----- Every step keeps it ------------------------------------------------------------------

  lemma MoreProposals(c: Config, frame: Bytes, action: Id, ps: seq<Proposal>, more: seq<Proposal>)
    requires CarriesOne(c, frame, action, ps)
    ensures CarriesOne(c, frame, action, ps + more)
  {
    hide Carries;
    var k :| 0 <= k < |ps| && Carries(c, frame, ps[k]) && action == ps[k].action;
    assert (ps + more)[k] == ps[k];
  }

  /** Fewer pending entries, the same sends, more proposals. */
  lemma SuppliedCarriesOver(c: Config, d: Daemon.State, d': Daemon.State, ps: seq<Proposal>, more: seq<Proposal>)
    requires AllSupplied(c, d, ps) && d'.sent == d.sent
    requires forall id :: id in d'.pending ==> id in d.pending && d'.pending[id] == d.pending[id]
    ensures AllSupplied(c, d', ps + more)
  {
    hide CarriesOne;
    forall id | id in d'.pending ensures CarriesOne(c, d'.pending[id].frame, d'.pending[id].action, ps + more) {
      MoreProposals(c, d.pending[id].frame, d.pending[id].action, ps, more);
    }
    forall i | 0 <= i < |d'.sent| ensures CarriesOne(c, d'.sent[i].frame, d'.sent[i].action, ps + more) {
      MoreProposals(c, d.sent[i].frame, d.sent[i].action, ps, more);
    }
  }

  lemma DispatchSends(c: Config, y: System, p: Pending, via: Via, appends: nat, delivery: Delivery)
    ensures var d' := Dispatched(c, y, p, via, appends, delivery).0.d;
            && d'.pending == y.d.pending && d'.number == y.d.number
            && (d'.sent == y.d.sent
                || exists at: nat :: d'.sent == y.d.sent + [Sent(p.frame, p.action, via, at)])
  {
    hide After, Reply;
    ApprovalTable.DispatchOnTable(c, y, p, via, appends, delivery);
  }

  lemma DispatchKeepsSupplied(c: Config, y: System, p: Pending, via: Via, appends: nat, delivery: Delivery, ps: seq<Proposal>)
    requires AllSupplied(c, y.d, ps) && CarriesOne(c, p.frame, p.action, ps)
    ensures AllSupplied(c, Dispatched(c, y, p, via, appends, delivery).0.d, ps)
  {
    hide CarriesOne, Dispatched;
    DispatchSends(c, y, p, via, appends, delivery);
  }

  lemma StashKeepsSupplied(c: Config, d: Daemon.State, id: string, p: Pending, pruneMs: nat, ps: seq<Proposal>)
    requires AllSupplied(c, d, ps) && CarriesOne(c, p.frame, p.action, ps)
    ensures AllSupplied(c, StashedFor(d, id, p, pruneMs).0, ps)
  {
    hide CarriesOne;
  }

  /** What is signed for a proposal carries it, under the next number. */
  lemma SignedCarries(c: Config, p: Proposal, m: Manifest, number: nat, ps: seq<Proposal>)
    requires Sound(c.site.codec) && c.site.load(p.exec) == Some(m)
    requires ToFrame(c.site.codec, Seal(c.site.codec, c.secret, RequestOf(c, p, m, number))).Some?
    ensures var frame := ToFrame(c.site.codec, Seal(c.site.codec, c.secret, RequestOf(c, p, m, number))).value;
            && Carries(c, frame, p) && CarriesOne(c, frame, p.action, ps + [p])
            && OpenFrame(c.site.codec, Key(c), frame).value.number == number
  {
    hide OpenFrame, Seal, ToFrame, Sound;
    OpenUndoesSeal(c.site.codec, c.secret, RequestOf(c, p, m, number));
    assert (ps + [p])[|ps|] == p;
  }

  lemma ProposalKeepsSupplied(c: Config, y: System, p: Proposal, ps: seq<Proposal>)
    requires Sound(c.site.codec) && AllSupplied(c, y.d, ps)
    ensures AllSupplied(c, Proposed(c, y, p).0.d, ps + [p])
  {
    hide Carries, CarriesOne, OpenFrame, Seal, ToFrame, RequestOf, Policy.Evaluate, Sound, Dispatched, AllSupplied, StashedFor;
    SuppliedCarriesOver(c, y.d, y.d, ps, [p]);
    SuppliedCarriesOver(c, y.d, WithAudit(y.d, PolicyDecision(c.session, p.action, p.exec, Events.Deny)), ps, [p]);
    if c.site.load(p.exec).Some? && p.appends > 0 {
      var m := c.site.load(p.exec).value;
      var decision := PolicyOn(c, p.exec, m);
      var d1 := WithAudit(y.d, PolicyDecision(c.session, p.action, p.exec, Auditable(decision)));
      var d2 := d1.(number := SaturatingInc(y.d.number));
      SuppliedCarriesOver(c, y.d, d2, ps, [p]);
      var frame := ToFrame(c.site.codec, Seal(c.site.codec, c.secret, RequestOf(c, p, m, d2.number)));
      if frame.Some? {
        SignedCarries(c, p, m, d2.number, ps);
        if decision.NeedsApproval? {
          StashKeepsSupplied(c, d2, p.approvalId, PendingOf(c, p, m, frame.value, decision.twoPerson), p.pruneMs, ps + [p]);
        } else {
          DispatchKeepsSupplied(c, System(d2, y.x), PendingOf(c, p, m, frame.value, false), AtOnce, p.appends - 1, p.delivery, ps + [p]);
        }
      }
    }
  }

  lemma PendingIsSupplied(c: Config, d: Daemon.State, id: string, ps: seq<Proposal>)
    requires AllSupplied(c, d, ps) && id in d.pending
    ensures CarriesOne(c, d.pending[id].frame, d.pending[id].action, ps)
  {
  }

  lemma ApprovalKeepsSupplied(c: Config, y: System, a: Approval, ps: seq<Proposal>)
    requires AllSupplied(c, y.d, ps)
    ensures AllSupplied(c, ApprovalHandled(c, y, a).0.d, ps)
  {
    hide CarriesOne, Dispatched, AllSupplied;
    assert ps + [] == ps;
    var pruned := Prune(y.d.pending, a.nowMs);
    SuppliedCarriesOver(c, y.d, y.d.(pending := pruned), ps, []);
    if a.id in pruned {
      var p := pruned[a.id];
      PendingIsSupplied(c, y.d, a.id, ps);
      var d1 := y.d.(pending := Remove(pruned, a.id));
      var d2 := WithAudit(d1, ApprovalGranted(c.session, p.action));
      SuppliedCarriesOver(c, y.d, ConsumedIn(d1, a.id), ps, []);
      SuppliedCarriesOver(c, y.d, ConsumedIn(d2, a.id), ps, []);
      SuppliedCarriesOver(c, y.d, ConsumedIn(WithAudit(d1, Note("two-person rule unsatisfied")), a.id), ps, []);
      SuppliedCarriesOver(c, y.d, d2, ps, []);
      if a.appends > 0 {
        DispatchKeepsSupplied(c, System(d2, y.x), p, OnApproval(a.id, a.digest, a.nowMs), a.appends - 1, a.delivery, ps);
      }
    }
  }

  lemma StepKeepsSupplied(c: Config, y: System, step: Step, ps: seq<Proposal>)
    requires Sound(c.site.codec) && AllSupplied(c, y.d, ps)
    ensures AllSupplied(c, Next(c, y, step).d, ps + ProposalOf(c, step))
  {
    hide AllSupplied, Proposed, ApprovalHandled, Sound, ToolCall, Exchange;
    assert ps + [] == ps;
    match step
    case RunTask(t) =>
      SuppliedCarriesOver(c, y.d, Exchanged(c, y.d, t), ps, []);
      if ToolCall(c, t).Some? {
        ProposalKeepsSupplied(c, System(Exchanged(c, y.d, t), y.x), ToolCall(c, t).value, ps);
      }
    case Approve(a) => ApprovalKeepsSupplied(c, y, a, ps);
    case Reject(id) => SuppliedCarriesOver(c, y.d, RejectionHandled(y.d, id).0, ps, []);
    case Redeliver(frame, s) =>
  }

  /**
   In every run, each frame sent or waiting opens to a request with exactly the nonce,
   issue time, executable, arguments and claims that one of the run's proposals was supplied with,
   under that proposal's action.
   */
  lemma {:induction false} RunKeepsSupplied(c: Config, ceiling: Mode, limits: RateLimit.RateLimits, clock: int, steps: seq<Step>)
    requires Sound(c.site.codec)
    ensures AllSupplied(c, Run(c, Start(c, ceiling, limits, clock), steps).d, ProposalsIn(c, steps))
  {
    hide AllSupplied, Next, Sound, ProposalOf;
    if steps == [] {
      NothingSupplied(c, ceiling, limits, clock);
    } else {
      var n := |steps| - 1;
      RunKeepsSupplied(c, ceiling, limits, clock, steps[..n]);
      StepKeepsSupplied(c, Run(c, Start(c, ceiling, limits, clock), steps[..n]), steps[n], ProposalsIn(c, steps[..n]));
    }
  }

  lemma NothingSupplied(c: Config, ceiling: Mode, limits: RateLimit.RateLimits, clock: int)
    ensures AllSupplied(c, Start(c, ceiling, limits, clock).d, [])
  {
  }

  // ----- When an action sent at once is a replay ------------------------------------------------

  /** The proposal is signed, needs no approval, and its frame reaches the executor with the reply on record. */
  ghost predicate GoesAtOnce(c: Config, y: System, p: Proposal) {
    && SafeExecName(p.exec) && c.site.load(p.exec).Some?
    && var m := c.site.load(p.exec).value;
    && c.site.argsOk(m, p.args)
    && PolicyOn(c, p.exec, m) == Policy.Allowed
    && ToFrame(c.site.codec, Seal(c.site.codec, c.secret, RequestOf(c, p, m, y.d.number + 1))).Some?
    && p.appends >= 3 && p.delivery.Delivered?
  }

  /** The proposal's nonce is among the last 4096 the executor admitted. */
  ghost predicate NonceRemembered(x: Execd.State, nonce: Bytes) {
    exists i :: 0 <= i < |x.admissions| && |x.admissions| - 4096 <= i && x.admissions[i].nonce == nonce
  }

  /** The executor has admitted a number of the session that is not below. */
  ghost predicate NumberOvertaken(x: Execd.State, session: Id, number: nat) {
    exists i :: 0 <= i < |x.admissions| && x.admissions[i].session == session && number <= x.admissions[i].number
  }

  /** What a proposal that goes at once comes to: its own frame's reply. */
  lemma AtOnceReply(c: Config, y: System, p: Proposal)
    requires Sound(c.site.codec) && GoesAtOnce(c, y, p) && y.d.number < U64_MAX
    ensures var m := c.site.load(p.exec).value;
            var frame := ToFrame(c.site.codec, Seal(c.site.codec, c.secret, RequestOf(c, p, m, y.d.number + 1))).value;
            && Proposed(c, y, p).0.x == After(c.site, y.x, frame, p.delivery.s)
            && (Proposed(c, y, p).1 == DeniedAt(ByExecutor(ReplayStage))
                <==> Reply(c.site, y.x, frame, p.delivery.s).outcome == Rejected(ReplayStage))
  {
    hide OpenFrame, Seal, ToFrame, RequestOf, Sound, Policy.Evaluate, Reply, After, SafeExecName;
  }

  /**
   A proposal sent at once, below saturation, is refused at the replay stage if and only if
   the nonce supplied for it is among the last 4096 admitted, or its number is overtaken.
   */
  lemma AtOnceRefusedIff(c: Config, y: System, p: Proposal)
    requires Sound(c.site.codec) && AllVetted(c, y) && GoesAtOnce(c, y, p) && y.d.number < U64_MAX
    ensures Proposed(c, y, p).1 == DeniedAt(ByExecutor(ReplayStage))
       <==> NonceRemembered(y.x, p.nonce) || NumberOvertaken(y.x, c.session, y.d.number + 1)
  {
    hide OpenFrame, Seal, ToFrame, Sound, Policy.Evaluate, Reply, After, SafeExecName, Replay.Decide, RateLimit.Decide;
    var m := c.site.load(p.exec).value;
    var r := RequestOf(c, p, m, y.d.number + 1);
    var frame := ToFrame(c.site.codec, Seal(c.site.codec, c.secret, r)).value;
    OpenUndoesSeal(c.site.codec, c.secret, r);
    AtOnceReply(c, y, p);
    ReplayReply(c, y.x, frame, r, p.delivery.s);
    Replay.DecideMeaning(y.x.admissions, AttemptOf(r));
  }

  lemma ReplayReply(c: Config, x: Execd.State, frame: Bytes, r: ExecRequest, s: Surroundings)
    requires OpenFrame(c.site.codec, x.key, frame) == Some(r)
    ensures Reply(c.site, x, frame, s).outcome == Rejected(ReplayStage)
       <==> Replay.Decide(x.admissions, AttemptOf(r)) != Replay.Admitted
  {
    hide OpenFrame, Policy.Evaluate, SafeExecName, RateLimit.Decide, Replay.Decide, Refusal;
    RefusalByBranch(c.site, x, frame, s);
  }

  // ----- Without redelivery and with fresh nonces -------------------------------------------------

  /** All the executor has admitted are numbers and nonces the daemon signed. */
  ghost predicate OnlyOurs(c: Config, y: System, ps: seq<Proposal>) {
    forall i :: 0 <= i < |y.x.admissions| ==> IsOurs(c, y.d.number, y.x.admissions[i], ps)
  }

  ghost predicate IsOurs(c: Config, number: nat, a: Replay.Attempt, ps: seq<Proposal>) {
    a.session == c.session && a.number <= number && exists k :: 0 <= k < |ps| && a.nonce == ps[k].nonce
  }

  /** The step hands the executor nothing, or a frame of ours with a number that by now is signed. */
  ghost predicate HandsOurs(c: Config, y: System, y': System, ps: seq<Proposal>) {
    && y.d.number <= y'.d.number
    && (y'.x == y.x
        || exists frame: Bytes, s: Surroundings ::
             y'.x == After(c.site, y.x, frame, s) && OursUpTo(c, y'.d.number, frame, ps))
  }

  ghost predicate OursUpTo(c: Config, number: nat, frame: Bytes, ps: seq<Proposal>) {
    && OpenFrame(c.site.codec, Key(c), frame).Some?
    && OpenFrame(c.site.codec, Key(c), frame).value.number <= number
    && exists action :: CarriesOne(c, frame, action, ps)
  }

  lemma HandKeepsOurs(c: Config, y: System, y': System, ps: seq<Proposal>, more: seq<Proposal>)
    requires OnlyOurs(c, y, ps) && y.x.key == Key(c) && HandsOurs(c, y, y', ps + more)
    ensures OnlyOurs(c, y', ps + more)
  {
    hide OpenFrame, Refusal, Policy.Evaluate, SafeExecName;
    forall i | 0 <= i < |y.x.admissions| ensures IsOurs(c, y'.d.number, y.x.admissions[i], ps + more) {
      assert IsOurs(c, y.d.number, y.x.admissions[i], ps);
      var k :| 0 <= k < |ps| && y.x.admissions[i].nonce == ps[k].nonce;
      assert (ps + more)[k] == ps[k];
    }
    if y'.x != y.x {
      var frame: Bytes, s: Surroundings :| y'.x == After(c.site, y.x, frame, s) && OursUpTo(c, y'.d.number, frame, ps + more);
      var action :| CarriesOne(c, frame, action, ps + more);
      var k :| 0 <= k < |ps + more| && Carries(c, frame, (ps + more)[k]) && action == (ps + more)[k].action;
      assert IsOurs(c, y'.d.number, AttemptOf(OpenFrame(c.site.codec, Key(c), frame).value), ps + more);
    }
  }

  lemma DispatchHands(c: Config, y: System, p: Pending, via: Via, appends: nat, delivery: Delivery, ps: seq<Proposal>)
    requires OursUpTo(c, y.d.number, p.frame, ps)
    ensures HandsOurs(c, y, Dispatched(c, y, p, via, appends, delivery).0, ps)
  {
    hide After, Reply, OursUpTo;
  }

  lemma SignedIsOurs(c: Config, p: Proposal, m: Manifest, number: nat, ps: seq<Proposal>)
    requires Sound(c.site.codec) && c.site.load(p.exec) == Some(m)
    requires ToFrame(c.site.codec, Seal(c.site.codec, c.secret, RequestOf(c, p, m, number))).Some?
    ensures OursUpTo(c, number, ToFrame(c.site.codec, Seal(c.site.codec, c.secret, RequestOf(c, p, m, number))).value, ps + [p])
  {
    hide OpenFrame, Seal, ToFrame, Sound, CarriesOne, RequestOf;
    SignedCarries(c, p, m, number, ps);
  }

  lemma ProposalHands(c: Config, y: System, p: Proposal, ps: seq<Proposal>)
    requires Sound(c.site.codec) && y.d.number <= U64_MAX
    ensures HandsOurs(c, y, Proposed(c, y, p).0, ps + [p])
  {
    hide OpenFrame, Seal, ToFrame, Sound, Policy.Evaluate, Dispatched, After, OursUpTo, RequestOf;
    if c.site.load(p.exec).Some? && p.appends > 0 {
      var m := c.site.load(p.exec).value;
      var d1 := WithAudit(y.d, PolicyDecision(c.session, p.action, p.exec, Auditable(PolicyOn(c, p.exec, m))));
      var d2 := d1.(number := SaturatingInc(y.d.number));
      var frame := ToFrame(c.site.codec, Seal(c.site.codec, c.secret, RequestOf(c, p, m, d2.number)));
      if frame.Some? {
        SignedIsOurs(c, p, m, d2.number, ps);
        DispatchHands(c, System(d2, y.x), PendingOf(c, p, m, frame.value, false), AtOnce, p.appends - 1, p.delivery, ps + [p]);
      }
    }
  }

  lemma PendingIsOurs(c: Config, y: System, id: string, ps: seq<Proposal>)
    requires AllVetted(c, y) && AllSupplied(c, y.d, ps) && id in y.d.pending
    ensures OursUpTo(c, y.d.number, y.d.pending[id].frame, ps)
  {
    hide OpenFrame, SafeExecName, Policy.Evaluate, CarriesOne;
    PendingIsVetted(c, y, id);
    PendingIsSupplied(c, y.d, id, ps);
  }

  lemma ApprovalHands(c: Config, y: System, a: Approval, ps: seq<Proposal>)
    requires AllVetted(c, y) && AllSupplied(c, y.d, ps)
    ensures HandsOurs(c, y, ApprovalHandled(c, y, a).0, ps)
  {
    hide After, Dispatched, AllVetted, AllSupplied, OursUpTo, CarriesOne;
    var pruned := Prune(y.d.pending, a.nowMs);
    if a.id in pruned && a.appends > 1 {
      PendingIsOurs(c, y, a.id, ps);
      var d2 := WithAudit(y.d.(pending := Remove(pruned, a.id)), ApprovalGranted(c.session, pruned[a.id].action));
      DispatchHands(c, System(d2, y.x), pruned[a.id], OnApproval(a.id, a.digest, a.nowMs), a.appends - 1, a.delivery, ps);
    }
  }

  lemma StepHands(c: Config, y: System, step: Step, ps: seq<Proposal>)
    requires Sound(c.site.codec) && AllVetted(c, y) && AllSupplied(c, y.d, ps) && !step.Redeliver?
    ensures HandsOurs(c, y, Next(c, y, step), ps + ProposalOf(c, step))
  {
    hide After, Proposed, ApprovalHandled, AllVetted, AllSupplied, OursUpTo, Sound, ToolCall, Exchange;
    assert ps + [] == ps;
    Agreement.NumberBound(c, y);
    match step
    case RunTask(t) =>
      if ToolCall(c, t).Some? {
        ProposalHands(c, System(Exchanged(c, y.d, t), y.x), ToolCall(c, t).value, ps);
      }
    case Approve(a) => ApprovalHands(c, y, a, ps);
    case Reject(id) =>
  }

  ghost predicate NoRedelivery(steps: seq<Step>) {
    forall k :: 0 <= k < |steps| ==> !steps[k].Redeliver?
  }

  lemma {:induction false} RunIsOnlyOurs(c: Config, ceiling: Mode, limits: RateLimit.RateLimits, clock: int, steps: seq<Step>)
    requires Sound(c.site.codec) && NoRedelivery(steps)
    ensures OnlyOurs(c, Run(c, Start(c, ceiling, limits, clock), steps), ProposalsIn(c, steps))
  {
    hide OnlyOurs, HandsOurs, AllVetted, AllSupplied, Next, Sound, ProposalOf;
    var start := Start(c, ceiling, limits, clock);
    if steps == [] {
      NothingAdmitted(c, ceiling, limits, clock);
    } else {
      var n := |steps| - 1;
      RunIsOnlyOurs(c, ceiling, limits, clock, steps[..n]);
      var before, ps := Run(c, start, steps[..n]), ProposalsIn(c, steps[..n]);
      StartIsVetted(c, ceiling, limits, clock);
      RunKeepsVetted(c, start, steps[..n]);
      RunKeepsSupplied(c, ceiling, limits, clock, steps[..n]);
      VettedKey(c, before);
      StepHands(c, before, steps[n], ps);
      HandKeepsOurs(c, before, Next(c, before, steps[n]), ps, ProposalOf(c, steps[n]));
    }
  }

  lemma NothingAdmitted(c: Config, ceiling: Mode, limits: RateLimit.RateLimits, clock: int)
    ensures OnlyOurs(c, Start(c, ceiling, limits, clock), [])
  {
  }

  lemma VettedKey(c: Config, y: System)
    requires AllVetted(c, y)
    ensures y.x.key == Key(c)
  {
  }

  /**
   From the start of a session, without redelivery: an action sent at once under a nonce
   that no earlier proposal was supplied with is never refused as a replay.
   */
  lemma FreshNonceIsNoReplay(c: Config, ceiling: Mode, limits: RateLimit.RateLimits, clock: int, steps: seq<Step>, t: Task)
    requires Sound(c.site.codec) && NoRedelivery(steps)
    requires ToolCall(c, t).Some?
    requires var y := Run(c, Start(c, ceiling, limits, clock), steps);
             && y.d.number < U64_MAX
             && GoesAtOnce(c, System(Exchanged(c, y.d, t), y.x), ToolCall(c, t).value)
    requires forall k :: 0 <= k < |ProposalsIn(c, steps)| ==> ProposalsIn(c, steps)[k].nonce != t.p.nonce
    ensures TaskRun(c, Run(c, Start(c, ceiling, limits, clock), steps), t).1 != DeniedAt(ByExecutor(ReplayStage))
  {
    hide Run, AllVetted, GoesAtOnce, Sound, Proposed, Exchange, NoRedelivery, OnlyOurs, NonceRemembered, NumberOvertaken;
    var start := Start(c, ceiling, limits, clock);
    var y := Run(c, start, steps);
    var y', p := System(Exchanged(c, y.d, t), y.x), ToolCall(c, t).value;
    StartIsVetted(c, ceiling, limits, clock);
    RunKeepsVetted(c, start, steps);
    ExchangeKeepsVetted(c, y, t);
    RunIsOnlyOurs(c, ceiling, limits, clock, steps);
    AtOnceRefusedIff(c, y', p);
    OursIsFresh(c, y, t.p.nonce, ProposalsIn(c, steps));
  }

  lemma OursIsFresh(c: Config, y: System, nonce: Bytes, ps: seq<Proposal>)
    requires OnlyOurs(c, y, ps) && forall k :: 0 <= k < |ps| ==> ps[k].nonce != nonce
    ensures !NonceRemembered(y.x, nonce) && !NumberOvertaken(y.x, c.session, y.d.number + 1)
  {
    assert forall i :: 0 <= i < |y.x.admissions| ==> IsOurs(c, y.d.number, y.x.admissions[i], ps);
  }

  /** The same condition decides over every run from the start, with any redelivery. */
  lemma AtOnceRefusedIffFromStart(c: Config, ceiling: Mode, limits: RateLimit.RateLimits, clock: int, steps: seq<Step>, t: Task)
    requires Sound(c.site.codec) && ToolCall(c, t).Some?
    requires var y := Run(c, Start(c, ceiling, limits, clock), steps);
             && y.d.number < U64_MAX
             && GoesAtOnce(c, System(Exchanged(c, y.d, t), y.x), ToolCall(c, t).value)
    ensures var y := Run(c, Start(c, ceiling, limits, clock), steps);
            && (TaskRun(c, y, t).1 == DeniedAt(ByExecutor(ReplayStage))
                <==> NonceRemembered(y.x, t.p.nonce) || NumberOvertaken(y.x, c.session, y.d.number + 1))
  {
    hide Run, AllVetted, GoesAtOnce, Sound, Proposed, Exchange, NonceRemembered, NumberOvertaken;
    var start := Start(c, ceiling, limits, clock);
    var y := Run(c, start, steps);
    StartIsVetted(c, ceiling, limits, clock);
    RunKeepsVetted(c, start, steps);
    ExchangeKeepsVetted(c, y, t);
    AtOnceRefusedIff(c, System(Exchanged(c, y.d, t), y.x), ToolCall(c, t).value);
  }
}

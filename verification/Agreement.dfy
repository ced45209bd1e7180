/** What daemon and executor agree on when they share keys, bundles and policy. */
module Agreement {
  import opened Common
  import opened Events
  import opened Wire
  import opened Execd
  import opened Daemon
  import opened Protocol
  import Policy
  import RateLimit
  import Replay

  ghost function Key(c: Config): Bytes {
    c.site.codec.publicKey(c.secret)
  }

  /** A frame the daemon signed for an action that passed all its own gates. */
  ghost predicate Vetted(c: Config, frame: Bytes, number: nat) {
    match OpenFrame(c.site.codec, Key(c), frame)
    case None => false
    case Some(r) => VettedRequest(c, r) && r.number <= number
  }

  ghost predicate VettedRequest(c: Config, r: ExecRequest) {
    && r.session == c.session && r.profile == c.profile && r.mode == c.mode
    && SafeExecName(r.exec)
    && c.site.load(r.exec).Some?
    && var m := c.site.load(r.exec).value;
    && c.site.argsOk(m, r.args)
    && (PolicyOn(c, r.exec, m) == Policy.Allowed || PolicyOn(c, r.exec, m).NeedsApproval?)
  }

  ghost predicate AllVetted(c: Config, y: System) {
    && y.x.key == Key(c) && y.d.number <= U64_MAX
    && (forall id :: id in y.d.pending ==> Vetted(c, y.d.pending[id].frame, y.d.number))
    && (forall i :: 0 <= i < |y.d.sent| ==> Vetted(c, y.d.sent[i].frame, y.d.number))
  }

  // ----- Vetted frames stay vetted --------------------------------------------------------

  /** A freshly signed frame is vetted, under the next number. */
  lemma SignedIsVetted(c: Config, p: Proposal, m: Manifest, number: nat)
    requires Sound(c.site.codec) && SafeExecName(p.exec) && c.site.load(p.exec) == Some(m) && c.site.argsOk(m, p.args)
    requires PolicyOn(c, p.exec, m) == Policy.Allowed || PolicyOn(c, p.exec, m).NeedsApproval?
    requires ToFrame(c.site.codec, Seal(c.site.codec, c.secret, RequestOf(c, p, m, number))).Some?
    ensures var frame := ToFrame(c.site.codec, Seal(c.site.codec, c.secret, RequestOf(c, p, m, number))).value;
            && OpenFrame(c.site.codec, Key(c), frame) == Some(RequestOf(c, p, m, number))
            && Vetted(c, frame, number)
  {
    hide OpenFrame, Seal, ToFrame, Policy.Evaluate, SafeExecName, Sound;
    OpenUndoesSeal(c.site.codec, c.secret, RequestOf(c, p, m, number));
  }

  /** Only the key, the numbers, the pending frames and the sent frames matter. */
  lemma VettedCarriesOver(c: Config, y: System, y': System)
    requires AllVetted(c, y) && y'.x.key == y.x.key && y.d.number <= y'.d.number <= U64_MAX
    requires forall id :: id in y'.d.pending ==> id in y.d.pending && y'.d.pending[id] == y.d.pending[id]
    requires y'.d.sent == y.d.sent
    ensures AllVetted(c, y')
  {
    hide VettedRequest, OpenFrame;
  }

  lemma DispatchKeepsVetted(c: Config, y: System, p: Pending, via: Via, appends: nat, delivery: Delivery)
    requires AllVetted(c, y) && Vetted(c, p.frame, y.d.number)
    ensures AllVetted(c, Dispatched(c, y, p, via, appends, delivery).0)
  {
    hide Vetted, Reply, Refusal;
    var y' := Dispatched(c, y, p, via, appends, delivery).0;
    if appends > 0 {
      assert y'.d.sent == y.d.sent + [Sent(p.frame, p.action, via, |y.d.audit| + 1)];
    }
  }

  lemma StashKeepsVetted(c: Config, y: System, id: string, p: Pending, pruneMs: nat)
    requires AllVetted(c, y) && Vetted(c, p.frame, y.d.number)
    ensures AllVetted(c, System(StashedFor(y.d, id, p, pruneMs).0, y.x))
  {
    hide Vetted;
  }

  lemma ProposalKeepsVetted(c: Config, y: System, p: Proposal)
    requires Sound(c.site.codec) && AllVetted(c, y) && SafeExecName(p.exec)
    ensures AllVetted(c, Proposed(c, y, p).0)
  {
    hide Vetted, OpenFrame, Seal, ToFrame, Policy.Evaluate, SafeExecName, Sound, Dispatched, AllVetted, StashedFor;
    NumberBound(c, y);
    var d' := WithAudit(y.d, PolicyDecision(c.session, p.action, p.exec, Events.Deny));
    VettedCarriesOver(c, y, System(d', y.x));
    if c.site.load(p.exec).Some? && c.site.argsOk(c.site.load(p.exec).value, p.args) && p.appends > 0 {
      var m := c.site.load(p.exec).value;
      var decision := PolicyOn(c, p.exec, m);
      var d1 := WithAudit(y.d, PolicyDecision(c.session, p.action, p.exec, Auditable(decision)));
      var d2 := d1.(number := SaturatingInc(y.d.number));
      VettedCarriesOver(c, y, System(d2, y.x));
      var frame := ToFrame(c.site.codec, Seal(c.site.codec, c.secret, RequestOf(c, p, m, d2.number)));
      if frame.Some? && (decision == Policy.Allowed || decision.NeedsApproval?) {
        SignedIsVetted(c, p, m, d2.number);
        if decision.NeedsApproval? {
          StashKeepsVetted(c, System(d2, y.x), p.approvalId, PendingOf(c, p, m, frame.value, decision.twoPerson), p.pruneMs);
        } else {
          DispatchKeepsVetted(c, System(d2, y.x), PendingOf(c, p, m, frame.value, false), AtOnce, p.appends - 1, p.delivery);
        }
      }
    }
  }

  lemma NumberBound(c: Config, y: System)
    requires AllVetted(c, y)
    ensures y.d.number <= U64_MAX
  {
  }

  lemma PendingIsVetted(c: Config, y: System, id: string)
    requires AllVetted(c, y) && id in y.d.pending
    ensures Vetted(c, y.d.pending[id].frame, y.d.number)
  {
  }

  lemma ApprovalKeepsVetted(c: Config, y: System, a: Approval)
    requires AllVetted(c, y)
    ensures AllVetted(c, ApprovalHandled(c, y, a).0)
  {
    hide Vetted, Dispatched, AllVetted;
    var pruned := Prune(y.d.pending, a.nowMs);
    NumberBound(c, y);
    VettedCarriesOver(c, y, System(y.d.(pending := pruned), y.x));
    if a.id in pruned {
      var p := pruned[a.id];
      PendingIsVetted(c, y, a.id);
      var d1 := y.d.(pending := Remove(pruned, a.id));
      var d2 := WithAudit(d1, ApprovalGranted(c.session, p.action));
      VettedCarriesOver(c, y, System(ConsumedIn(d1, a.id), y.x));
      VettedCarriesOver(c, y, System(ConsumedIn(d2, a.id), y.x));
      VettedCarriesOver(c, y, System(ConsumedIn(WithAudit(d1, Note("two-person rule unsatisfied")), a.id), y.x));
      VettedCarriesOver(c, y, System(d2, y.x));
      if a.appends > 0 {
        DispatchKeepsVetted(c, System(d2, y.x), p, OnApproval(a.id, a.digest, a.nowMs), a.appends - 1, a.delivery);
      }
    }
  }

  lemma ExchangeKeepsVetted(c: Config, y: System, t: Task)
    requires AllVetted(c, y)
    ensures AllVetted(c, System(Exchanged(c, y.d, t), y.x))
  {
    hide AllVetted, Exchange;
    NumberBound(c, y);
    VettedCarriesOver(c, y, System(Exchanged(c, y.d, t), y.x));
  }

  lemma ToolCallIsSafe(c: Config, t: Task)
    requires ToolCall(c, t).Some?
    ensures SafeExecName(ToolCall(c, t).value.exec)
  {
    hide SafeExecName;
  }

  lemma StepKeepsVetted(c: Config, y: System, step: Step)
    requires Sound(c.site.codec) && AllVetted(c, y)
    ensures AllVetted(c, Next(c, y, step))
  {
    hide AllVetted, Proposed, ApprovalHandled, SafeExecName, Sound, Refusal, ToolCall, Exchange;
    NumberBound(c, y);
    match step
    case RunTask(t) =>
      ExchangeKeepsVetted(c, y, t);
      if ToolCall(c, t).Some? {
        ToolCallIsSafe(c, t);
        ProposalKeepsVetted(c, System(Exchanged(c, y.d, t), y.x), ToolCall(c, t).value);
      }
    case Approve(a) => ApprovalKeepsVetted(c, y, a);
    case Reject(id) =>
      VettedCarriesOver(c, y, System(RejectionHandled(y.d, id).0, y.x));
    case Redeliver(frame, s) =>
      VettedCarriesOver(c, y, System(y.d, After(c.site, y.x, frame, s)));
  }

  lemma {:induction false} RunKeepsVetted(c: Config, y: System, steps: seq<Step>)
    requires Sound(c.site.codec) && AllVetted(c, y)
    ensures AllVetted(c, Run(c, y, steps))
  {
    hide AllVetted, Next, Sound;
    if steps != [] {
      RunKeepsVetted(c, y, steps[..|steps| - 1]);
      StepKeepsVetted(c, Run(c, y, steps[..|steps| - 1]), steps[|steps| - 1]);
    }
  }

  // ----- The only stages left ------------------------------------------------------------------

  /** The stages that depend on the executor's own state and surroundings. */
  const REMAINING: set<Execd.Stage> := {ReplayStage, NotReadOnly, RateLimited, SnapshotUnavailable, SandboxRejected}

  /** A vetted frame passes the gates both sides share, in every state of the executor. */
  lemma VettedPassesSharedGates(c: Config, x: Execd.State, frame: Bytes, number: nat, s: Surroundings)
    requires Vetted(c, frame, number) && x.key == Key(c)
    ensures Refusal(c.site, x, frame, s).Some? ==> StageOf(Refusal(c.site, x, frame, s).value) in REMAINING
  {
    hide OpenFrame, Policy.Evaluate, SafeExecName, Replay.Decide, RateLimit.Decide, Refusal;
    RefusalByBranch(c.site, x, frame, s);
  }

  lemma DispatchRefusedLate(c: Config, y: System, p: Pending, via: Via, appends: nat, delivery: Delivery)
    requires Vetted(c, p.frame, y.d.number) && y.x.key == Key(c)
    ensures var o := Dispatched(c, y, p, via, appends, delivery).1;
            o.DeniedAt? ==> o.stage.ByExecutor? && o.stage.stage in REMAINING
  {
    hide Vetted, After, Refusal;
    if delivery.Delivered? {
      VettedPassesSharedGates(c, y.x, p.frame, y.d.number, delivery.s);
    }
  }

  ghost function OutcomeOf(c: Config, y: System, step: Step): TaskOutcome {
    match step
    case RunTask(t) => TaskRun(c, y, t).1
    case Approve(a) => ApprovalHandled(c, y, a).1
    case Reject(id) => RejectionHandled(y.d, id).1
    case Redeliver(_, _) => Asked
  }

  ghost predicate LateRefusalOnly(o: TaskOutcome) {
    o.DeniedAt? && o.stage.ByExecutor? ==> o.stage.stage in REMAINING
  }

  lemma ProposalRefusedLate(c: Config, y: System, p: Proposal)
    requires Sound(c.site.codec) && AllVetted(c, y) && SafeExecName(p.exec)
    ensures LateRefusalOnly(Proposed(c, y, p).1)
  {
    hide Vetted, OpenFrame, Seal, ToFrame, Policy.Evaluate, SafeExecName, Sound, Dispatched;
    if c.site.load(p.exec).Some? && c.site.argsOk(c.site.load(p.exec).value, p.args) && p.appends > 0 {
      var m := c.site.load(p.exec).value;
      var decision := PolicyOn(c, p.exec, m);
      var d1 := WithAudit(y.d, PolicyDecision(c.session, p.action, p.exec, Auditable(decision)));
      var d2 := d1.(number := SaturatingInc(y.d.number));
      var frame := ToFrame(c.site.codec, Seal(c.site.codec, c.secret, RequestOf(c, p, m, d2.number)));
      if frame.Some? && decision == Policy.Allowed {
        SignedIsVetted(c, p, m, d2.number);
        DispatchRefusedLate(c, System(d2, y.x), PendingOf(c, p, m, frame.value, false), AtOnce, p.appends - 1, p.delivery);
      }
    }
  }

  lemma ApprovalRefusedLate(c: Config, y: System, a: Approval)
    requires AllVetted(c, y)
    ensures LateRefusalOnly(ApprovalHandled(c, y, a).1)
  {
    hide Vetted, Dispatched;
    var pruned := Prune(y.d.pending, a.nowMs);
    if a.id in pruned && a.appends > 0 {
      PendingIsVetted(c, y, a.id);
      var d2 := WithAudit(y.d.(pending := Remove(pruned, a.id)), ApprovalGranted(c.session, pruned[a.id].action));
      DispatchRefusedLate(c, System(d2, y.x), pruned[a.id], OnApproval(a.id, a.digest, a.nowMs), a.appends - 1, a.delivery);
    }
  }

  /**
   At any point of any run, when the executor refuses what the daemon sends, it is for
   replay, its mode ceiling, its rate limits, or want of a snapshot or sandbox: never
   for signature, bundle, arguments, denylist or allowlist.
   */
  lemma ExecutorRefusesOnlyLate(c: Config, ceiling: Mode, limits: RateLimit.RateLimits, clock: int, steps: seq<Step>, step: Step)
    requires Sound(c.site.codec)
    ensures LateRefusalOnly(OutcomeOf(c, Run(c, Start(c, ceiling, limits, clock), steps), step))
  {
    hide Sound, SafeExecName, Proposed, ApprovalHandled, LateRefusalOnly, Run, ToolCall, Ending, AllVetted, Exchanged;
    var y := Run(c, Start(c, ceiling, limits, clock), steps);
    StartIsVetted(c, ceiling, limits, clock);
    RunKeepsVetted(c, Start(c, ceiling, limits, clock), steps);
    OtherOutcomes(y.d);
    match step
    case RunTask(t) =>
      EndingIsNoRefusal(c, t);
      if ToolCall(c, t).Some? {
        ToolCallIsSafe(c, t);
        ExchangeKeepsVetted(c, y, t);
        ProposalRefusedLate(c, System(Exchanged(c, y.d, t), y.x), ToolCall(c, t).value);
      }
    case Approve(a) => ApprovalRefusedLate(c, y, a);
    case Reject(id) =>
    case Redeliver(frame, s) =>
  }

  lemma StartIsVetted(c: Config, ceiling: Mode, limits: RateLimit.RateLimits, clock: int)
    ensures AllVetted(c, Start(c, ceiling, limits, clock))
  {
  }

  lemma EndingIsNoRefusal(c: Config, t: Task)
    ensures LateRefusalOnly(Ending(c, t))
  {
    hide Exchange, Leaked;
  }

  lemma OtherOutcomes(d: Daemon.State)
    ensures LateRefusalOnly(Asked)
    ensures forall id :: LateRefusalOnly(RejectionHandled(d, id).1)
  {
  }
}

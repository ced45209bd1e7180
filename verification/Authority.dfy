/** Nothing runs but what policy let through at once or a human approved. */
module Authority {
  import opened Common
  import opened Events
  import opened Wire
  import opened Execd
  import opened Daemon
  import opened Protocol
  import Agreement
  import Binding
  import ExecdRuns
  import Policy
  import RateLimit
  import Replay

  /** The policy's decision on the request a frame opens to. */
  ghost predicate Ruled(c: Config, frame: Bytes, decision: Policy.Outcome) {
    match OpenFrame(c.site.codec, Agreement.Key(c), frame)
    case None => false
    case Some(r) => c.site.load(r.exec).Some? && PolicyOn(c, r.exec, c.site.load(r.exec).value) == decision
  }

  /** At once only what needs no approval; on approval only what one operator may approve. */
  ghost predicate SentRightly(c: Config, s: Sent) {
    Ruled(c, s.frame, if s.via.AtOnce? then Policy.Allowed else Policy.NeedsApproval(false))
  }

  ghost predicate DaemonInOrder(c: Config, d: Daemon.State) {
    && (forall id :: id in d.pending ==> Ruled(c, d.pending[id].frame, Policy.NeedsApproval(d.pending[id].twoPerson)))
    && (forall i :: 0 <= i < |d.sent| ==> SentRightly(c, d.sent[i]))
  }

  // ----- What the daemon sends ------------------------------------------------------------

  lemma OrderCarriesOver(c: Config, d: Daemon.State, d': Daemon.State)
    requires DaemonInOrder(c, d) && d'.sent == d.sent
    requires forall id :: id in d'.pending ==> id in d.pending && d'.pending[id] == d.pending[id]
    ensures DaemonInOrder(c, d')
  {
    hide Ruled;
  }

  lemma DispatchSendsOne(c: Config, y: System, p: Pending, via: Via, appends: nat, delivery: Delivery)
    requires appends > 0
    ensures Dispatched(c, y, p, via, appends, delivery).0.d.pending == y.d.pending
    ensures Dispatched(c, y, p, via, appends, delivery).0.d.sent
         == y.d.sent + [Sent(p.frame, p.action, via, |y.d.audit| + 1)]
  {
    hide After, Reply;
  }

  lemma DispatchKeepsRules(c: Config, y: System, p: Pending, via: Via, appends: nat, delivery: Delivery)
    requires DaemonInOrder(c, y.d)
    requires Ruled(c, p.frame, if via.AtOnce? then Policy.Allowed else Policy.NeedsApproval(false))
    ensures DaemonInOrder(c, Dispatched(c, y, p, via, appends, delivery).0.d)
  {
    hide Ruled, Dispatched;
    if appends > 0 {
      DispatchSendsOne(c, y, p, via, appends, delivery);
    } else {
      NothingLeft(c, y, p, via, delivery);
    }
  }

  lemma StashKeepsRules(c: Config, d: Daemon.State, id: string, p: Pending, pruneMs: nat)
    requires DaemonInOrder(c, d) && Ruled(c, p.frame, Policy.NeedsApproval(p.twoPerson))
    ensures DaemonInOrder(c, StashedFor(d, id, p, pruneMs).0)
  {
    hide Ruled;
  }

  lemma SignedIsRuled(c: Config, p: Proposal, m: Manifest, number: nat)
    requires Sound(c.site.codec) && c.site.load(p.exec) == Some(m)
    requires ToFrame(c.site.codec, Seal(c.site.codec, c.secret, RequestOf(c, p, m, number))).Some?
    ensures var frame := ToFrame(c.site.codec, Seal(c.site.codec, c.secret, RequestOf(c, p, m, number))).value;
            Ruled(c, frame, PolicyOn(c, p.exec, m))
  {
    hide OpenFrame, Seal, ToFrame, Policy.Evaluate, Sound;
    OpenUndoesSeal(c.site.codec, c.secret, RequestOf(c, p, m, number));
  }

  lemma ProposalKeepsRules(c: Config, y: System, p: Proposal)
    requires Sound(c.site.codec) && DaemonInOrder(c, y.d)
    ensures DaemonInOrder(c, Proposed(c, y, p).0.d)
  {
    hide Ruled, Seal, ToFrame, Policy.Evaluate, Sound, Dispatched, DaemonInOrder, StashedFor;
    OrderCarriesOver(c, y.d, WithAudit(y.d, PolicyDecision(c.session, p.action, p.exec, Events.Deny)));
    if c.site.load(p.exec).Some? && p.appends > 0 {
      var m := c.site.load(p.exec).value;
      var decision := PolicyOn(c, p.exec, m);
      var d1 := WithAudit(y.d, PolicyDecision(c.session, p.action, p.exec, Auditable(decision)));
      var d2 := d1.(number := SaturatingInc(y.d.number));
      OrderCarriesOver(c, y.d, d2);
      var frame := ToFrame(c.site.codec, Seal(c.site.codec, c.secret, RequestOf(c, p, m, d2.number)));
      if frame.Some? {
        SignedIsRuled(c, p, m, d2.number);
        if decision.NeedsApproval? {
          StashKeepsRules(c, d2, p.approvalId, PendingOf(c, p, m, frame.value, decision.twoPerson), p.pruneMs);
        } else if decision == Policy.Allowed {
          DispatchKeepsRules(c, System(d2, y.x), PendingOf(c, p, m, frame.value, false), AtOnce, p.appends - 1, p.delivery);
        }
      }
    }
  }

  lemma PendingIsRuled(c: Config, d: Daemon.State, id: string)
    requires DaemonInOrder(c, d) && id in d.pending
    ensures Ruled(c, d.pending[id].frame, Policy.NeedsApproval(d.pending[id].twoPerson))
  {
  }

  lemma ApprovalKeepsRules(c: Config, y: System, a: Approval)
    requires DaemonInOrder(c, y.d)
    ensures DaemonInOrder(c, ApprovalHandled(c, y, a).0.d)
  {
    hide Ruled, Dispatched, DaemonInOrder;
    var pruned := Prune(y.d.pending, a.nowMs);
    OrderCarriesOver(c, y.d, y.d.(pending := pruned));
    if a.id in pruned {
      var p := pruned[a.id];
      PendingIsRuled(c, y.d, a.id);
      var d1 := y.d.(pending := Remove(pruned, a.id));
      var d2 := WithAudit(d1, ApprovalGranted(c.session, p.action));
      OrderCarriesOver(c, y.d, ConsumedIn(d1, a.id));
      OrderCarriesOver(c, y.d, ConsumedIn(d2, a.id));
      OrderCarriesOver(c, y.d, ConsumedIn(WithAudit(d1, Note("two-person rule unsatisfied")), a.id));
      OrderCarriesOver(c, y.d, d2);
      if a.appends > 0 && !p.twoPerson {
        DispatchKeepsRules(c, System(d2, y.x), p, OnApproval(a.id, a.digest, a.nowMs), a.appends - 1, a.delivery);
      }
    }
  }

  lemma StepKeepsRules(c: Config, y: System, step: Step)
    requires Sound(c.site.codec) && DaemonInOrder(c, y.d)
    ensures DaemonInOrder(c, Next(c, y, step).d)
  {
    hide DaemonInOrder, Proposed, ApprovalHandled, Sound, ToolCall, Exchange;
    match step
    case RunTask(t) =>
      OrderCarriesOver(c, y.d, Exchanged(c, y.d, t));
      if ToolCall(c, t).Some? {
        ProposalKeepsRules(c, System(Exchanged(c, y.d, t), y.x), ToolCall(c, t).value);
      }
    case Approve(a) => ApprovalKeepsRules(c, y, a);
    case Reject(id) => OrderCarriesOver(c, y.d, RejectionHandled(y.d, id).0);
    case Redeliver(frame, s) =>
  }

  // ----- What reaches the runner -------------------------------------------------------------

  /** If the frame opens at all, it opens to a request that the daemon has sent. */
  ghost predicate FromSent(c: Config, d: Daemon.State, frame: Bytes) {
    OpenFrame(c.site.codec, Agreement.Key(c), frame).Some? ==>
      exists i :: 0 <= i < |d.sent|
        && OpenFrame(c.site.codec, Agreement.Key(c), d.sent[i].frame) == OpenFrame(c.site.codec, Agreement.Key(c), frame)
  }

  /**
   Nobody else signs with the session key, and pending frames stay with the daemon:
   whatever message verifies under the key in a redelivered frame, the daemon has sent.
   */
  ghost predicate NoForgeries(c: Config, y: System, steps: seq<Step>) {
    forall k :: 0 <= k < |steps| && steps[k].Redeliver? ==> NotForged(c, Run(c, y, steps[..k]).d, steps[k].frame)
  }

  ghost predicate NotForged(c: Config, d: Daemon.State, frame: Bytes) {
    forall e: Envelope ::
      (c.site.codec.decodeEnvelope(frame) == Some(e)
       && c.site.codec.verify(Agreement.Key(c), e.request, e.signature)) ==> WasSent(c, d, e.request)
  }

  /** The message is that of a frame the daemon sent. */
  ghost predicate WasSent(c: Config, d: Daemon.State, message: Bytes) {
    exists i :: 0 <= i < |d.sent| && MessageIn(c.site.codec, d.sent[i].frame) == Some(message)
  }

  /** What opens is a message that verifies, so an unforged frame opens to a request that was sent. */
  lemma UnforgedIsFromSent(c: Config, d: Daemon.State, frame: Bytes)
    requires DaemonInOrder(c, d) && NotForged(c, d, frame)
    ensures FromSent(c, d, frame)
  {
    hide Policy.Evaluate;
    var key := Agreement.Key(c);
    if OpenFrame(c.site.codec, key, frame).Some? {
      var r := OpenFrame(c.site.codec, key, frame).value;
      OpensIffSigned(c.site.codec, key, frame, r);
      var message := MessageIn(c.site.codec, frame).value;
      var i :| 0 <= i < |d.sent| && MessageIn(c.site.codec, d.sent[i].frame) == Some(message);
      assert SentRightly(c, d.sent[i]);
      var q := OpenFrame(c.site.codec, key, d.sent[i].frame).value;
      OpensIffSigned(c.site.codec, key, d.sent[i].frame, q);
      assert OpenFrame(c.site.codec, key, d.sent[i].frame) == OpenFrame(c.site.codec, key, frame);
    }
  }

  /** The call runs the request of this send. */
  ghost predicate RunsSend(c: Config, call: RunnerCall, s: Sent) {
    Binding.RunsItsFrame(c.site, Agreement.Key(c), call.(frame := s.frame))
  }

  ghost predicate RunsSome(c: Config, call: RunnerCall, sent: seq<Sent>) {
    exists i :: 0 <= i < |sent| && RunsSend(c, call, sent[i])
  }

  ghost predicate ExecutorInOrder(c: Config, y: System) {
    && y.x.key == Agreement.Key(c)
    && forall j :: 0 <= j < |y.x.runs| ==> RunsSome(c, y.x.runs[j], y.d.sent)
  }

  /** The step handed the executor nothing, or a frame that by now is sent. */
  ghost predicate HandsSent(c: Config, y: System, y': System) {
    && y.d.sent <= y'.d.sent
    && (y'.x == y.x
        || exists frame: Bytes, s: Surroundings :: y'.x == After(c.site, y.x, frame, s) && FromSent(c, y'.d, frame))
  }

  lemma DispatchHandsSent(c: Config, y: System, p: Pending, via: Via, appends: nat, delivery: Delivery)
    ensures HandsSent(c, y, Dispatched(c, y, p, via, appends, delivery).0)
  {
    hide After, Reply, Recorded, OpenFrame;
    var y' := Dispatched(c, y, p, via, appends, delivery).0;
    if appends > 0 {
      DispatchSendsOne(c, y, p, via, appends, delivery);
      assert y'.d.sent[|y.d.sent|].frame == p.frame;
      assert FromSent(c, y'.d, p.frame);
      if !delivery.Lost? {
        assert y'.x == After(c.site, y.x, p.frame, delivery.s);
      }
    }
  }

  lemma ProposalHandsSent(c: Config, y: System, p: Proposal)
    ensures HandsSent(c, y, Proposed(c, y, p).0)
  {
    hide After, Reply, Recorded, Dispatched, Policy.Evaluate, Seal, ToFrame, FromSent;
    if c.site.load(p.exec).Some? {
      var m := c.site.load(p.exec).value;
      var d1 := WithAudit(y.d, PolicyDecision(c.session, p.action, p.exec, Auditable(PolicyOn(c, p.exec, m))));
      var d2 := d1.(number := SaturatingInc(y.d.number));
      var frame := ToFrame(c.site.codec, Seal(c.site.codec, c.secret, RequestOf(c, p, m, d2.number)));
      if frame.Some? && p.appends > 0 {
        DispatchHandsSent(c, System(d2, y.x), PendingOf(c, p, m, frame.value, false), AtOnce, p.appends - 1, p.delivery);
      }
    }
  }

  lemma StepHandsSent(c: Config, y: System, step: Step)
    requires step.Redeliver? ==> FromSent(c, y.d, step.frame)
    ensures HandsSent(c, y, Next(c, y, step))
  {
    hide After, Dispatched, Proposed, Prune, Remove, FromSent, ToolCall, Exchange;
    match step
    case RunTask(t) =>
      if ToolCall(c, t).Some? {
        ProposalHandsSent(c, System(Exchanged(c, y.d, t), y.x), ToolCall(c, t).value);
      }
    case Approve(a) =>
      var pruned := Prune(y.d.pending, a.nowMs);
      if a.id in pruned && a.appends > 1 {
        var d1 := y.d.(pending := Remove(pruned, a.id));
        DispatchHandsSent(c, System(WithAudit(d1, ApprovalGranted(c.session, pruned[a.id].action)), y.x),
                          pruned[a.id], OnApproval(a.id, a.digest, a.nowMs), a.appends - 1, a.delivery);
      }
    case Reject(id) =>
    case Redeliver(frame, s) =>
      assert Next(c, y, step).x == After(c.site, y.x, frame, s);
  }

  lemma CallRunsSend(c: Config, d: Daemon.State, x: Execd.State, frame: Bytes, s: Surroundings)
    requires x.key == Agreement.Key(c) && FromSent(c, d, frame)
    requires ExecdRuns.AllGatesPassed(c.site, x, frame, s)
    ensures RunsSome(c, CallOf(c.site, x, frame, s), d.sent)
  {
    hide OpenFrame, SafeExecName, Policy.Evaluate, Replay.Decide, RateLimit.Decide;
    Binding.CallRunsItsFrame(c.site, x, frame, s);
    var i :| 0 <= i < |d.sent|
      && OpenFrame(c.site.codec, Agreement.Key(c), d.sent[i].frame) == OpenFrame(c.site.codec, Agreement.Key(c), frame);
    assert RunsSend(c, CallOf(c.site, x, frame, s), d.sent[i]);
  }

  lemma MoreSends(c: Config, call: RunnerCall, sent: seq<Sent>, sent': seq<Sent>)
    requires sent <= sent' && RunsSome(c, call, sent)
    ensures RunsSome(c, call, sent')
  {
    hide RunsSend;
    var i :| 0 <= i < |sent| && RunsSend(c, call, sent[i]);
    assert sent'[i] == sent[i];
  }

  lemma HandKeepsExecutorInOrder(c: Config, y: System, y': System)
    requires ExecutorInOrder(c, y) && HandsSent(c, y, y')
    ensures ExecutorInOrder(c, y')
  {
    hide RunsSome, FromSent, ExecdRuns.AllGatesPassed, Refusal, CallOf;
    forall j | 0 <= j < |y.x.runs| ensures RunsSome(c, y.x.runs[j], y'.d.sent) {
      MoreSends(c, y.x.runs[j], y.d.sent, y'.d.sent);
    }
    if y'.x != y.x {
      var frame: Bytes, s: Surroundings :| y'.x == After(c.site, y.x, frame, s) && FromSent(c, y'.d, frame);
      ExecdRuns.RunIffAllGates(c.site, y.x, frame, s);
      if ExecdRuns.AllGatesPassed(c.site, y.x, frame, s) {
        CallRunsSend(c, y'.d, y.x, frame, s);
      }
    }
  }

  lemma {:induction false} RunKeepsAuthority(c: Config, y: System, steps: seq<Step>)
    requires Sound(c.site.codec) && DaemonInOrder(c, y.d) && ExecutorInOrder(c, y) && NoForgeries(c, y, steps)
    ensures DaemonInOrder(c, Run(c, y, steps).d) && ExecutorInOrder(c, Run(c, y, steps))
  {
    hide DaemonInOrder, ExecutorInOrder, FromSent, NotForged, HandsSent, Next, Sound;
    if steps != [] {
      var n := |steps| - 1;
      assert forall k :: 0 <= k < n ==> steps[..n][..k] == steps[..k];
      assert steps[..n] == steps[..|steps| - 1];
      RunKeepsAuthority(c, y, steps[..n]);
      var before := Run(c, y, steps[..n]);
      StepKeepsRules(c, before, steps[n]);
      if steps[n].Redeliver? {
        UnforgedIsFromSent(c, before.d, steps[n].frame);
      }
      StepHandsSent(c, before, steps[n]);
      HandKeepsExecutorInOrder(c, before, Next(c, before, steps[n]));
    }
  }

  // ----- Nothing runs unapproved -----------------------------------------------------------------

  /** The call's action went out on an approval. */
  ghost predicate RunsApproved(c: Config, call: RunnerCall, sent: seq<Sent>) {
    exists i :: 0 <= i < |sent| && sent[i].via.OnApproval? && RunsSend(c, call, sent[i])
  }

  lemma RulingOfCall(c: Config, call: RunnerCall, s: Sent)
    requires SentRightly(c, s) && RunsSend(c, call, s)
    ensures PolicyOn(c, call.exec, call.manifest) == if s.via.AtOnce? then Policy.Allowed else Policy.NeedsApproval(false)
  {
    hide OpenFrame, Policy.Evaluate;
  }

  /**
   Over every run in which nobody forges a frame: each runner call is one that policy
   allows outright, or one a human approved; in interactive mode every call was approved;
   and a bundle of critical risk never runs.
   */
  lemma NothingRunsUnapproved(c: Config, ceiling: Mode, limits: RateLimit.RateLimits, clock: int, steps: seq<Step>, j: nat)
    requires Sound(c.site.codec) && NoForgeries(c, Start(c, ceiling, limits, clock), steps)
    requires j < |Run(c, Start(c, ceiling, limits, clock), steps).x.runs|
    ensures var y := Run(c, Start(c, ceiling, limits, clock), steps);
            var call := y.x.runs[j];
            && (PolicyOn(c, call.exec, call.manifest) == Policy.Allowed || RunsApproved(c, call, y.d.sent))
            && (c.mode == Interactive ==> RunsApproved(c, call, y.d.sent))
            && call.manifest.risk != Critical
  {
    hide Run, RunsSend, SentRightly, NoForgeries, Policy.Evaluate, Sound;
    var start := Start(c, ceiling, limits, clock);
    RunKeepsAuthority(c, start, steps);
    var y := Run(c, start, steps);
    var call := y.x.runs[j];
    assert RunsSome(c, call, y.d.sent);
    var i :| 0 <= i < |y.d.sent| && RunsSend(c, call, y.d.sent[i]);
    RulingOfCall(c, call, y.d.sent[i]);
    Policy.EvaluateMeaning(c.site.engine, Question(c.profile, c.mode, call.exec, call.manifest));
  }
}

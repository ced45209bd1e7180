/** Whole runs of daemon and executor together: atomic steps in any order, with any frame redelivered at any time. */
module Protocol {
  import opened Common
  import opened Events
  import opened Wire
  import opened Execd
  import opened Daemon
  import ExecdRuns
  import Policy
  import Replay
  import RateLimit

  /** One atomic step; a redelivery hands the executor any frame at all. */
  datatype Step =
    | RunTask(t: Task)
    | Approve(a: Approval)
    | Reject(id: string)
    | Redeliver(frame: Bytes, s: Surroundings)

  ghost function Next(c: Config, y: System, step: Step): System {
    match step
    case RunTask(t) => TaskRun(c, y, t).0
    case Approve(a) => ApprovalHandled(c, y, a).0
    case Reject(id) => System(RejectionHandled(y.d, id).0, y.x)
    case Redeliver(frame, s) => System(y.d, After(c.site, y.x, frame, s))
  }

  ghost function Run(c: Config, y: System, steps: seq<Step>): System {
    if steps == [] then y else
      Next(c, Run(c, y, steps[..|steps| - 1]), steps[|steps| - 1])
  }

  /** A fresh session and a fresh executor that knows its key. */
  ghost function Start(c: Config, ceiling: Mode, limits: RateLimit.RateLimits, clock: int): System {
    System(Daemon.State.State(0, map[], [], [], []),
           Execd.State.State(c.site.codec.publicKey(c.secret), ceiling, limits, [], [], clock, []))
  }

  // ----- What a step can do to the executor -------------------------------------------

  /** A step hands the executor at most one frame. */
  ghost predicate HandsAtMostOne(c: Config, x: Execd.State, x': Execd.State) {
    x' == x || exists frame: Bytes, s: Surroundings :: x' == After(c.site, x, frame, s)
  }

  lemma DispatchHandsAtMostOne(c: Config, y: System, p: Pending, via: Via, appends: nat, delivery: Delivery)
    ensures HandsAtMostOne(c, y.x, Dispatched(c, y, p, via, appends, delivery).0.x)
  {
    hide After, Reply, Recorded;
    if appends > 0 && !delivery.Lost? {
      assert Dispatched(c, y, p, via, appends, delivery).0.x == After(c.site, y.x, p.frame, delivery.s);
    }
  }

  lemma StepHandsAtMostOne(c: Config, y: System, step: Step)
    ensures HandsAtMostOne(c, y.x, Next(c, y, step).x)
  {
    hide After, Reply, Recorded, Dispatched, Policy.Evaluate, Seal, ToFrame, Prune, Remove, SafeExecName;
    match step
    case RunTask(t) =>
      if ToolCall(c, t).Some? {
        ProposalHandsAtMostOne(c, System(Exchanged(c, y.d, t), y.x), ToolCall(c, t).value);
      }
    case Approve(a) =>
      var pruned := Prune(y.d.pending, a.nowMs);
      if a.id in pruned && a.appends > 1 {
        var d1 := y.d.(pending := Remove(pruned, a.id));
        DispatchHandsAtMostOne(c, System(WithAudit(d1, ApprovalGranted(c.session, pruned[a.id].action)), y.x),
                               pruned[a.id], OnApproval(a.id, a.digest, a.nowMs), a.appends - 1, a.delivery);
      }
    case Reject(id) =>
    case Redeliver(frame, s) =>
  }

  lemma ProposalHandsAtMostOne(c: Config, y: System, p: Proposal)
    ensures HandsAtMostOne(c, y.x, Proposed(c, y, p).0.x)
  {
    hide After, Reply, Recorded, Dispatched, Policy.Evaluate, Seal, ToFrame;
    if c.site.load(p.exec).Some? {
      var m := c.site.load(p.exec).value;
      var d1 := WithAudit(y.d, PolicyDecision(c.session, p.action, p.exec, Auditable(PolicyOn(c, p.exec, m))));
      var d2 := d1.(number := SaturatingInc(y.d.number));
      var frame := ToFrame(c.site.codec, Seal(c.site.codec, c.secret, RequestOf(c, p, m, d2.number)));
      if frame.Some? && p.appends > 0 {
        DispatchHandsAtMostOne(c, System(d2, y.x), PendingOf(c, p, m, frame.value, false), AtOnce, p.appends - 1, p.delivery);
      }
    }
  }

  // ----- Each signed frame runs at most once ---------------------------------------------

  lemma {:induction false} RunStaysOrdered(c: Config, y: System, steps: seq<Step>)
    requires ExecdRuns.Ordered(c.site, y.x)
    ensures ExecdRuns.Ordered(c.site, Run(c, y, steps).x)
  {
    hide Next, ExecdRuns.Ordered, After;
    if steps != [] {
      var n := |steps| - 1;
      RunStaysOrdered(c, y, steps[..n]);
      var before := Run(c, y, steps[..n]);
      StepHandsAtMostOne(c, before, steps[n]);
      var x' := Next(c, before, steps[n]).x;
      if x' != before.x {
        var frame: Bytes, s: Surroundings :| x' == After(c.site, before.x, frame, s);
        ExecdRuns.StepKeepsOrdered(c.site, before.x, frame, s);
      }
    }
  }

  /**
   In every interleaving of proposals, approvals, rejections and redeliveries, the
   numbers a session runs strictly increase and no frame reaches the runner twice.
   */
  lemma EachFrameRunsAtMostOnce(c: Config, ceiling: Mode, limits: RateLimit.RateLimits, clock: int, steps: seq<Step>)
    ensures var runs := Run(c, Start(c, ceiling, limits, clock), steps).x.runs;
            && ExecdRuns.RunsIncrease(runs)
            && forall i, j :: 0 <= i < j < |runs| ==> runs[i].frame != runs[j].frame
  {
    hide Run;
    var y := Start(c, ceiling, limits, clock);
    RunStaysOrdered(c, y, steps);
    ExecdRuns.OrderedFramesDiffer(c.site, Run(c, y, steps).x);
  }
}

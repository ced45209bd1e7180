/** Approving out of signing order: what an admission of a later number does to a frame that still waits. */
module Overtaking {
  import opened Common
  import opened Events
  import opened Wire
  import opened Execd
  import opened Daemon
  import opened Protocol
  import opened Agreement
  import Digest
  import ApprovalTable
  import ExecdRuns
  import Policy
  import RateLimit
  import Replay

  ghost function Opened(c: Config, frame: Bytes): ExecRequest {
    OpenFrame(c.site.codec, Key(c), frame).GetOr(
      ExecRequest([], UNKNOWN_ACTION, 0, [], 0, "", ReadOnly, "", map[], Low, true))
  }

  /** The executor has already admitted this frame's number, or a later one, of its session. */
  ghost predicate Overtaken(c: Config, x: Execd.State, frame: Bytes) {
    Replay.Superseded(x.admissions, AttemptOf(Opened(c, frame)))
  }

  /** The approval finds a live entry, echoes its digest, may go on record, and its frame arrives. */
  ghost predicate GoesThrough(y: System, a: Approval) {
    && a.id in Prune(y.d.pending, a.nowMs)
    && y.d.pending[a.id].digest == a.digest && !y.d.pending[a.id].twoPerson
    && a.appends >= 3 && a.delivery.Delivered?
  }

  /**
   An otherwise valid approval is refused at the replay stage, and runs nothing, if and
   only if the executor has admitted the frame's number or a later one of the session,
   or remembers its nonce.
   */
  lemma ApprovalRefusedIffOvertaken(c: Config, y: System, a: Approval)
    requires AllVetted(c, y) && GoesThrough(y, a)
    ensures ApprovalHandled(c, y, a).1 == DeniedAt(ByExecutor(ReplayStage))
       <==> (Overtaken(c, y.x, y.d.pending[a.id].frame)
             || Replay.HasNonce(Replay.Recent(y.x.admissions), Opened(c, y.d.pending[a.id].frame).nonce))
    ensures ApprovalHandled(c, y, a).1 == DeniedAt(ByExecutor(ReplayStage)) ==>
              ApprovalHandled(c, y, a).0.x.runs == y.x.runs
  {
    hide Vetted, ApprovalHandled, Reply, Replay.HasNonce, Overtaken;
    var frame := y.d.pending[a.id].frame;
    PendingIsVetted(c, y, a.id);
    ReplayVerdict(c, y.x, frame, y.d.number, a.delivery.s);
    ApprovalReply(c, y, a);
  }

  /** A vetted frame is refused at the replay stage exactly when it is overtaken or its nonce is remembered. */
  lemma ReplayVerdict(c: Config, x: Execd.State, frame: Bytes, number: nat, s: Surroundings)
    requires x.key == Key(c) && Vetted(c, frame, number)
    ensures Reply(c.site, x, frame, s).outcome == Rejected(ReplayStage)
       <==> Overtaken(c, x, frame) || Replay.HasNonce(Replay.Recent(x.admissions), Opened(c, frame).nonce)
    ensures Reply(c.site, x, frame, s).outcome == Rejected(ReplayStage) ==> After(c.site, x, frame, s).runs == x.runs
  {
    hide OpenFrame, Policy.Evaluate, SafeExecName, RateLimit.Decide, Refusal, Replay.Superseded, Replay.HasNonce;
    RefusalByBranch(c.site, x, frame, s);
  }

  /** What an approval that goes through comes to. */
  lemma ApprovalReply(c: Config, y: System, a: Approval)
    requires GoesThrough(y, a)
    ensures var frame := y.d.pending[a.id].frame;
            var reply := Reply(c.site, y.x, frame, a.delivery.s).outcome;
            && ApprovalHandled(c, y, a).0.x == After(c.site, y.x, frame, a.delivery.s)
            && ApprovalHandled(c, y, a).1 == match reply
               case Completed(result, _) =>
                 if a.appends == 3 && reply.snapshot.Some? then Failed(AuditFailure)
                 else Executed(y.d.pending[a.id].exec, result)
               case Rejected(stage) => DeniedAt(ByExecutor(stage))
  {
    hide Reply, After;
  }

  lemma {:induction false} AdmissionsGrow(c: Config, y: System, steps: seq<Step>)
    ensures y.x.admissions <= Run(c, y, steps).x.admissions
  {
    hide Next;
    if steps != [] {
      var n := |steps| - 1;
      AdmissionsGrow(c, y, steps[..n]);
      var before := Run(c, y, steps[..n]);
      StepHandsAtMostOne(c, before, steps[n]);
      OneHandGrows(c, before.x, Next(c, before, steps[n]).x);
    }
  }

  lemma OneHandGrows(c: Config, x: Execd.State, x': Execd.State)
    requires HandsAtMostOne(c, x, x')
    ensures x.admissions <= x'.admissions
  {
    hide Refusal;
  }

  /** Once overtaken, a frame stays so: whatever happens later, approving it will be refused. */
  lemma OvertakenForGood(c: Config, y: System, steps: seq<Step>, frame: Bytes)
    requires Overtaken(c, y.x, frame)
    ensures Overtaken(c, Run(c, y, steps).x, frame)
  {
    hide OpenFrame, Run;
    AdmissionsGrow(c, y, steps);
    var a := AttemptOf(Opened(c, frame));
    var h, h' := y.x.admissions, Run(c, y, steps).x.admissions;
    var i :| 0 <= i < |h| && h[i].session == a.session && a.number <= h[i].number;
    assert h'[i] == h[i];
  }

  lemma AdmittedMeansFresh(site: Site, x: Execd.State, frame: Bytes, s: Surroundings)
    requires After(site, x, frame, s).admissions != x.admissions
    ensures GotPast(Refusal(site, x, frame, s), FreshnessGate)
  {
    hide Refusal;
  }

  // ----- Any step that admits a later number --------------------------------------------------

  /** The number under which a waiting action was signed. */
  ghost function NumberOf(c: Config, d: Daemon.State, id: string): nat
    requires id in d.pending
  {
    Opened(c, d.pending[id].frame).number
  }

  /** The step can hand the executor only a number of the session not below that of the waiting action. */
  ghost predicate IsLater(c: Config, d: Daemon.State, step: Step, id: string)
    requires id in d.pending
  {
    match step
    case RunTask(_) => true
    case Approve(a) => a.id in d.pending && NumberOf(c, d, id) <= NumberOf(c, d, a.id)
    case Reject(_) => true
    case Redeliver(frame, _) => Opened(c, frame).session == c.session && NumberOf(c, d, id) <= Opened(c, frame).number
  }

  /** A frame admitted under the shared key overtakes every frame of the session with a number not above its own. */
  lemma AdmittedOvertakes(c: Config, x: Execd.State, later: Bytes, s: Surroundings, earlier: Bytes)
    requires x.key == Key(c) && After(c.site, x, later, s).admissions != x.admissions
    requires Opened(c, earlier).session == Opened(c, later).session
    requires Opened(c, earlier).number <= Opened(c, later).number
    ensures Overtaken(c, After(c.site, x, later, s), earlier)
  {
    hide OpenFrame, Refusal, SafeExecName, Policy.Evaluate;
    AdmittedMeansFresh(c.site, x, later, s);
    RefusalByBranch(c.site, x, later, s);
    var x' := After(c.site, x, later, s);
    assert x'.admissions[|x.admissions|] == AttemptOf(Opened(c, later));
  }

  lemma PendingIsOfSession(c: Config, y: System, id: string)
    requires AllVetted(c, y) && id in y.d.pending
    ensures Opened(c, y.d.pending[id].frame).session == c.session && NumberOf(c, y.d, id) <= y.d.number
  {
    hide OpenFrame, SafeExecName, Policy.Evaluate;
    PendingIsVetted(c, y, id);
  }

  /** A proposal that reaches the executor carries a new number. */
  lemma ProposalOvertakes(c: Config, y: System, p: Proposal, id: string)
    requires Sound(c.site.codec) && AllVetted(c, y) && SafeExecName(p.exec) && id in y.d.pending
    requires Proposed(c, y, p).0.x.admissions != y.x.admissions
    ensures Overtaken(c, Proposed(c, y, p).0.x, y.d.pending[id].frame)
  {
    hide OpenFrame, Seal, ToFrame, Policy.Evaluate, SafeExecName, Sound, Recorded, After, Reply, Vetted, StashedFor, Overtaken;
    var m := c.site.load(p.exec).value;
    var number := SaturatingInc(y.d.number);
    var frame := ToFrame(c.site.codec, Seal(c.site.codec, c.secret, RequestOf(c, p, m, number))).value;
    SignedIsVetted(c, p, m, number);
    PendingIsOfSession(c, y, id);
    Agreement.NumberBound(c, y);
    AdmittedOvertakes(c, y.x, frame, p.delivery.s, y.d.pending[id].frame);
  }

  /** An approval hands over the stored frame, or nothing. */
  lemma ApprovalHands(c: Config, y: System, a: Approval)
    ensures var y' := ApprovalHandled(c, y, a).0;
            || y'.x == y.x
            || (a.id in y.d.pending && !a.delivery.Lost?
                && y'.x == After(c.site, y.x, y.d.pending[a.id].frame, a.delivery.s))
  {
    hide After, Reply, Recorded;
  }

  /** Whatever step admits it, a later number overtakes every waiting frame signed before it. */
  lemma LaterAdmissionOvertakes(c: Config, y: System, step: Step, id: string)
    requires Sound(c.site.codec) && AllVetted(c, y) && id in y.d.pending && IsLater(c, y.d, step, id)
    requires Next(c, y, step).x.admissions != y.x.admissions
    ensures Overtaken(c, Next(c, y, step).x, y.d.pending[id].frame)
  {
    hide OpenFrame, SafeExecName, Sound, After, Proposed, ApprovalHandled, AllVetted, Overtaken, ToolCall, Exchange;
    PendingIsOfSession(c, y, id);
    SharedKey(c, y);
    match step
    case RunTask(t) =>
      ToolCallIsSafe(c, t);
      ExchangeKeepsVetted(c, y, t);
      ProposalOvertakes(c, System(Exchanged(c, y.d, t), y.x), ToolCall(c, t).value, id);
    case Approve(a) =>
      ApprovalHands(c, y, a);
      PendingIsOfSession(c, y, a.id);
      AdmittedOvertakes(c, y.x, y.d.pending[a.id].frame, a.delivery.s, y.d.pending[id].frame);
    case Redeliver(frame, s) =>
      AdmittedOvertakes(c, y.x, frame, s, y.d.pending[id].frame);
  }

  lemma SharedKey(c: Config, y: System)
    requires AllVetted(c, y)
    ensures y.x.key == Key(c)
  {
  }

  // ----- An overtaken frame never runs ------------------------------------------------------------

  /** An overtaken frame is no more approved than run. */
  lemma OvertakenIsRefused(c: Config, y: System, a: Approval)
    requires AllVetted(c, y) && GoesThrough(y, a) && Overtaken(c, y.x, y.d.pending[a.id].frame)
    ensures ApprovalHandled(c, y, a).1 == DeniedAt(ByExecutor(ReplayStage))
    ensures ApprovalHandled(c, y, a).0.x.runs == y.x.runs
  {
    hide AllVetted, GoesThrough, Overtaken, ApprovalHandled, Replay.HasNonce;
    ApprovalRefusedIffOvertaken(c, y, a);
  }

  lemma OvertakenDoesNotRun(c: Config, x: Execd.State, x': Execd.State, frame: Bytes)
    requires x.key == Key(c) && Overtaken(c, x, frame) && HandsAtMostOne(c, x, x')
    ensures x'.key == x.key && x.runs <= x'.runs
    ensures forall j :: |x.runs| <= j < |x'.runs| ==> x'.runs[j].frame != frame
  {
    hide OpenFrame, Refusal, SafeExecName, Policy.Evaluate, Replay.Superseded, RateLimit.Decide;
    if x' != x {
      var f: Bytes, s: Surroundings :| x' == After(c.site, x, f, s);
      ExecdRuns.RunIffAllGates(c.site, x, f, s);
    }
  }

  /** Neither by approval nor by redelivery does an overtaken frame reach the runner again. */
  lemma {:induction false} OvertakenNeverRuns(c: Config, y: System, steps: seq<Step>, frame: Bytes)
    requires y.x.key == Key(c) && Overtaken(c, y.x, frame)
    ensures var x' := Run(c, y, steps).x;
            && x'.key == y.x.key && y.x.runs <= x'.runs
            && forall j :: |y.x.runs| <= j < |x'.runs| ==> x'.runs[j].frame != frame
  {
    hide Next, Overtaken, HandsAtMostOne;
    if steps != [] {
      var n := |steps| - 1;
      OvertakenNeverRuns(c, y, steps[..n], frame);
      OvertakenForGood(c, y, steps[..n], frame);
      var before := Run(c, y, steps[..n]);
      StepHandsAtMostOne(c, before, steps[n]);
      OvertakenDoesNotRun(c, before.x, Next(c, before, steps[n]).x, frame);
    }
  }

  /**
   From the start of a session: once any step has made the executor admit a number not
   below that of a waiting action, then after every continuation each approval of that
   action's frame is refused at the replay stage and runs nothing, and the frame never
   reaches the runner again by any other way.
   */
  lemma OutOfOrderNeverRuns(c: Config, ceiling: Mode, limits: RateLimit.RateLimits, clock: int,
                            before: seq<Step>, step: Step, after: seq<Step>, id: string)
    requires Sound(c.site.codec)
    requires var y := Run(c, Start(c, ceiling, limits, clock), before);
             && id in y.d.pending && IsLater(c, y.d, step, id)
             && Next(c, y, step).x.admissions != y.x.admissions
    ensures var y := Run(c, Start(c, ceiling, limits, clock), before);
            var frame := y.d.pending[id].frame;
            NeverRunsAfter(c, Next(c, y, step), after, frame)
  {
    hide Run, Next, AllVetted, Sound, IsLater, NeverRunsAfter;
    StartIsVetted(c, ceiling, limits, clock);
    RunKeepsVetted(c, Start(c, ceiling, limits, clock), before);
    OutOfOrder(c, Run(c, Start(c, ceiling, limits, clock), before), step, after, id);
  }

  /** After `steps`, approving the frame is refused and runs nothing, and nothing since has run it. */
  ghost predicate NeverRunsAfter(c: Config, y: System, steps: seq<Step>, frame: Bytes) {
    var y' := Run(c, y, steps);
    && y.x.runs <= y'.x.runs
    && (forall j :: |y.x.runs| <= j < |y'.x.runs| ==> y'.x.runs[j].frame != frame)
    && (forall a: Approval :: GoesThrough(y', a) && y'.d.pending[a.id].frame == frame ==> RefusedAsReplay(c, y', a))
  }

  ghost predicate RefusedAsReplay(c: Config, y: System, a: Approval) {
    && ApprovalHandled(c, y, a).1 == DeniedAt(ByExecutor(ReplayStage))
    && ApprovalHandled(c, y, a).0.x.runs == y.x.runs
  }

  lemma OutOfOrder(c: Config, y: System, step: Step, after: seq<Step>, id: string)
    requires Sound(c.site.codec) && AllVetted(c, y) && id in y.d.pending && IsLater(c, y.d, step, id)
    requires Next(c, y, step).x.admissions != y.x.admissions
    ensures NeverRunsAfter(c, Next(c, y, step), after, y.d.pending[id].frame)
  {
    hide Run, Next, AllVetted, Sound, IsLater, Overtaken, ApprovalHandled;
    var frame, y1 := y.d.pending[id].frame, Next(c, y, step);
    LaterAdmissionOvertakes(c, y, step, id);
    StepKeepsVetted(c, y, step);
    SharedKey(c, y1);
    OvertakenNeverRuns(c, y1, after, frame);
    OvertakenForGood(c, y1, after, frame);
    RunKeepsVetted(c, y1, after);
    var y2 := Run(c, y1, after);
    forall a: Approval | GoesThrough(y2, a) && y2.d.pending[a.id].frame == frame ensures RefusedAsReplay(c, y2, a) {
      OvertakenIsRefused(c, y2, a);
    }
  }

  /** If of two waiting actions the one signed later is approved first and executes, the other is lost. */
  lemma ApprovedInReverse(c: Config, y: System, later: Approval, after: seq<Step>, id: string)
    requires Sound(c.site.codec) && AllVetted(c, y) && id in y.d.pending && later.id in y.d.pending
    requires NumberOf(c, y.d, id) <= NumberOf(c, y.d, later.id)
    requires ApprovalHandled(c, y, later).1.Executed?
    ensures NeverRunsAfter(c, ApprovalHandled(c, y, later).0, after, y.d.pending[id].frame)
  {
    hide AllVetted, Sound, ApprovalHandled, NeverRunsAfter, NumberOf;
    ExecutedMeansAdmitted(c, y, later);
    OutOfOrder(c, y, Approve(later), after, id);
  }

  lemma ExecutedMeansAdmitted(c: Config, y: System, a: Approval)
    requires ApprovalHandled(c, y, a).1.Executed?
    ensures ApprovalHandled(c, y, a).0.x.admissions != y.x.admissions
  {
    hide Refusal, Prune, Remove;
    var p := Prune(y.d.pending, a.nowMs)[a.id];
    var x' := After(c.site, y.x, p.frame, a.delivery.s);
    assert ApprovalHandled(c, y, a).0.x == x';
    assert |x'.admissions| == |y.x.admissions| + 1;
  }

  // ----- Two interactive proposals, approved in reverse ------------------------------------------

  /**
   A tool call that passes every gate of the daemon but the human, in interactive mode
   and not critical, and whose frame under this number is short enough to send.
   */
  ghost predicate WaitsForOne(c: Config, p: Proposal, m: Manifest, number: nat) {
    && SafeExecName(p.exec) && c.site.load(p.exec) == Some(m) && c.site.argsOk(m, p.args)
    && PolicyOn(c, p.exec, m) == Policy.NeedsApproval(false)
    && p.appends > 0
    && FrameOf(c, p, m, number).Some?
  }

  ghost function FrameOf(c: Config, p: Proposal, m: Manifest, number: nat): Option<Bytes> {
    ToFrame(c.site.codec, Seal(c.site.codec, c.secret, RequestOf(c, p, m, number)))
  }

  ghost function Waiting(c: Config, p: Proposal, m: Manifest, number: nat): Pending
    requires WaitsForOne(c, p, m, number)
  {
    PendingOf(c, p, m, FrameOf(c, p, m, number).value, false)
  }

  /** Such a call is signed and stashed; the executor sees nothing. */
  lemma ProposalWaits(c: Config, y: System, p: Proposal, m: Manifest)
    requires WaitsForOne(c, p, m, SaturatingInc(y.d.number)) && |Prune(y.d.pending, p.pruneMs)| < MAX_PENDING
    ensures var y' := Proposed(c, y, p).0;
            var number := SaturatingInc(y.d.number);
            && y'.x == y.x && y'.d.number == number
            && y'.d.pending == Prune(y.d.pending, p.pruneMs)[p.approvalId := Waiting(c, p, m, number)]
  {
    hide Policy.Evaluate, Seal, ToFrame, SafeExecName, Prune;
  }

  lemma TaskWaits(c: Config, y: System, t: Task, p: Proposal, m: Manifest)
    requires ToolCall(c, t) == Some(p) && WaitsForOne(c, p, m, SaturatingInc(y.d.number))
    requires |Prune(y.d.pending, p.pruneMs)| < MAX_PENDING
    ensures var y' := Next(c, y, RunTask(t));
            var number := SaturatingInc(y.d.number);
            && y'.x == y.x && y'.d.number == number
            && y'.d.pending == Prune(y.d.pending, p.pruneMs)[p.approvalId := Waiting(c, p, m, number)]
  {
    hide ToolCall, Exchange, WaitsForOne, Proposed, Prune;
    ProposalWaits(c, System(Exchanged(c, y.d, t), y.x), p, m);
  }

  /** What the executor must grant the action that is approved first. */
  ghost predicate Grants(c: Config, ceiling: Mode, limits: RateLimit.RateLimits, m: Manifest, s: Surroundings) {
    && (m.readOnly || ceiling.AllowsMutation())
    && limits.total > 0 && limits.mutating > 0 && limits.critical > 0
    && ExecdRuns.CanRun(c.site, m, s)
  }

  /** The approval echoes the digest in time, and its log and transport work. */
  ghost predicate Approves(c: Config, a: Approval, p: Proposal, m: Manifest) {
    && a.id == p.approvalId
    && a.digest == c.hashing.sha256Hex(Digest.Preimage(c.hashing, p.exec, p.args, m.payloadSha256))
    && a.nowMs <= p.createdMs + APPROVAL_TTL_MS
    && a.appends >= 4 && a.delivery.Delivered?
  }

  /** The first approval on a fresh executor runs. */
  lemma FirstApprovalRuns(c: Config, y: System, a: Approval, p: Proposal, m: Manifest, number: nat)
    requires Sound(c.site.codec) && WaitsForOne(c, p, m, number) && Approves(c, a, p, m)
    requires a.id in y.d.pending && y.d.pending[a.id] == Waiting(c, p, m, number)
    requires y.x.key == Key(c) && ExecdRuns.Fresh(y.x) && Grants(c, y.x.ceiling, y.x.limits, m, a.delivery.s)
    ensures ApprovalHandled(c, y, a).1.Executed?
  {
    hide OpenFrame, Seal, ToFrame, SafeExecName, Policy.Evaluate, Sound, After, Refusal, Replay.Decide, RateLimit.Decide;
    var frame := FrameOf(c, p, m, number).value;
    OpenUndoesSeal(c.site.codec, c.secret, RequestOf(c, p, m, number));
    ExecdRuns.FirstAttemptIsAdmitted(AttemptOf(RequestOf(c, p, m, number)));
    ExecdRuns.FirstCallIsAdmitted(y.x.limits, RateLimit.Call(a.delivery.s.now, KindOf(m)));
    assert ExecdRuns.AllGatesPassed(c.site, y.x, frame, a.delivery.s);
    ExecdRuns.RunIffAllGates(c.site, y.x, frame, a.delivery.s);
    ApprovalReply(c, y, a);
  }

  /** Where two waiting tool calls leave the daemon. */
  lemma BothWait(c: Config, ceiling: Mode, limits: RateLimit.RateLimits, clock: int,
                 t1: Task, p1: Proposal, m1: Manifest, t2: Task, p2: Proposal, m2: Manifest)
    requires ToolCall(c, t1) == Some(p1) && WaitsForOne(c, p1, m1, 1)
    requires ToolCall(c, t2) == Some(p2) && WaitsForOne(c, p2, m2, 2)
    requires p1.approvalId != p2.approvalId && p2.pruneMs <= p1.createdMs + APPROVAL_TTL_MS
    ensures var y := Run(c, Start(c, ceiling, limits, clock), [RunTask(t1), RunTask(t2)]);
            && y.x == Start(c, ceiling, limits, clock).x
            && y.d.pending == map[p1.approvalId := Waiting(c, p1, m1, 1), p2.approvalId := Waiting(c, p2, m2, 2)]
  {
    hide ToolCall, WaitsForOne, Next;
    var y0 := Start(c, ceiling, limits, clock);
    var steps := [RunTask(t1), RunTask(t2)];
    assert Prune(map[], p1.pruneMs) == map[];
    TaskWaits(c, y0, t1, p1, m1);
    var y1 := Next(c, y0, RunTask(t1));
    assert steps[..1] == [RunTask(t1)] && steps[..1][..0] == [];
    assert Run(c, y0, steps[..1]) == y1;
    var w1 := Waiting(c, p1, m1, 1);
    assert y1.d.pending == map[p1.approvalId := w1];
    assert w1.createdMs == p1.createdMs;
    assert Prune(y1.d.pending, p2.pruneMs) == map[p1.approvalId := w1];
    TaskWaits(c, y1, t2, p2, m2);
  }

  /**
   In a fresh interactive session two tool calls wait for approval. The one signed second
   is approved first and executes. From then on, after any continuation, approving the
   first is refused at the replay stage, although it is in time, under its own digest and
   otherwise allowed; and it never runs.
   */
  lemma SecondApprovedFirst(c: Config, ceiling: Mode, limits: RateLimit.RateLimits, clock: int,
                            t1: Task, p1: Proposal, m1: Manifest, t2: Task, p2: Proposal, m2: Manifest,
                            a2: Approval, after: seq<Step>)
    requires Sound(c.site.codec)
    requires ToolCall(c, t1) == Some(p1) && WaitsForOne(c, p1, m1, 1)
    requires ToolCall(c, t2) == Some(p2) && WaitsForOne(c, p2, m2, 2)
    requires p1.approvalId != p2.approvalId && p2.pruneMs <= p1.createdMs + APPROVAL_TTL_MS
    requires Approves(c, a2, p2, m2) && Grants(c, ceiling, limits, m2, a2.delivery.s)
    ensures var y := Run(c, Start(c, ceiling, limits, clock), [RunTask(t1), RunTask(t2)]);
            && ApprovalHandled(c, y, a2).1.Executed?
            && NeverRunsAfter(c, ApprovalHandled(c, y, a2).0, after, Waiting(c, p1, m1, 1).frame)
  {
    hide ToolCall, Run, ApprovalHandled, NeverRunsAfter, AllVetted, WaitsForOne, Approves, Grants, Sound;
    var y0, steps := Start(c, ceiling, limits, clock), [RunTask(t1), RunTask(t2)];
    var y := Run(c, y0, steps);
    BothWait(c, ceiling, limits, clock, t1, p1, m1, t2, p2, m2);
    StartIsVetted(c, ceiling, limits, clock);
    RunKeepsVetted(c, y0, steps);
    ApprovesItsId(c, a2, p2, m2);
    FirstApprovalRuns(c, y, a2, p2, m2, 2);
    WaitingNumber(c, p1, m1, 1);
    WaitingNumber(c, p2, m2, 2);
    ApprovedInReverse(c, y, a2, after, p1.approvalId);
  }

  lemma ApprovesItsId(c: Config, a: Approval, p: Proposal, m: Manifest)
    requires Approves(c, a, p, m)
    ensures a.id == p.approvalId
  {
  }

  lemma WaitingNumber(c: Config, p: Proposal, m: Manifest, number: nat)
    requires Sound(c.site.codec) && WaitsForOne(c, p, m, number)
    ensures Opened(c, Waiting(c, p, m, number).frame).number == number
  {
    hide OpenFrame, Seal, ToFrame, Sound, Policy.Evaluate, SafeExecName;
    assert FrameOf(c, p, m, number).Some?;
    OpenUndoesSeal(c.site.codec, c.secret, RequestOf(c, p, m, number));
  }

  /** And there is such an approval, at once: in time, under its own digest, and refused. */
  lemma FirstIsRefusedAtOnce(c: Config, ceiling: Mode, limits: RateLimit.RateLimits, clock: int,
                             t1: Task, p1: Proposal, m1: Manifest, t2: Task, p2: Proposal, m2: Manifest,
                             a2: Approval, a1: Approval)
    requires Sound(c.site.codec)
    requires ToolCall(c, t1) == Some(p1) && WaitsForOne(c, p1, m1, 1)
    requires ToolCall(c, t2) == Some(p2) && WaitsForOne(c, p2, m2, 2)
    requires p1.approvalId != p2.approvalId && p2.pruneMs <= p1.createdMs + APPROVAL_TTL_MS
    requires Approves(c, a2, p2, m2) && Grants(c, ceiling, limits, m2, a2.delivery.s)
    requires a2.nowMs <= p1.createdMs + APPROVAL_TTL_MS && Approves(c, a1, p1, m1)
    ensures var y := Run(c, Start(c, ceiling, limits, clock), [RunTask(t1), RunTask(t2)]);
            var y' := ApprovalHandled(c, y, a2).0;
            GoesThrough(y', a1) && RefusedAsReplay(c, y', a1)
  {
    hide ToolCall, Run, ApprovalHandled, AllVetted, WaitsForOne, Grants, Sound, Prune;
    var y := Run(c, Start(c, ceiling, limits, clock), [RunTask(t1), RunTask(t2)]);
    var y' := ApprovalHandled(c, y, a2).0;
    BothWait(c, ceiling, limits, clock, t1, p1, m1, t2, p2, m2);
    SecondApprovedFirst(c, ceiling, limits, clock, t1, p1, m1, t2, p2, m2, a2, []);
    assert Run(c, y', []) == y' by {
      NoSteps(c, y');
    }
    OthersStay(c, y, a2, p1.approvalId);
    UnexpiredStays(y'.d.pending, a1.nowMs, a1.id);
  }

  lemma NoSteps(c: Config, y: System)
    ensures Run(c, y, []) == y
  {
  }

  /** An approval touches no other unexpired entry. */
  lemma OthersStay(c: Config, y: System, a: Approval, id: string)
    requires id in y.d.pending && id != a.id && a.nowMs <= y.d.pending[id].createdMs + APPROVAL_TTL_MS
    ensures var y' := ApprovalHandled(c, y, a).0;
            id in y'.d.pending && y'.d.pending[id] == y.d.pending[id]
  {
    hide After, Reply, Recorded, Dispatched;
    var pruned := Prune(y.d.pending, a.nowMs);
    if a.id in pruned && a.appends > 1 {
      var d2 := WithAudit(y.d.(pending := Remove(pruned, a.id)), ApprovalGranted(c.session, pruned[a.id].action));
      ApprovalTable.DispatchOnTable(c, System(d2, y.x), pruned[a.id], OnApproval(a.id, a.digest, a.nowMs),
                                    a.appends - 1, a.delivery);
    }
  }

  lemma UnexpiredStays(pending: map<string, Pending>, nowMs: nat, id: string)
    requires id in pending && nowMs <= pending[id].createdMs + APPROVAL_TTL_MS
    ensures id in Prune(pending, nowMs)
  {
  }
}

/** What holds over every run of the executor, whatever frames arrive, however often and in whatever order. */
module ExecdRuns {
  import opened Common
  import opened Events
  import opened Wire
  import opened Execd
  import Policy
  import Replay
  import RateLimit

  /** One step of the executor process. */
  datatype Input = Deliver(frame: Bytes, s: Surroundings) | SetKey(key: Bytes)

  ghost function Step(site: Site, st: State, i: Input): State {
    match i
    case Deliver(frame, s) => After(site, st, frame, s)
    case SetKey(key) => st.(key := key)
  }

  ghost function Run(site: Site, st: State, inputs: seq<Input>): State {
    if inputs == [] then st else
      Step(site, Run(site, st, inputs[..|inputs| - 1]), inputs[|inputs| - 1])
  }

  ghost predicate Fresh(st: State) {
    st.admissions == [] && st.hits == [] && st.runs == []
  }

  // ----- One step --------------------------------------------------------------------

  /** What an authenticated, fresh, well-formed and permitted request within the ceilings is. */
  ghost predicate WithinBudget(site: Site, st: State, frame: Bytes, s: Surroundings) {
    && OpenFrame(site.codec, st.key, frame).Some?
    && var r := OpenFrame(site.codec, st.key, frame).value;
    && Replay.Decide(st.admissions, AttemptOf(r)) == Replay.Admitted
    && SafeExecName(r.exec) && site.load(r.exec).Some?
    && var m := site.load(r.exec).value;
    && site.argsOk(m, r.args)
    && (m.readOnly || st.ceiling.AllowsMutation())
    && (Verdict(site, r, m) == Policy.Allowed || Verdict(site, r, m).NeedsApproval?)
    && RateLimit.Decide(st.limits, st.hits, RateLimit.Call(s.now, KindOf(m))) == RateLimit.Admitted
  }

  /** A recovery point where one is due, a sandbox plan, and a cgroup for the declared limits. */
  ghost predicate CanRun(site: Site, m: Manifest, s: Surroundings) {
    && (m.mutatesPersistentState ==> m.pathsRw != [] && s.snapshot.Taken?)
    && site.planOk(m) && s.cgroupOk
  }

  /** Everything a call of the runner in this step stands for. */
  ghost predicate AllGatesPassed(site: Site, st: State, frame: Bytes, s: Surroundings) {
    && WithinBudget(site, st, frame, s)
    && CanRun(site, site.load(OpenFrame(site.codec, st.key, frame).value.exec).value, s)
  }

  /** The runner is called in a step if and only if every gate passed in that very step. */
  lemma RunIffAllGates(site: Site, st: State, frame: Bytes, s: Surroundings)
    ensures AllGatesPassed(site, st, frame, s) <==> Refusal(site, st, frame, s) == None
    ensures AllGatesPassed(site, st, frame, s) ==>
              After(site, st, frame, s).runs == st.runs + [CallOf(site, st, frame, s)]
    ensures !AllGatesPassed(site, st, frame, s) ==> After(site, st, frame, s).runs == st.runs
  {
    hide Policy.Evaluate, OpenFrame, SafeExecName, Replay.Decide, RateLimit.Decide, Refusal;
    RefusalByBranch(site, st, frame, s);
  }

  /** A rejection carries the stage of the first gate that refuses; all earlier ones passed. */
  lemma RejectionNamesFirstGate(site: Site, st: State, frame: Bytes, s: Surroundings)
    ensures Reply(site, st, frame, s).outcome.Rejected? <==> !AllGatesPassed(site, st, frame, s)
    ensures forall stage: Stage :: Reply(site, st, frame, s).outcome == Rejected(stage) ==>
              exists g: Gate :: StageOf(g) == stage && !Passes(g, site, st, frame, s) && EarlierPass(Rank(g), site, st, frame, s)
  {
    hide Passes, EarlierPass, AllGatesPassed, Refusal;
    RunIffAllGates(site, st, frame, s);
    RefusalIsFirst(site, st, frame, s);
  }

  /** The guards move exactly as their own specifications say. */
  lemma GuardsMove(site: Site, st: State, frame: Bytes, s: Surroundings)
    ensures var st' := After(site, st, frame, s);
            && (st'.admissions == st.admissions
                || (exists a :: Replay.Decide(st.admissions, a) == Replay.Admitted && st'.admissions == st.admissions + [a]))
            && (st'.hits == st.hits
                || (exists kind :: var call := RateLimit.Call(s.now, kind);
                     RateLimit.Decide(st.limits, st.hits, call) == RateLimit.Admitted && st'.hits == st.hits + [call]))
            && (st'.hits != st.hits ==> st'.clock == s.now)
            && (st'.clock == st.clock || st'.clock == s.now)
            && st'.limits == st.limits && st'.ceiling == st.ceiling && st'.key == st.key
  {
    hide Policy.Evaluate, OpenFrame, SafeExecName, Replay.Decide, RateLimit.Decide, Refusal;
    RefusalByBranch(site, st, frame, s);
    var refusal := Refusal(site, st, frame, s);
    if GotPast(refusal, FreshnessGate) {
      assert Replay.Decide(st.admissions, AttemptOf(RequestIn(site, st, frame))) == Replay.Admitted;
    }
    if GotPast(refusal, RateGate) {
      var kind := KindOf(ManifestIn(site, st, frame));
      assert RateLimit.Decide(st.limits, st.hits, RateLimit.Call(s.now, kind)) == RateLimit.Admitted;
    }
  }

  /**
   Rate budget is spent exactly on requests that pass every gate up to the limiter; so it
   is spent without a run exactly when such a request then lacks its recovery point, its
   sandbox plan or its cgroup.
   */
  lemma BudgetSpentInVain(site: Site, st: State, frame: Bytes, s: Surroundings)
    ensures After(site, st, frame, s).hits != st.hits <==> WithinBudget(site, st, frame, s)
    ensures After(site, st, frame, s).hits != st.hits && After(site, st, frame, s).runs == st.runs
       <==> && WithinBudget(site, st, frame, s)
            && !CanRun(site, site.load(OpenFrame(site.codec, st.key, frame).value.exec).value, s)
  {
    hide OpenFrame, SafeExecName, Policy.Evaluate, Replay.Decide, RateLimit.Decide, Refusal;
    RunIffAllGates(site, st, frame, s);
    RefusalByBranch(site, st, frame, s);
    BudgetIffPastLimiter(site, st, frame, s);
  }

  lemma BudgetIffPastLimiter(site: Site, st: State, frame: Bytes, s: Surroundings)
    ensures After(site, st, frame, s).hits != st.hits <==> WithinBudget(site, st, frame, s)
  {
    hide OpenFrame, SafeExecName, Policy.Evaluate, Replay.Decide, RateLimit.Decide, Refusal;
    RefusalByBranch(site, st, frame, s);
    assert |st.hits + [RateLimit.Call(s.now, KindOf(ManifestIn(site, st, frame)))]| == |st.hits| + 1;
  }

  /**
   Such steps exist on every site with a sound codec: on a fresh executor, any request
   sealed with the session's secret that passes every gate up to the limiter, but whose
   bundle cannot run.
   */
  lemma BudgetCanBeWasted(site: Site, st: State, secret: Bytes, r: ExecRequest, s: Surroundings)
    requires Sound(site.codec) && st.key == site.codec.publicKey(secret) && Fresh(st)
    requires ToFrame(site.codec, Seal(site.codec, secret, r)).Some?
    requires SafeExecName(r.exec) && site.load(r.exec).Some?
    requires var m := site.load(r.exec).value;
             && site.argsOk(m, r.args) && (m.readOnly || st.ceiling.AllowsMutation())
             && (Verdict(site, r, m) == Policy.Allowed || Verdict(site, r, m).NeedsApproval?)
             && !CanRun(site, m, s)
    requires st.limits.total > 0 && st.limits.mutating > 0 && st.limits.critical > 0
    ensures var frame := ToFrame(site.codec, Seal(site.codec, secret, r)).value;
            After(site, st, frame, s).hits != st.hits && After(site, st, frame, s).runs == st.runs
  {
    hide OpenFrame, Seal, ToFrame, Sound, SafeExecName, After, Replay.Decide, RateLimit.Decide, Policy.Evaluate;
    var frame := ToFrame(site.codec, Seal(site.codec, secret, r)).value;
    OpenUndoesSeal(site.codec, secret, r);
    FirstAttemptIsAdmitted(AttemptOf(r));
    FirstCallIsAdmitted(st.limits, RateLimit.Call(s.now, KindOf(site.load(r.exec).value)));
    BudgetSpentInVain(site, st, frame, s);
  }

  lemma FirstCallIsAdmitted(limits: RateLimit.RateLimits, call: RateLimit.Call)
    requires limits.total > 0 && limits.mutating > 0 && limits.critical > 0
    ensures RateLimit.Decide(limits, [], call) == RateLimit.Admitted
  {
    assert forall c: RateLimit.Ceiling :: RateLimit.Times([], c) == [];
  }

  lemma FirstAttemptIsAdmitted(a: Replay.Attempt)
    ensures Replay.Decide([], a) == Replay.Admitted
  {
  }

  // ----- Every signed frame runs at most once -----------------------------------------------

  ghost predicate RunsIncrease(runs: seq<RunnerCall>) {
    forall i, j :: 0 <= i < j < |runs| && runs[i].session == runs[j].session ==> runs[i].number < runs[j].number
  }

  ghost predicate WasAdmitted(st: State, call: RunnerCall) {
    exists i :: 0 <= i < |st.admissions| && st.admissions[i].session == call.session && st.admissions[i].number == call.number
  }

  /** Some key opens the frame to a request with the session and number of the call. */
  ghost predicate CameIn(site: Site, call: RunnerCall) {
    exists key: Bytes :: OpenFrame(site.codec, key, call.frame).Some?
                         && OpenFrame(site.codec, key, call.frame).value.session == call.session
                         && OpenFrame(site.codec, key, call.frame).value.number == call.number
  }

  ghost predicate Ordered(site: Site, st: State) {
    && Replay.NumbersIncrease(st.admissions)
    && RunsIncrease(st.runs)
    && (forall i :: 0 <= i < |st.runs| ==> WasAdmitted(st, st.runs[i]) && CameIn(site, st.runs[i]))
  }

  lemma StepKeepsOrdered(site: Site, st: State, frame: Bytes, s: Surroundings)
    requires Ordered(site, st)
    ensures Ordered(site, After(site, st, frame, s))
  {
    hide Refusal, OpenFrame, SafeExecName, BundleOf, Demands, KindOf;
    var st' := After(site, st, frame, s);
    RefusalByBranch(site, st, frame, s);
    var refusal := Refusal(site, st, frame, s);
    if GotPast(refusal, FreshnessGate) {
      var a := AttemptOf(RequestIn(site, st, frame));
      assert !Replay.Superseded(st.admissions, a);
      assert st'.admissions[|st.admissions|] == a;
      forall i | 0 <= i < |st.runs|
        ensures WasAdmitted(st', st.runs[i]) && (st.runs[i].session == a.session ==> st.runs[i].number < a.number)
      {
        assert WasAdmitted(st, st.runs[i]);
        var k :| 0 <= k < |st.admissions| && st.admissions[k].session == st.runs[i].session && st.admissions[k].number == st.runs[i].number;
        assert st'.admissions[k] == st.admissions[k];
      }
    } else {
      forall i | 0 <= i < |st.runs| ensures WasAdmitted(st', st.runs[i]) {
        assert WasAdmitted(st, st.runs[i]);
      }
    }
  }

  lemma {:induction false} RunKeepsOrdered(site: Site, st: State, inputs: seq<Input>)
    requires Ordered(site, st)
    ensures Ordered(site, Run(site, st, inputs))
  {
    hide After;
    if inputs != [] {
      var n := |inputs| - 1;
      RunKeepsOrdered(site, st, inputs[..n]);
      var before := Run(site, st, inputs[..n]);
      match inputs[n]
      case Deliver(frame, s) => StepKeepsOrdered(site, before, frame, s);
      case SetKey(key) =>
        forall i | 0 <= i < |before.runs| ensures WasAdmitted(before.(key := key), before.runs[i]) {
          assert WasAdmitted(before, before.runs[i]);
        }
    }
  }

  /**
   Over any sequence of deliveries, repeated, reordered or forged, and of key changes:
   the numbers a session runs strictly increase and no frame reaches the runner twice.
   */
  lemma EachFrameRunsAtMostOnce(site: Site, st: State, inputs: seq<Input>)
    requires Fresh(st)
    ensures var runs := Run(site, st, inputs).runs;
            && RunsIncrease(runs)
            && forall i, j :: 0 <= i < j < |runs| ==> runs[i].frame != runs[j].frame
  {
    RunKeepsOrdered(site, st, inputs);
    OrderedFramesDiffer(site, Run(site, st, inputs));
  }

  lemma OrderedFramesDiffer(site: Site, st: State)
    requires Ordered(site, st)
    ensures forall i, j :: 0 <= i < j < |st.runs| ==> st.runs[i].frame != st.runs[j].frame
  {
    hide CameIn;
    forall i, j | 0 <= i < j < |st.runs| ensures st.runs[i].frame != st.runs[j].frame {
      if st.runs[i].frame == st.runs[j].frame {
        SameFrameSameNumber(site, st.runs[i], st.runs[j]);
      }
    }
  }

  lemma SameFrameSameNumber(site: Site, a: RunnerCall, b: RunnerCall)
    requires CameIn(site, a) && CameIn(site, b) && a.frame == b.frame
    ensures a.session == b.session && a.number == b.number
  {
    hide OpenFrame;
    var key: Bytes :| OpenFrame(site.codec, key, a.frame).Some?
                      && OpenFrame(site.codec, key, a.frame).value.session == a.session
                      && OpenFrame(site.codec, key, a.frame).value.number == a.number;
    var key': Bytes :| OpenFrame(site.codec, key', b.frame).Some?
                       && OpenFrame(site.codec, key', b.frame).value.session == b.session
                       && OpenFrame(site.codec, key', b.frame).value.number == b.number;
    FrameDeterminesRequest(site.codec, key, key', a.frame);
  }

  // ----- Rate ceilings bound the runner -------------------------------------------------------

  /** The times of the runner calls a ceiling counts. */
  ghost function RunTimes(runs: seq<RunnerCall>, c: RateLimit.Ceiling): seq<int> {
    if runs == [] then [] else
      var n := |runs| - 1;
      RunTimes(runs[..n], c) + if RateLimit.Applies(c, KindOf(runs[n].manifest)) then [runs[n].at] else []
  }

  ghost predicate Counted(st: State) {
    forall c: RateLimit.Ceiling, lo, hi :: CountedIn(st, c, lo, hi)
  }

  ghost predicate CountedIn(st: State, c: RateLimit.Ceiling, lo: int, hi: int) {
    RateLimit.CountIn(RunTimes(st.runs, c), lo, hi) <= RateLimit.CountIn(RateLimit.Times(st.hits, c), lo, hi)
  }

  lemma RunTimesSnoc(runs: seq<RunnerCall>, call: RunnerCall, c: RateLimit.Ceiling)
    ensures RunTimes(runs + [call], c)
         == RunTimes(runs, c) + if RateLimit.Applies(c, KindOf(call.manifest)) then [call.at] else []
  {
    assert (runs + [call])[..|runs|] == runs;
  }

  lemma CountAfter(times: seq<int>, more: seq<int>, lo: int, hi: int)
    requires |more| <= 1
    ensures RateLimit.CountIn(times + more, lo, hi)
         == RateLimit.CountIn(times, lo, hi) + if more != [] && lo <= more[0] < hi then 1 else 0
  {
    if more == [] {
      assert times + more == times;
    } else {
      assert more == [more[0]];
      RateLimit.CountInSnoc(times, more[0], lo, hi);
    }
  }

  lemma StepKeepsCounted(site: Site, st: State, frame: Bytes, s: Surroundings)
    requires Counted(st)
    ensures Counted(After(site, st, frame, s))
  {
    hide Refusal, OpenFrame, BundleOf, KindOf, RateLimit.Times, RateLimit.CountIn, RunTimes, AttemptOf;
    var st' := After(site, st, frame, s);
    var refusal := Refusal(site, st, frame, s);
    forall c: RateLimit.Ceiling, lo, hi ensures CountedIn(st', c, lo, hi) {
      assert CountedIn(st, c, lo, hi);
      if GotPast(refusal, RateGate) {
        var hit := RateLimit.Call(s.now, KindOf(ManifestIn(site, st, frame)));
        RateLimit.TimesSnoc(st.hits, hit, c);
        var more := if RateLimit.Applies(c, hit.kind) then [s.now] else [];
        CountAfter(RateLimit.Times(st.hits, c), more, lo, hi);
        if refusal.None? {
          RunTimesSnoc(st.runs, CallOf(site, st, frame, s), c);
          CountAfter(RunTimes(st.runs, c), more, lo, hi);
        }
      }
    }
  }

  ghost predicate Limited(st: State) {
    && RateLimit.WithinCeilings(st.limits, st.hits)
    && RateLimit.NotAfter(st.hits, st.clock)
    && Counted(st)
  }

  lemma StepKeepsLimited(site: Site, st: State, frame: Bytes, s: Surroundings)
    requires Limited(st) && st.clock <= s.now
    ensures Limited(After(site, st, frame, s))
  {
    hide RateLimit.WithinCeilings, RateLimit.Decide, Counted, Replay.Decide;
    var st' := After(site, st, frame, s);
    StepKeepsCounted(site, st, frame, s);
    GuardsMove(site, st, frame, s);
    if st'.hits != st.hits {
      var kind :| RateLimit.Decide(st.limits, st.hits, RateLimit.Call(s.now, kind)) == RateLimit.Admitted
                  && st'.hits == st.hits + [RateLimit.Call(s.now, kind)];
      RateLimit.ExtendKeepsCeilings(st.limits, st.hits, RateLimit.Call(s.now, kind));
    }
  }

  /** The clock readings of the deliveries never go back, and start no earlier than `start`. */
  ghost predicate Timely(inputs: seq<Input>, start: int) {
    && (forall i :: 0 <= i < |inputs| && inputs[i].Deliver? ==> start <= inputs[i].s.now)
    && (forall i, j :: 0 <= i < j < |inputs| && inputs[i].Deliver? && inputs[j].Deliver? ==> inputs[i].s.now <= inputs[j].s.now)
  }

  ghost predicate ClockSeen(st: State, inputs: seq<Input>, clock: int) {
    clock == st.clock || exists i :: 0 <= i < |inputs| && inputs[i].Deliver? && inputs[i].s.now == clock
  }

  lemma {:induction false} RunKeepsLimited(site: Site, st: State, inputs: seq<Input>)
    requires Limited(st) && Timely(inputs, st.clock)
    ensures Limited(Run(site, st, inputs)) && Run(site, st, inputs).limits == st.limits
    ensures ClockSeen(st, inputs, Run(site, st, inputs).clock)
  {
    hide After, Limited, RateLimit.Decide, Replay.Decide;
    if inputs != [] {
      var n := |inputs| - 1;
      RunKeepsLimited(site, st, inputs[..n]);
      var before := Run(site, st, inputs[..n]);
      assert before.clock == st.clock || exists i :: 0 <= i < n && inputs[i].Deliver? && inputs[i].s.now == before.clock by {
        if before.clock != st.clock {
          var i :| 0 <= i < n && inputs[..n][i].Deliver? && inputs[..n][i].s.now == before.clock;
          assert inputs[i] == inputs[..n][i];
        }
      }
      match inputs[n]
      case Deliver(frame, s) =>
        StepKeepsLimited(site, before, frame, s);
        GuardsMove(site, before, frame, s);
      case SetKey(key) =>
        LimitedIgnoresKey(before, key);
    }
  }

  lemma LimitedIgnoresKey(st: State, key: Bytes)
    requires Limited(st)
    ensures Limited(st.(key := key))
  {
    var st' := st.(key := key);
    forall c: RateLimit.Ceiling, lo, hi ensures CountedIn(st', c, lo, hi) {
      assert CountedIn(st, c, lo, hi);
    }
  }

  /**
   With a monotone clock, over any run every half-open minute holds at most the
   configured number of runner calls and of mutating ones, and every half-open hour at
   most the configured number of critical ones, whatever the daemon sends.
   */
  lemma RunnerCallsWithinCeilings(site: Site, st: State, inputs: seq<Input>, c: RateLimit.Ceiling, start: int)
    requires Fresh(st) && Timely(inputs, st.clock)
    ensures RateLimit.CountIn(RunTimes(Run(site, st, inputs).runs, c), start, start + RateLimit.Horizon(c))
         <= RateLimit.Max(st.limits, c)
  {
    hide Run, RunTimes, RateLimit.CountIn, RateLimit.Times, RateLimit.NotAfter;
    FreshIsLimited(st);
    RunKeepsLimited(site, st, inputs);
    var st' := Run(site, st, inputs);
    assert RateLimit.WithinCeiling(st'.limits, st'.hits, c);
    assert RateLimit.Burst(st'.hits, c, start) <= RateLimit.Max(st.limits, c);
    assert CountedIn(st', c, start, start + RateLimit.Horizon(c));
  }

  lemma FreshIsLimited(st: State)
    requires Fresh(st)
    ensures Limited(st)
  {
    forall c: RateLimit.Ceiling ensures RateLimit.WithinCeiling(st.limits, st.hits, c) {
      assert RateLimit.Times([], c) == [];
    }
    forall c: RateLimit.Ceiling, lo, hi ensures CountedIn(st, c, lo, hi) {
      assert RunTimes([], c) == [];
    }
  }

  // ----- What every runner call respects ---------------------------------------------------------

  ghost predicate Respectful(ceiling: Mode, call: RunnerCall) {
    && (call.manifest.readOnly || ceiling.AllowsMutation())
    && (call.snapshot.Some? <==> call.manifest.mutatesPersistentState)
  }

  /**
   Under a read-only ceiling no mutating bundle ever runs; and a bundle runs with a
   snapshot id if and only if it mutates persistent state.
   */
  lemma {:induction false} EveryRunIsRespectful(site: Site, st: State, inputs: seq<Input>)
    requires Fresh(st)
    ensures Run(site, st, inputs).ceiling == st.ceiling
    ensures forall i :: 0 <= i < |Run(site, st, inputs).runs| ==> Respectful(st.ceiling, Run(site, st, inputs).runs[i])
  {
    hide Refusal, OpenFrame, SafeExecName, Replay.Decide, RateLimit.Decide, Verdict;
    if inputs != [] {
      var n := |inputs| - 1;
      EveryRunIsRespectful(site, st, inputs[..n]);
      match inputs[n]
      case Deliver(frame, s) => RunIffAllGates(site, Run(site, st, inputs[..n]), frame, s);
      case SetKey(key) =>
    }
  }

  // ----- The daemon's claims do not matter ---------------------------------------------------------

  /** A request with the fields erased that the executor must not trust. */
  ghost function WithoutClaims(r: ExecRequest): ExecRequest {
    r.(declaredRisk := Low, declaredReadOnly := true, issuedMs := 0)
  }

  /** Under the key the two frames open alike, up to those fields. */
  ghost predicate AlikeFrames(site: Site, key: Bytes, f: Bytes, g: Bytes) {
    match (OpenFrame(site.codec, key, f), OpenFrame(site.codec, key, g))
    case (None, None) => true
    case (Some(r), Some(q)) => WithoutClaims(r) == WithoutClaims(q)
    case _ => false
  }

  /** The inputs agree one by one, up to those fields under the key then in force. */
  ghost predicate AlikeInputs(site: Site, st: State, a: seq<Input>, b: seq<Input>) {
    && |a| == |b|
    && forall i :: 0 <= i < |a| ==> AlikeInput(site, Run(site, st, a[..i]).key, a[i], b[i])
  }

  ghost predicate AlikeInput(site: Site, key: Bytes, a: Input, b: Input) {
    match (a, b)
    case (Deliver(f, s), Deliver(g, t)) => s == t && AlikeFrames(site, key, f, g)
    case (SetKey(k), SetKey(l)) => k == l
    case _ => false
  }

  /** A runner call without the frame it came in. */
  ghost function Unframed(runs: seq<RunnerCall>): seq<RunnerCall> {
    if runs == [] then [] else Unframed(runs[..|runs| - 1]) + [runs[|runs| - 1].(frame := [])]
  }

  /** The same configuration, the same guards, and the same runner calls up to frames. */
  ghost function Observed(st: State): State {
    st.(runs := Unframed(st.runs))
  }

  lemma UnframedSnoc(runs: seq<RunnerCall>, call: RunnerCall)
    ensures Unframed(runs + [call]) == Unframed(runs) + [call.(frame := [])]
  {
    assert (runs + [call])[..|runs|] == runs;
  }

  lemma AlikeStep(site: Site, st: State, st': State, f: Bytes, g: Bytes, s: Surroundings)
    requires Observed(st) == Observed(st') && AlikeFrames(site, st.key, f, g)
    ensures Reply(site, st, f, s) == Reply(site, st', g, s)
    ensures Observed(After(site, st, f, s)) == Observed(After(site, st', g, s))
  {
    hide Refusal, OpenFrame, SafeExecName, Replay.Decide, RateLimit.Decide, Policy.Evaluate, Unframed;
    AlikeRefusal(site, st, st', f, g, s);
    if Refusal(site, st, f, s).None? {
      RefusalByBranch(site, st, f, s);
      UnframedSnoc(st.runs, CallOf(site, st, f, s));
      UnframedSnoc(st'.runs, CallOf(site, st', g, s));
    }
  }

  lemma AlikeRefusal(site: Site, st: State, st': State, f: Bytes, g: Bytes, s: Surroundings)
    requires Observed(st) == Observed(st') && AlikeFrames(site, st.key, f, g)
    ensures Refusal(site, st, f, s) == Refusal(site, st', g, s)
  {
    hide Refusal, OpenFrame, SafeExecName, Replay.Decide, RateLimit.Decide, Policy.Evaluate, Unframed;
    RefusalByBranch(site, st, f, s);
    RefusalByBranch(site, st', g, s);
  }

  /** The reply to the last delivery of a run. */
  ghost function LastReply(site: Site, st: State, inputs: seq<Input>): Response
    requires inputs != [] && inputs[|inputs| - 1].Deliver?
  {
    var last := inputs[|inputs| - 1];
    Reply(site, Run(site, st, inputs[..|inputs| - 1]), last.frame, last.s)
  }

  lemma AlikeSnoc(site: Site, st: State, a: seq<Input>, b: seq<Input>)
    requires AlikeInputs(site, st, a, b) && a != []
    ensures |a| == |b|
    ensures var n := |a| - 1;
            && AlikeInputs(site, st, a[..n], b[..n])
            && AlikeInput(site, Run(site, st, a[..n]).key, a[n], b[n])
  {
    hide Run, AlikeInput;
    var n := |a| - 1;
    assert forall i :: 0 <= i < n ==> a[..n][..i] == a[..i];
  }

  lemma AlikeInputStep(site: Site, st: State, st': State, i: Input, j: Input)
    requires Observed(st) == Observed(st') && AlikeInput(site, st.key, i, j)
    ensures Observed(Step(site, st, i)) == Observed(Step(site, st', j))
    ensures i.Deliver? ==> j.Deliver? && Reply(site, st, i.frame, i.s) == Reply(site, st', j.frame, j.s)
  {
    hide After, Reply, Unframed, AlikeFrames;
    if i.Deliver? {
      AlikeStep(site, st, st', i.frame, j.frame, i.s);
    }
  }

  /** Requests that differ only in claimed risk, claimed read-only and issue time lead to the same replies and guard states. */
  lemma {:induction false} ClaimsDoNotMatter(site: Site, st: State, a: seq<Input>, b: seq<Input>)
    requires AlikeInputs(site, st, a, b)
    ensures Observed(Run(site, st, a)) == Observed(Run(site, st, b))
    ensures a != [] && a[|a| - 1].Deliver? ==>
              |b| == |a| && b[|b| - 1].Deliver? && LastReply(site, st, a) == LastReply(site, st, b)
  {
    hide Step, Reply, Observed, AlikeInput, AlikeInputs;
    if a == [] {
      NoInputsAlike(site, st, b);
    } else {
      var n := |a| - 1;
      AlikeSnoc(site, st, a, b);
      ClaimsDoNotMatter(site, st, a[..n], b[..n]);
      AlikeInputStep(site, Run(site, st, a[..n]), Run(site, st, b[..n]), a[n], b[n]);
    }
  }

  lemma NoInputsAlike(site: Site, st: State, b: seq<Input>)
    requires AlikeInputs(site, st, [], b)
    ensures b == []
  {
  }
}

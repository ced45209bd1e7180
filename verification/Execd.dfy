/**
 The executor's security pipeline: ordered, fail-closed gates over two stateful
 guards. The specification names the gates one by one, each by what it demands, and
 says which of them must have passed for each part of the state to change.
 */
module Execd {
  import opened Common
  import opened Events
  import opened Wire
  import Denylist
  import Policy
  import Replay
  import RateLimit

  /** What the signed manifest of a bundle says. */
  datatype Manifest = Manifest(
    risk: Risk, readOnly: bool, mutatesPersistentState: bool,
    script: string, payloadSha256: string,
    pathsRo: seq<string>, pathsRw: seq<string>)

  /**
   What one side is configured with: the bundles that verify under its trust store,
   the argument schemas, its policy, and which manifests yield a sandbox plan.
   */
  datatype Site = Site(
    codec: Codec,
    load: string -> Option<Manifest>,
    argsOk: (Manifest, map<string, string>) -> bool,
    engine: Policy.Engine,
    planOk: Manifest -> bool)

  datatype Snapshot = NoBackend | SnapshotFailed | Taken(id: string)

  datatype RunResult = RunResult(exitCode: int, stdout: string, stderr: string)

  /** What the environment answers while one request is handled. */
  datatype Surroundings = Surroundings(now: int, snapshot: Snapshot, cgroupOk: bool, result: RunResult)

  datatype Stage =
    | SignatureInvalid | ReplayStage | BundleUnverified | ArgRejected | NotReadOnly
    | DenylistHit | NotAllowlisted | RateLimited | SnapshotUnavailable | SandboxRejected

  datatype Outcome =
    | Completed(result: RunResult, snapshot: Option<string>)
    | Rejected(stage: Stage)

  datatype Response = Response(action: Id, outcome: Outcome)

  const UNKNOWN_ACTION: Id := [0, 0, 0, 0, 0, 0, 0, 0, 0, 0, 0, 0, 0, 0, 0, 0]

  predicate SafeChar(c: char) {
    'A' <= c <= 'Z' || 'a' <= c <= 'z' || '0' <= c <= '9' || c == '.' || c == '_' || c == '-'
  }

  predicate DotDotAt(name: string, i: nat) {
    i + 1 < |name| && name[i] == '.' && name[i + 1] == '.'
  }

  /** A single safe path component. */
  predicate SafeExecName(name: string) {
    && name != "" && |name| <= 128
    && name != "." && name != ".."
    && (forall i :: 0 <= i < |name| ==> !DotDotAt(name, i))
    && (forall i :: 0 <= i < |name| ==> SafeChar(name[i]))
  }

  function Intents(m: Manifest): seq<Policy.Intent> {
    seq(|m.pathsRo|, i requires 0 <= i < |m.pathsRo| => Policy.Intent(m.pathsRo[i], Denylist.Read))
    + seq(|m.pathsRw|, i requires 0 <= i < |m.pathsRw| => Policy.Intent(m.pathsRw[i], Denylist.Write))
  }

  /** The policy question both sides put about a bundle. */
  function Question(profile: string, mode: Mode, exec: string, m: Manifest): Policy.Request {
    Policy.Request(profile, mode, exec, m.risk, [m.script], Intents(m))
  }

  function KindOf(m: Manifest): RateLimit.ActionClass {
    RateLimit.ActionClass(!m.readOnly, m.risk == Critical)
  }

  // ----- State -------------------------------------------------------------------

  /** One call of the runner, with where it came from. */
  datatype RunnerCall = RunnerCall(
    frame: Bytes, session: Id, number: nat, exec: string, manifest: Manifest,
    args: map<string, string>, snapshot: Option<string>, at: int)

  /** The executor as a value: configuration, the histories of its guards, and the runner calls so far. */
  datatype State = State(
    key: Bytes, ceiling: Mode, limits: RateLimit.RateLimits,
    admissions: seq<Replay.Attempt>, hits: seq<RateLimit.Call>, clock: int,
    runs: seq<RunnerCall>)

  // ----- The gates ------------------------------------------------------------------

  datatype Gate =
    | SignatureGate | FreshnessGate | BundleGate | ArgumentGate | MutationGate
    | DenylistGate | AllowlistGate | RateGate | SnapshotGate | PlanGate | CgroupGate

  const GATES: nat := 11

  /** The order in which the gates are tried. */
  function Rank(g: Gate): (r: nat)
    ensures r < GATES
  {
    match g
    case SignatureGate => 0 case FreshnessGate => 1 case BundleGate => 2 case ArgumentGate => 3
    case MutationGate => 4 case DenylistGate => 5 case AllowlistGate => 6 case RateGate => 7
    case SnapshotGate => 8 case PlanGate => 9 case CgroupGate => 10
  }

  function GateAt(i: nat): (g: Gate)
    requires i < GATES
    ensures Rank(g) == i
  {
    match i
    case 0 => SignatureGate case 1 => FreshnessGate case 2 => BundleGate case 3 => ArgumentGate
    case 4 => MutationGate case 5 => DenylistGate case 6 => AllowlistGate case 7 => RateGate
    case 8 => SnapshotGate case 9 => PlanGate case _ => CgroupGate
  }

  function StageOf(g: Gate): Stage {
    match g
    case SignatureGate => SignatureInvalid
    case FreshnessGate => ReplayStage
    case BundleGate => BundleUnverified
    case ArgumentGate => ArgRejected
    case MutationGate => NotReadOnly
    case DenylistGate => DenylistHit
    case AllowlistGate => NotAllowlisted
    case RateGate => RateLimited
    case SnapshotGate => SnapshotUnavailable
    case PlanGate => SandboxRejected
    case CgroupGate => SandboxRejected
  }

  function AttemptOf(r: ExecRequest): Replay.Attempt {
    Replay.Attempt(r.session, r.number, r.nonce)
  }

  /** The bundle a request names, if its name is safe and the bundle verifies. */
  function BundleOf(site: Site, r: ExecRequest): Option<Manifest> {
    if SafeExecName(r.exec) then site.load(r.exec) else None
  }

  ghost function Verdict(site: Site, r: ExecRequest, m: Manifest): Policy.Outcome {
    Policy.Evaluate(site.engine, Question(r.profile, r.mode, r.exec, m))
  }

  /** What a gate demands of an authenticated request and its verified bundle. */
  ghost predicate Demands(g: Gate, site: Site, st: State, r: ExecRequest, m: Manifest, s: Surroundings) {
    match g
    case SignatureGate => true
    case FreshnessGate => true
    case BundleGate => true
    case ArgumentGate => site.argsOk(m, r.args)
    case MutationGate => m.readOnly || st.ceiling.AllowsMutation()
    case DenylistGate => !Verdict(site, r, m).Denied?
    case AllowlistGate => Verdict(site, r, m) != Policy.NotAllowed
    case RateGate => RateLimit.Decide(st.limits, st.hits, RateLimit.Call(s.now, KindOf(m))) == RateLimit.Admitted
    case SnapshotGate => !m.mutatesPersistentState || (m.pathsRw != [] && s.snapshot.Taken?)
    case PlanGate => site.planOk(m)
    case CgroupGate => s.cgroupOk
  }

  ghost predicate Passes(g: Gate, site: Site, st: State, frame: Bytes, s: Surroundings) {
    match OpenFrame(site.codec, st.key, frame)
    case None => false
    case Some(r) =>
      match g
      case SignatureGate => true
      case FreshnessGate => Replay.Decide(st.admissions, AttemptOf(r)) == Replay.Admitted
      case _ =>
        match BundleOf(site, r)
        case None => false
        case Some(m) => Demands(g, site, st, r, m, s)
  }

  /** The first gate of rank at least `from` that refuses. */
  ghost function FirstRefusal(from: nat, site: Site, st: State, frame: Bytes, s: Surroundings): Option<Gate>
    requires from <= GATES
    decreases GATES - from
  {
    if from == GATES then None
    else if !Passes(GateAt(from), site, st, frame, s) then Some(GateAt(from))
    else FirstRefusal(from + 1, site, st, frame, s)
  }

  ghost function Refusal(site: Site, st: State, frame: Bytes, s: Surroundings): Option<Gate> {
    FirstRefusal(0, site, st, frame, s)
  }

  ghost predicate EarlierPass(rank: nat, site: Site, st: State, frame: Bytes, s: Surroundings) {
    forall h: Gate :: Rank(h) < rank ==> Passes(h, site, st, frame, s)
  }

  /** A refusal names the first gate that refuses, and there is none exactly when all pass. */
  lemma RefusalIsFirst(site: Site, st: State, frame: Bytes, s: Surroundings)
    ensures Refusal(site, st, frame, s).None? <==> EarlierPass(GATES, site, st, frame, s)
    ensures forall g: Gate :: Refusal(site, st, frame, s) == Some(g)
                         <==> !Passes(g, site, st, frame, s) && EarlierPass(Rank(g), site, st, frame, s)
  {
    hide Passes, Rank;
    FirstRefusalFrom(0, site, st, frame, s);
    forall g: Gate ensures Rank(g) < GATES && GateAt(Rank(g)) == g {
      GateAtRank(g);
    }
  }

  lemma GateAtRank(g: Gate)
    ensures Rank(g) < GATES && GateAt(Rank(g)) == g
  {
  }

  lemma {:induction false} FirstRefusalFrom(from: nat, site: Site, st: State, frame: Bytes, s: Surroundings)
    requires from <= GATES
    ensures var r := FirstRefusal(from, site, st, frame, s);
            && (r.None? ==> forall i :: from <= i < GATES ==> Passes(GateAt(i), site, st, frame, s))
            && (r.Some? ==> from <= Rank(r.value) && !Passes(r.value, site, st, frame, s)
                            && forall i :: from <= i < Rank(r.value) ==> Passes(GateAt(i), site, st, frame, s))
    decreases GATES - from
  {
    hide Passes, Rank, GateAt;
    if from < GATES {
      FirstRefusalFrom(from + 1, site, st, frame, s);
    }
  }

  // ----- One request ----------------------------------------------------------------

  /** The pipeline got past gate `g`. */
  ghost predicate GotPast(refusal: Option<Gate>, g: Gate) {
    refusal.None? || Rank(g) < Rank(refusal.value)
  }

  ghost function RequestIn(site: Site, st: State, frame: Bytes): ExecRequest {
    OpenFrame(site.codec, st.key, frame).GetOr(
      ExecRequest([], UNKNOWN_ACTION, 0, [], 0, "", ReadOnly, "", map[], Low, true))
  }

  ghost function ManifestIn(site: Site, st: State, frame: Bytes): Manifest {
    BundleOf(site, RequestIn(site, st, frame)).GetOr(Manifest(Low, true, false, "", "", [], []))
  }

  ghost function SnapshotOf(m: Manifest, s: Surroundings): Option<string> {
    if m.mutatesPersistentState && s.snapshot.Taken? then Some(s.snapshot.id) else None
  }

  ghost function CallOf(site: Site, st: State, frame: Bytes, s: Surroundings): RunnerCall {
    var r := RequestIn(site, st, frame);
    var m := ManifestIn(site, st, frame);
    RunnerCall(frame, r.session, r.number, r.exec, m, r.args, SnapshotOf(m, s), s.now)
  }

  /** How far the pipeline got decides which parts of the state change. */
  ghost function Moved(refusal: Option<Gate>, site: Site, st: State, frame: Bytes, s: Surroundings): State {
    State(
      st.key, st.ceiling, st.limits,
      if GotPast(refusal, FreshnessGate) then st.admissions + [AttemptOf(RequestIn(site, st, frame))] else st.admissions,
      if GotPast(refusal, RateGate) then st.hits + [RateLimit.Call(s.now, KindOf(ManifestIn(site, st, frame)))] else st.hits,
      if GotPast(refusal, AllowlistGate) then s.now else st.clock,
      if refusal.None? then st.runs + [CallOf(site, st, frame, s)] else st.runs)
  }

  ghost function Replied(refusal: Option<Gate>, site: Site, st: State, frame: Bytes, s: Surroundings): Response {
    match refusal
    case None => Response(RequestIn(site, st, frame).action,
                          Completed(s.result, SnapshotOf(ManifestIn(site, st, frame), s)))
    case Some(g) => Response(if g == SignatureGate then UNKNOWN_ACTION else RequestIn(site, st, frame).action,
                             Rejected(StageOf(g)))
  }

  ghost function After(site: Site, st: State, frame: Bytes, s: Surroundings): State {
    Moved(Refusal(site, st, frame, s), site, st, frame, s)
  }

  ghost function Reply(site: Site, st: State, frame: Bytes, s: Surroundings): Response {
    Replied(Refusal(site, st, frame, s), site, st, frame, s)
  }

  /** The refusal of an authenticated request whose bundle verifies, gate by gate. */
  ghost function BundleRefusal(site: Site, st: State, r: ExecRequest, m: Manifest, s: Surroundings): Option<Gate> {
    if !Demands(ArgumentGate, site, st, r, m, s) then Some(ArgumentGate)
    else if !Demands(MutationGate, site, st, r, m, s) then Some(MutationGate)
    else if !Demands(DenylistGate, site, st, r, m, s) then Some(DenylistGate)
    else if !Demands(AllowlistGate, site, st, r, m, s) then Some(AllowlistGate)
    else if !Demands(RateGate, site, st, r, m, s) then Some(RateGate)
    else if !Demands(SnapshotGate, site, st, r, m, s) then Some(SnapshotGate)
    else if !Demands(PlanGate, site, st, r, m, s) then Some(PlanGate)
    else if !Demands(CgroupGate, site, st, r, m, s) then Some(CgroupGate)
    else None
  }

  /** The refusal spelled out along the branches of the pipeline. */
  lemma RefusalByBranch(site: Site, st: State, frame: Bytes, s: Surroundings)
    ensures Refusal(site, st, frame, s) ==
      match OpenFrame(site.codec, st.key, frame)
      case None => Some(SignatureGate)
      case Some(r) =>
        if Replay.Decide(st.admissions, AttemptOf(r)) != Replay.Admitted then Some(FreshnessGate)
        else match BundleOf(site, r)
          case None => Some(BundleGate)
          case Some(m) => BundleRefusal(site, st, r, m, s)
  {
    hide Demands, OpenFrame, BundleOf, Replay.Decide, FirstRefusal;
    FirstRefusalStep(0, site, st, frame, s);
    FirstRefusalStep(1, site, st, frame, s);
    FirstRefusalStep(2, site, st, frame, s);
    FirstRefusalStep(3, site, st, frame, s);
    FirstRefusalStep(4, site, st, frame, s);
    FirstRefusalStep(5, site, st, frame, s);
    FirstRefusalStep(6, site, st, frame, s);
    FirstRefusalStep(7, site, st, frame, s);
    FirstRefusalStep(8, site, st, frame, s);
    FirstRefusalStep(9, site, st, frame, s);
    FirstRefusalStep(10, site, st, frame, s);
    assert FirstRefusal(11, site, st, frame, s) == None by {
      NoMoreGates(site, st, frame, s);
    }
    NoDemands(site, st, frame, s);
  }

  lemma FirstRefusalStep(from: nat, site: Site, st: State, frame: Bytes, s: Surroundings)
    requires from < GATES
    ensures FirstRefusal(from, site, st, frame, s)
         == if !Passes(GateAt(from), site, st, frame, s) then Some(GateAt(from)) else FirstRefusal(from + 1, site, st, frame, s)
  {
    hide Passes;
  }

  lemma NoMoreGates(site: Site, st: State, frame: Bytes, s: Surroundings)
    ensures FirstRefusal(GATES, site, st, frame, s) == None
  {
  }

  /** The first three gates demand nothing more of a verified bundle. */
  lemma NoDemands(site: Site, st: State, frame: Bytes, s: Surroundings)
    ensures forall r, m :: Demands(BundleGate, site, st, r, m, s)
  {
  }

  lemma BundleGatesAreLate(site: Site, st: State, s: Surroundings)
    ensures forall r, m :: BundleRefusal(site, st, r, m, s) != Some(SignatureGate)
  {
    hide Demands;
  }

  // ----- The pipeline as code ---------------------------------------------------------

  /** Arguments first, then the mutation ceiling; read-only is the bundle's word, never the daemon's. */
  function CheckArgsAndMutation(site: Site, ceiling: Mode, r: ExecRequest, m: Manifest): Option<Gate> {
    if !site.argsOk(m, r.args) then Some(ArgumentGate)
    else if m.readOnly || ceiling.AllowsMutation() then None
    else Some(MutationGate)
  }

  /** Denylist and allowlist again; the need for approval is gated upstream and passes here. */
  function PolicyGate(site: Site, r: ExecRequest, m: Manifest): Option<Gate> {
    match Policy.Evaluate(site.engine, Question(r.profile, r.mode, r.exec, m))
    case Allowed => None
    case NeedsApproval(_) => None
    case Denied(_) => Some(DenylistGate)
    case NotAllowed => Some(AllowlistGate)
  }

  /** No mutation of persistent state without a recovery point. */
  function TakeSnapshot(m: Manifest, s: Surroundings): Result<Option<string>, Gate> {
    if !m.mutatesPersistentState then Ok(None)
    else if m.pathsRw == [] then Err(SnapshotGate)
    else
      match s.snapshot
      case Taken(id) => Ok(Some(id))
      case _ => Err(SnapshotGate)
  }

  /** The gates after the rate limiter. */
  ghost function LateRefusal(site: Site, m: Manifest, s: Surroundings): Option<Gate> {
    if TakeSnapshot(m, s).Err? then Some(SnapshotGate)
    else if !site.planOk(m) then Some(PlanGate)
    else if !s.cgroupOk then Some(CgroupGate)
    else None
  }

  /** The bundle's gates along the branches of the code, and the snapshot it comes with. */
  lemma BundleRefusalByBranch(site: Site, st: State, r: ExecRequest, m: Manifest, s: Surroundings)
    ensures BundleRefusal(site, st, r, m, s) ==
      match CheckArgsAndMutation(site, st.ceiling, r, m)
      case Some(g) => Some(g)
      case None =>
        match PolicyGate(site, r, m)
        case Some(g) => Some(g)
        case None =>
          if RateLimit.Decide(st.limits, st.hits, RateLimit.Call(s.now, KindOf(m))) != RateLimit.Admitted then Some(RateGate)
          else LateRefusal(site, m, s)
    ensures CheckArgsAndMutation(site, st.ceiling, r, m).Some? ==>
              Rank(BundleGate) < Rank(CheckArgsAndMutation(site, st.ceiling, r, m).value) < Rank(DenylistGate)
    ensures PolicyGate(site, r, m).Some? ==> Rank(MutationGate) < Rank(PolicyGate(site, r, m).value) <= Rank(AllowlistGate)
  {
    hide Policy.Evaluate, RateLimit.Decide, Question;
  }

  class Executor {
    const site: Site
    var key: Bytes
    var ceiling: Mode
    const replay: Replay.ReplayGuard
    var rate: RateLimit.RateLimiter
    ghost var runs: seq<RunnerCall>

    ghost function Repr(): set<object>
      reads this, rate
    {
      {this, replay} + rate.Repr
    }

    ghost predicate Valid()
      reads this, rate, Repr()
    {
      && this !in rate.Repr && replay !in rate.Repr && rate in rate.Repr
      && replay.Valid() && rate.Valid()
    }

    ghost function Now(): State
      reads this, replay, rate
    {
      State(key, ceiling, rate.limits, replay.history, rate.history, rate.clock, runs)
    }

    constructor (site: Site, key: Bytes, limits: RateLimit.RateLimits, ghost start: int)
      ensures Valid() && fresh(Repr())
      ensures this.site == site
      ensures Now() == State(key, ReadOnly, limits, [], [], start, [])
    {
      this.site, this.key := site, key;
      ceiling := ReadOnly;
      replay := new Replay.ReplayGuard();
      rate := new RateLimit.RateLimiter(limits, start);
      runs := [];
    }

    method SetModeCeiling(mode: Mode)
      requires Valid()
      modifies this`ceiling
      ensures Valid() && Now() == old(Now()).(ceiling := mode)
    {
      ceiling := mode;
    }

    method SetSessionKey(key': Bytes)
      requires Valid()
      modifies this`key
      ensures Valid() && Now() == old(Now()).(key := key')
    {
      key := key';
    }

    /** Replacing the limiter forgets its history. */
    method SetRateLimits(limits: RateLimit.RateLimits)
      requires Valid()
      modifies this`rate
      ensures Valid() && fresh(rate.Repr)
      ensures Now() == old(Now()).(limits := limits, hits := [])
    {
      rate := new RateLimit.RateLimiter(limits, rate.clock);
    }

    /** Ask the limiter; only its history and clock move. */
    method AskLimiter(now: int, kind: RateLimit.ActionClass) returns (r: RateLimit.Verdict)
      requires Valid() && rate.clock <= now
      modifies rate.Repr
      ensures Valid() && Repr() == old(Repr())
      ensures r == RateLimit.Decide(rate.limits, old(Now()).hits, RateLimit.Call(now, kind))
      ensures Now() == old(Now()).(clock := now, hits := rate.history)
      ensures rate.history == if r == RateLimit.Admitted then old(Now()).hits + [RateLimit.Call(now, kind)] else old(Now()).hits
    {
      hide RateLimit.Decide;
      r := rate.TryAdmit(now, kind);
    }

    /** Steps after the bundle is resolved: every remaining gate, then the run. */
    method RunBundle(frame: Bytes, r: ExecRequest, m: Manifest, s: Surroundings, ghost st: State) returns (response: Response)
      requires Valid() && rate.clock <= s.now
      requires Now() == Moved(Some(BundleGate), site, st, frame, s)
      requires OpenFrame(site.codec, st.key, frame) == Some(r) && BundleOf(site, r) == Some(m)
      modifies Repr()
      ensures Valid() && Repr() == old(Repr())
      ensures Now() == Moved(BundleRefusal(site, st, r, m, s), site, st, frame, s)
      ensures response == Replied(BundleRefusal(site, st, r, m, s), site, st, frame, s)
    {
      hide OpenFrame, BundleOf, Replay.Decide, RateLimit.Decide, Valid, BundleRefusal;
      hide CheckArgsAndMutation, PolicyGate, LateRefusal, KindOf, AttemptOf, SnapshotOf, CallOf;
      BundleRefusalByBranch(site, st, r, m, s);
      var refused := CheckArgsAndMutation(site, ceiling, r, m);
      if refused.Some? {
        return Response(r.action, Rejected(StageOf(refused.value)));
      }
      refused := PolicyGate(site, r, m);
      if refused.Some? {
        return Response(r.action, Rejected(StageOf(refused.value)));
      }
      var admitted := AskLimiter(s.now, KindOf(m));
      if admitted != RateLimit.Admitted {
        return Response(r.action, Rejected(RateLimited));
      }
      response := RunAdmitted(frame, r, m, s, st);
    }

    /** The gates after the rate limiter change no guard; only a run that passes them all is recorded. */
    method RunAdmitted(frame: Bytes, r: ExecRequest, m: Manifest, s: Surroundings, ghost st: State) returns (response: Response)
      requires Valid()
      requires Now() == Moved(Some(SnapshotGate), site, st, frame, s)
      requires OpenFrame(site.codec, st.key, frame) == Some(r) && BundleOf(site, r) == Some(m)
      modifies this`runs
      ensures Valid()
      ensures Now() == Moved(LateRefusal(site, m, s), site, st, frame, s)
      ensures response == Replied(LateRefusal(site, m, s), site, st, frame, s)
    {
      hide OpenFrame, BundleOf, KindOf, AttemptOf, Replay.ReplayGuard.Valid, RateLimit.RateLimiter.Valid;
      var snapshot := TakeSnapshot(m, s);
      if snapshot.Err? {
        return Response(r.action, Rejected(StageOf(snapshot.error)));
      }
      if !site.planOk(m) {
        return Response(r.action, Rejected(SandboxRejected));
      }
      if !s.cgroupOk {
        return Response(r.action, Rejected(SandboxRejected));
      }
      runs := runs + [CallOf(site, st, frame, s)];
      response := Response(r.action, Completed(s.result, snapshot.value));
    }

    /** Run one request end to end: the first gate that refuses ends it. */
    method Handle(frame: Bytes, s: Surroundings) returns (response: Response)
      requires Valid() && rate.clock <= s.now
      modifies Repr()
      ensures Valid() && Repr() == old(Repr())
      ensures Now() == After(site, old(Now()), frame, s)
      ensures response == Reply(site, old(Now()), frame, s)
    {
      hide Passes, Refusal, OpenFrame, BundleOf, BundleRefusal, Replay.Decide;
      ghost var st := Now();
      RefusalByBranch(site, st, frame, s);
      var request := OpenFrame(site.codec, key, frame);
      if request.None? {
        return Response(UNKNOWN_ACTION, Rejected(SignatureInvalid));
      }
      var r := request.value;
      var freshness := replay.Admit(r.session, r.number, r.nonce);
      if freshness != Replay.Admitted {
        return Response(r.action, Rejected(ReplayStage));
      }
      var bundle := BundleOf(site, r);
      if bundle.None? {
        return Response(r.action, Rejected(BundleUnverified));
      }
      response := RunBundle(frame, r, bundle.value, s, st);
    }
  }
}

/**
 The host-wide blast-rate limiter of the executor.

 Three pruned deques (every action and every mutating action per minute,
 critical actions per hour) against a specification that counts over the whole
 history of admissions. Times are nanoseconds of a monotone clock.
 */
module RateLimit {
  import opened Common

  const SECOND: nat := 1_000_000_000
  const MINUTE: nat := 60 * SECOND
  const HOUR: nat := 3600 * SECOND

  datatype RateLimits = RateLimits(total: nat, mutating: nat, critical: nat)

  datatype ActionClass = ActionClass(mutating: bool, critical: bool)

  /** The three ceilings, in the order in which a refusal names them. */
  datatype Ceiling = TotalPerMinute | MutatingPerMinute | CriticalPerHour

  datatype Verdict = Admitted | Shed(ceiling: Ceiling)

  /** An admission (or a request for one) at a point in time. */
  datatype Call = Call(now: int, kind: ActionClass)

  // ----- Specification over the full history -------------------------------

  predicate Applies(c: Ceiling, kind: ActionClass) {
    match c
    case TotalPerMinute => true
    case MutatingPerMinute => kind.mutating
    case CriticalPerHour => kind.critical
  }

  function Horizon(c: Ceiling): (h: nat) {
    if c == CriticalPerHour then HOUR else MINUTE
  }

  function Max(limits: RateLimits, c: Ceiling): nat {
    match c
    case TotalPerMinute => limits.total
    case MutatingPerMinute => limits.mutating
    case CriticalPerHour => limits.critical
  }

  /** The times of the admissions a ceiling counts. */
  ghost function Times(history: seq<Call>, c: Ceiling): seq<int> {
    if history == [] then [] else
      var n := |history| - 1;
      Times(history[..n], c) + if Applies(c, history[n].kind) then [history[n].now] else []
  }

  /** How many of `times` lie in the half-open interval from `lo` up to `hi`. */
  ghost function CountIn(times: seq<int>, lo: int, hi: int): nat {
    if times == [] then 0 else
      var n := |times| - 1;
      CountIn(times[..n], lo, hi) + if lo <= times[n] < hi then 1 else 0
  }

  /** Admissions under `c` that are less than one horizon old at `now`. */
  ghost function Live(history: seq<Call>, c: Ceiling, now: int): nat {
    CountIn(Times(history, c), now - Horizon(c) + 1, now + 1)
  }

  ghost predicate Exceeded(limits: RateLimits, history: seq<Call>, c: Ceiling, call: Call) {
    Applies(c, call.kind) && Live(history, c, call.now) >= Max(limits, c)
  }

  /** The first exceeded ceiling sheds the call; otherwise it is admitted. */
  ghost function Decide(limits: RateLimits, history: seq<Call>, call: Call): Verdict {
    if Exceeded(limits, history, TotalPerMinute, call) then Shed(TotalPerMinute)
    else if Exceeded(limits, history, MutatingPerMinute, call) then Shed(MutatingPerMinute)
    else if Exceeded(limits, history, CriticalPerHour, call) then Shed(CriticalPerHour)
    else Admitted
  }

  ghost function Extend(limits: RateLimits, history: seq<Call>, call: Call): seq<Call> {
    if Decide(limits, history, call) == Admitted then history + [call] else history
  }

  /** The admissions left by a whole run of calls, from an empty limiter. */
  ghost function Run(limits: RateLimits, calls: seq<Call>): seq<Call> {
    if calls == [] then [] else
      var n := |calls| - 1;
      Extend(limits, Run(limits, calls[..n]), calls[n])
  }

  ghost predicate Monotone(calls: seq<Call>) {
    forall i, j :: 0 <= i < j < |calls| ==> calls[i].now <= calls[j].now
  }

  ghost predicate NotAfter(calls: seq<Call>, now: int) {
    forall i :: 0 <= i < |calls| ==> calls[i].now <= now
  }

  // ----- The ceilings hold over every interval of every run ----------------

  /** Admissions under `c` in the half-open interval of one horizon from `start`. */
  ghost function Burst(history: seq<Call>, c: Ceiling, start: int): nat {
    CountIn(Times(history, c), start, start + Horizon(c))
  }

  /** Every interval as long as the horizon of `c` holds at most the maximum of `c`. */
  ghost predicate WithinCeiling(limits: RateLimits, history: seq<Call>, c: Ceiling) {
    forall start: int :: Burst(history, c, start) <= Max(limits, c)
  }

  ghost predicate WithinCeilings(limits: RateLimits, history: seq<Call>) {
    forall c: Ceiling :: WithinCeiling(limits, history, c)
  }

  lemma {:induction false} CountInWidens(times: seq<int>, lo: int, hi: int, lo': int, hi': int)
    requires forall i :: 0 <= i < |times| && lo <= times[i] < hi ==> lo' <= times[i] < hi'
    ensures CountIn(times, lo, hi) <= CountIn(times, lo', hi')
  {
    if times != [] {
      var n := |times| - 1;
      assert forall i :: 0 <= i < n ==> times[..n][i] == times[i];
      CountInWidens(times[..n], lo, hi, lo', hi');
    }
  }

  lemma {:induction false} TimesBounded(history: seq<Call>, c: Ceiling, now: int)
    requires NotAfter(history, now)
    ensures forall i :: 0 <= i < |Times(history, c)| ==> Times(history, c)[i] <= now
  {
    if history != [] {
      TimesBounded(history[..|history| - 1], c, now);
    }
  }

  lemma TimesSnoc(history: seq<Call>, call: Call, c: Ceiling)
    ensures Times(history + [call], c) == Times(history, c) + if Applies(c, call.kind) then [call.now] else []
  {
    assert (history + [call])[..|history|] == history;
  }

  lemma CountInSnoc(times: seq<int>, t: int, lo: int, hi: int)
    ensures CountIn(times + [t], lo, hi) == CountIn(times, lo, hi) + if lo <= t < hi then 1 else 0
  {
    assert (times + [t])[..|times|] == times;
  }

  /** An admission inside an interval found the interval's earlier part below the maximum. */
  lemma BurstAfterAdmission(limits: RateLimits, history: seq<Call>, call: Call, c: Ceiling, start: int)
    requires Burst(history, c, start) <= Max(limits, c)
    requires NotAfter(history, call.now)
    requires !Exceeded(limits, history, c, call)
    ensures Burst(history + [call], c, start) <= Max(limits, c)
  {
    TimesSnoc(history, call, c);
    if Applies(c, call.kind) {
      var ts := Times(history, c);
      CountInSnoc(ts, call.now, start, start + Horizon(c));
      if start <= call.now < start + Horizon(c) {
        TimesBounded(history, c, call.now);
        CountInWidens(ts, start, start + Horizon(c), call.now - Horizon(c) + 1, call.now + 1);
      }
    } else {
      assert Times(history, c) + [] == Times(history, c);
    }
  }

  lemma ExtendKeepsCeilings(limits: RateLimits, history: seq<Call>, call: Call)
    requires WithinCeilings(limits, history) && NotAfter(history, call.now)
    ensures WithinCeilings(limits, Extend(limits, history, call))
  {
    if Decide(limits, history, call) == Admitted {
      forall c: Ceiling ensures WithinCeiling(limits, history + [call], c) {
        assert WithinCeiling(limits, history, c);
        forall start: int ensures Burst(history + [call], c, start) <= Max(limits, c) {
          BurstAfterAdmission(limits, history, call, c, start);
        }
      }
    }
  }

  lemma {:induction false} RunFromCalls(limits: RateLimits, calls: seq<Call>)
    ensures forall i :: 0 <= i < |Run(limits, calls)| ==> Run(limits, calls)[i] in calls
  {
    if calls != [] {
      RunFromCalls(limits, calls[..|calls| - 1]);
    }
  }

  /**
   Over every run of calls on a monotone clock, every half-open minute holds at
   most the configured number of admissions and of mutating admissions, and every
   half-open hour at most the configured number of critical ones.
   */
  lemma {:induction false} RunWithinCeilings(limits: RateLimits, calls: seq<Call>)
    requires Monotone(calls)
    ensures WithinCeilings(limits, Run(limits, calls))
  {
    if calls == [] {
      forall c: Ceiling ensures WithinCeiling(limits, [], c) {
        assert Times([], c) == [];
      }
    } else {
      var n := |calls| - 1;
      RunWithinCeilings(limits, calls[..n]);
      RunFromCalls(limits, calls[..n]);
      ExtendKeepsCeilings(limits, Run(limits, calls[..n]), calls[n]);
    }
  }

  // ----- Refusals leave no trace -------------------------------------------

  /** `calls` with every refused call erased. */
  ghost function Accepted(limits: RateLimits, calls: seq<Call>): seq<Call> {
    Run(limits, calls)
  }

  /** Erasing all refused calls changes neither the admissions nor any later verdict. */
  lemma {:induction false} RefusalsLeaveNoTrace(limits: RateLimits, calls: seq<Call>)
    ensures Run(limits, Accepted(limits, calls)) == Run(limits, calls)
  {
    if calls != [] {
      var n := |calls| - 1;
      var earlier := Run(limits, calls[..n]);
      RefusalsLeaveNoTrace(limits, calls[..n]);
      if Decide(limits, earlier, calls[n]) == Admitted {
        assert (earlier + [calls[n]])[..|earlier|] == earlier;
      }
    }
  }

  lemma LaterVerdictsUnchanged(limits: RateLimits, calls: seq<Call>, later: seq<Call>, call: Call)
    ensures Decide(limits, Run(limits, Accepted(limits, calls) + later), call)
         == Decide(limits, Run(limits, calls + later), call)
  {
    SameRunAfter(limits, Accepted(limits, calls), calls, later);
  }

  lemma {:induction false} SameRunAfter(limits: RateLimits, short: seq<Call>, long: seq<Call>, later: seq<Call>)
    requires short == Accepted(limits, long)
    ensures Run(limits, short + later) == Run(limits, long + later)
  {
    if later == [] {
      assert short + later == short && long + later == long;
      RefusalsLeaveNoTrace(limits, long);
    } else {
      var n := |later| - 1;
      assert (short + later)[..|short + later| - 1] == short + later[..n];
      assert (long + later)[..|long + later| - 1] == long + later[..n];
      SameRunAfter(limits, short, long, later[..n]);
    }
  }

  // ----- The pruned deques -------------------------------------------------

  /** `hits` is what is left of `times` after dropping only aged-out entries. */
  ghost predicate Tracks(hits: seq<int>, times: seq<int>, horizon: nat, clock: int) {
    && |hits| <= |times|
    && (forall i :: 0 <= i < |hits| ==> hits[i] == times[|times| - |hits| + i])
    && (forall i :: 0 <= i < |times| - |hits| ==> clock - times[i] >= horizon)
  }

  ghost predicate Ascending(times: seq<int>) {
    forall i, j :: 0 <= i < j < |times| ==> times[i] <= times[j]
  }

  ghost predicate AllLive(hits: seq<int>, horizon: nat, now: int) {
    forall i :: 0 <= i < |hits| ==> Age(now, hits[i]) < horizon
  }

  lemma {:induction false} CountInAll(times: seq<int>, k: nat, lo: int, hi: int)
    requires k <= |times|
    requires forall i :: 0 <= i < k ==> !(lo <= times[i] < hi)
    requires forall i :: k <= i < |times| ==> lo <= times[i] < hi
    ensures CountIn(times, lo, hi) == |times| - k
  {
    if times != [] {
      var n := |times| - 1;
      if k <= n {
        CountInAll(times[..n], k, lo, hi);
      } else {
        CountInAll(times[..n], n, lo, hi);
      }
    }
  }

  /** After pruning at `now`, the length of the deque is the count over the full history. */
  lemma PrunedLengthIsLive(hits: seq<int>, times: seq<int>, horizon: nat, now: int)
    requires Tracks(hits, times, horizon, now) && AllLive(hits, horizon, now)
    requires forall i :: 0 <= i < |times| ==> times[i] <= now
    ensures |hits| == CountIn(times, now - horizon + 1, now + 1)
  {
    var k := |times| - |hits|;
    forall i | k <= i < |times| ensures now - horizon + 1 <= times[i] < now + 1 {
      assert times[i] == hits[i - k];
    }
    CountInAll(times, k, now - horizon + 1, now + 1);
  }

  /** Pruning a right deque leaves a right deque. */
  lemma PruneKeepsTracks(earlier: seq<int>, hits: seq<int>, times: seq<int>, horizon: nat, clock: int, now: int)
    requires Tracks(earlier, times, horizon, clock) && clock <= now
    requires |hits| <= |earlier| && hits == earlier[|earlier| - |hits|..]
    requires forall i :: 0 <= i < |earlier| - |hits| ==> Age(now, earlier[i]) >= horizon
    requires forall i :: 0 <= i < |times| ==> times[i] <= now
    ensures Tracks(hits, times, horizon, now)
  {
    forall i | 0 <= i < |times| - |hits| ensures now - times[i] >= horizon {
      var k := |times| - |earlier|;
      if i >= k {
        assert earlier[i - k] == times[i];
      }
    }
  }

  lemma TracksAscending(hits: seq<int>, times: seq<int>, horizon: nat, clock: int)
    requires Tracks(hits, times, horizon, clock) && Ascending(times)
    ensures Ascending(hits)
  {
  }

  lemma {:induction false} TimesAscending(history: seq<Call>, c: Ceiling)
    requires Monotone(history)
    ensures Ascending(Times(history, c))
  {
    if history != [] {
      var n := |history| - 1;
      TimesAscending(history[..n], c);
      TimesBounded(history[..n], c, history[n].now);
    }
  }

  /** The deque of a ceiling is right for the history as of `clock`, and within its maximum. */
  ghost predicate Counts(hits: seq<int>, history: seq<Call>, c: Ceiling, max: nat, clock: int) {
    Tracks(hits, Times(history, c), Horizon(c), clock) && |hits| <= max
  }

  lemma CountsLater(hits: seq<int>, history: seq<Call>, c: Ceiling, max: nat, clock: int, now: int)
    requires Counts(hits, history, c, max, clock) && clock <= now
    ensures Counts(hits, history, c, max, now)
  {
  }

  lemma CountsRecord(hits: seq<int>, history: seq<Call>, c: Ceiling, max: nat, call: Call)
    requires Counts(hits, history, c, max, call.now)
    requires Applies(c, call.kind) ==> |hits| < max
    ensures Counts(if Applies(c, call.kind) then hits + [call.now] else hits, history + [call], c, max, call.now)
  {
    TimesSnoc(history, call, c);
  }

  /** The deque of one ceiling. */
  class Window {
    const ceiling: Ceiling
    const max: nat
    var hits: seq<int>

    constructor (ceiling: Ceiling, max: nat)
      ensures this.ceiling == ceiling && this.max == max && hits == []
    {
      this.ceiling, this.max, hits := ceiling, max, [];
    }

    /** Only the aged-out front goes. */
    method Prune(now: int)
      requires Ascending(hits)
      modifies this
      ensures |hits| <= |old(hits)| && hits == old(hits)[|old(hits)| - |hits|..]
      ensures forall i :: 0 <= i < |old(hits)| - |hits| ==> Age(now, old(hits)[i]) >= Horizon(ceiling)
      ensures AllLive(hits, Horizon(ceiling), now)
    {
      while hits != []
        invariant |hits| <= |old(hits)| && hits == old(hits)[|old(hits)| - |hits|..]
        invariant forall i :: 0 <= i < |old(hits)| - |hits| ==> Age(now, old(hits)[i]) >= Horizon(ceiling)
        decreases |hits|
      {
        if Age(now, hits[0]) >= Horizon(ceiling) {
          hits := hits[1..];
        } else {
          break;
        }
      }
    }

    /** Whether the ceiling is reached, judged on what is left after pruning. */
    method IsFull(now: int, ghost history: seq<Call>, ghost clock: int) returns (full: bool)
      requires Counts(hits, history, ceiling, max, clock) && clock <= now
      requires Monotone(history) && NotAfter(history, now)
      modifies this
      ensures Counts(hits, history, ceiling, max, now)
      ensures full <==> Live(history, ceiling, now) >= max
      ensures |hits| == Live(history, ceiling, now)
    {
      TimesAscending(history, ceiling);
      TimesBounded(history, ceiling, now);
      ghost var times, before := Times(history, ceiling), hits;
      TracksAscending(hits, times, Horizon(ceiling), clock);
      Prune(now);
      PruneKeepsTracks(before, hits, times, Horizon(ceiling), clock, now);
      PrunedLengthIsLive(hits, times, Horizon(ceiling), now);
      full := |hits| >= max;
    }

    method Record(now: int)
      modifies this
      ensures hits == old(hits) + [now]
    {
      hits := hits + [now];
    }
  }

  /** The limiter: one window a ceiling, and the ghost history of its admissions. */
  class RateLimiter {
    const total: Window
    const mutating: Window
    const critical: Window
    ghost const limits: RateLimits
    ghost var history: seq<Call>
    /** The latest time at which the limiter was asked. */
    ghost var clock: int

    ghost const Repr: set<object>

    ghost predicate Shape() {
      && Repr == {this, total, mutating, critical}
      && total != mutating && total != critical && mutating != critical
      && total.ceiling == TotalPerMinute && total.max == limits.total
      && mutating.ceiling == MutatingPerMinute && mutating.max == limits.mutating
      && critical.ceiling == CriticalPerHour && critical.max == limits.critical
    }

    ghost predicate Valid()
      reads this, Repr
    {
      && Shape()
      && Monotone(history) && NotAfter(history, clock)
      && Counts(total.hits, history, TotalPerMinute, limits.total, clock)
      && Counts(mutating.hits, history, MutatingPerMinute, limits.mutating, clock)
      && Counts(critical.hits, history, CriticalPerHour, limits.critical, clock)
    }

    constructor (limits: RateLimits, ghost start: int)
      ensures Valid() && fresh(Repr)
      ensures this.limits == limits && history == [] && clock == start
    {
      total := new Window(TotalPerMinute, limits.total);
      mutating := new Window(MutatingPerMinute, limits.mutating);
      critical := new Window(CriticalPerHour, limits.critical);
      this.limits, history, clock := limits, [], start;
      Repr := {this, total, mutating, critical};
    }

    /** The windows stay right as time passes. */
    ghost method Advance(now: int)
      requires Valid() && clock <= now
      modifies this`clock
      ensures Valid() && clock == now
    {
      CountsLater(total.hits, history, TotalPerMinute, limits.total, clock, now);
      CountsLater(mutating.hits, history, MutatingPerMinute, limits.mutating, clock, now);
      CountsLater(critical.hits, history, CriticalPerHour, limits.critical, clock, now);
      clock := now;
    }

    /**
     Pruned deques answer for the whole history: the verdict, and on admission the new
     history, are those of the specification.
     */
    method TryAdmit(now: int, kind: ActionClass) returns (r: Verdict)
      requires Valid() && clock <= now
      modifies Repr
      ensures Valid() && clock == now
      ensures r == Decide(limits, old(history), Call(now, kind))
      ensures history == Extend(limits, old(history), Call(now, kind))
    {
      hide Live, Counts, Monotone, NotAfter;
      Advance(now);
      var full := total.IsFull(now, history, clock);
      if full {
        return Shed(TotalPerMinute);
      }
      if kind.mutating {
        full := mutating.IsFull(now, history, clock);
        if full {
          return Shed(MutatingPerMinute);
        }
      }
      if kind.critical {
        full := critical.IsFull(now, history, clock);
        if full {
          return Shed(CriticalPerHour);
        }
      }
      RecordAll(now, kind);
      r := Admitted;
    }

    /** Record an admission in every window that counts it. */
    method RecordAll(now: int, kind: ActionClass)
      requires Valid() && clock == now
      requires |total.hits| < total.max
      requires kind.mutating ==> |mutating.hits| < mutating.max
      requires kind.critical ==> |critical.hits| < critical.max
      modifies Repr
      ensures Valid() && clock == now
      ensures history == old(history) + [Call(now, kind)]
    {
      hide Counts;
      ghost var call := Call(now, kind);
      CountsRecord(total.hits, history, TotalPerMinute, limits.total, call);
      CountsRecord(mutating.hits, history, MutatingPerMinute, limits.mutating, call);
      CountsRecord(critical.hits, history, CriticalPerHour, limits.critical, call);
      total.Record(now);
      if kind.mutating {
        mutating.Record(now);
      }
      if kind.critical {
        critical.Record(now);
      }
      history := history + [call];
    }
  }
}

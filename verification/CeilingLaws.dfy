/** The rate ceilings in plain numbers: so many admissions, and runner calls, in any minute or hour of nanoseconds. */
module CeilingLaws {
  import opened Common
  import opened Events
  import opened Wire
  import opened Execd
  import opened ExecdRuns
  import opened RateLimit

  // ----- Counting by positions ---------------------------------------------------------

  ghost function Places(history: seq<Call>, c: Ceiling, lo: int, hi: int): set<int> {
    set i | 0 <= i < |history| && Applies(c, history[i].kind) && lo <= history[i].now < hi
  }

  lemma {:induction false} PlacesCount(history: seq<Call>, c: Ceiling, lo: int, hi: int)
    ensures |Places(history, c, lo, hi)| == CountIn(Times(history, c), lo, hi)
  {
    hide Applies, CountIn, Places;
    if history == [] {
      NoPlaces(c, lo, hi);
    } else {
      var n := |history| - 1;
      PlacesCount(history[..n], c, lo, hi);
      PlacesSnoc(history, c, lo, hi);
      var before := Times(history[..n], c);
      assert before + [] == before;
      CountInSnoc(before, history[n].now, lo, hi);
    }
  }

  lemma NoPlaces(c: Ceiling, lo: int, hi: int)
    ensures Places([], c, lo, hi) == {} && CountIn([], lo, hi) == 0
    ensures RunPlaces([], c, lo, hi) == {}
  {
  }

  lemma PlacesSnoc(history: seq<Call>, c: Ceiling, lo: int, hi: int)
    requires history != []
    ensures var n := |history| - 1;
            |Places(history, c, lo, hi)| == |Places(history[..n], c, lo, hi)|
              + if Applies(c, history[n].kind) && lo <= history[n].now < hi then 1 else 0
  {
    hide Applies;
    var n := |history| - 1;
    var before := Places(history[..n], c, lo, hi);
    if Applies(c, history[n].kind) && lo <= history[n].now < hi {
      assert Places(history, c, lo, hi) == before + {n};
    } else {
      assert Places(history, c, lo, hi) == before;
    }
  }

  /**
   Over every run on a monotone clock: any 60 seconds hold at most the configured number
   of admissions and of mutating admissions, and any 3600 seconds at most the configured
   number of critical admissions.
   */
  lemma RunKeepsCeilings(limits: RateLimits, calls: seq<Call>, start: int)
    requires forall i, j :: 0 <= i < j < |calls| ==> calls[i].now <= calls[j].now
    ensures var h := RateLimit.Run(limits, calls);
            && |set i | 0 <= i < |h| && start <= h[i].now < start + 60_000_000_000| <= limits.total
            && |set i | 0 <= i < |h| && h[i].kind.mutating && start <= h[i].now < start + 60_000_000_000| <= limits.mutating
            && |set i | 0 <= i < |h| && h[i].kind.critical && start <= h[i].now < start + 3_600_000_000_000| <= limits.critical
  {
    hide RateLimit.Run;
    var h := RateLimit.Run(limits, calls);
    PlacesWithin(limits, calls, TotalPerMinute, start);
    PlacesWithin(limits, calls, MutatingPerMinute, start);
    PlacesWithin(limits, calls, CriticalPerHour, start);
    assert Places(h, TotalPerMinute, start, start + 60_000_000_000)
        == set i | 0 <= i < |h| && start <= h[i].now < start + 60_000_000_000;
    assert Places(h, MutatingPerMinute, start, start + 60_000_000_000)
        == set i | 0 <= i < |h| && h[i].kind.mutating && start <= h[i].now < start + 60_000_000_000;
    assert Places(h, CriticalPerHour, start, start + 3_600_000_000_000)
        == set i | 0 <= i < |h| && h[i].kind.critical && start <= h[i].now < start + 3_600_000_000_000;
  }

  lemma PlacesWithin(limits: RateLimits, calls: seq<Call>, c: Ceiling, start: int)
    requires Monotone(calls)
    ensures |Places(RateLimit.Run(limits, calls), c, start, start + Horizon(c))| <= Max(limits, c)
  {
    hide RateLimit.Run, Times, CountIn, Places;
    var h := RateLimit.Run(limits, calls);
    RunWithinCeilings(limits, calls);
    PlacesCount(h, c, start, start + Horizon(c));
    assert WithinCeiling(limits, h, c);
    assert Burst(h, c, start) <= Max(limits, c);
  }

  /**
   A call is shed exactly when the trailing minute holds the configured number of
   admissions, or it mutates and the minute holds so many mutating ones, or it is critical
   and the hour holds so many critical ones; the first of these is the one named.
   */
  lemma DecideByCounting(limits: RateLimits, h: seq<Call>, call: Call)
    requires forall i :: 0 <= i < |h| ==> h[i].now <= call.now
    ensures var total := |set i | 0 <= i < |h| && call.now - h[i].now < 60_000_000_000|;
            var mutating := |set i | 0 <= i < |h| && h[i].kind.mutating && call.now - h[i].now < 60_000_000_000|;
            var critical := |set i | 0 <= i < |h| && h[i].kind.critical && call.now - h[i].now < 3_600_000_000_000|;
            Decide(limits, h, call) ==
              if total >= limits.total then Shed(TotalPerMinute)
              else if call.kind.mutating && mutating >= limits.mutating then Shed(MutatingPerMinute)
              else if call.kind.critical && critical >= limits.critical then Shed(CriticalPerHour)
              else Admitted
  {
    hide Times, CountIn;
    var lo, hi := call.now - 60_000_000_000 + 1, call.now + 1;
    forall c: Ceiling ensures Live(h, c, call.now) == |Places(h, c, call.now - Horizon(c) + 1, hi)| {
      PlacesCount(h, c, call.now - Horizon(c) + 1, hi);
    }
    assert Places(h, TotalPerMinute, lo, hi) == set i | 0 <= i < |h| && call.now - h[i].now < 60_000_000_000;
    assert Places(h, MutatingPerMinute, lo, hi)
        == set i | 0 <= i < |h| && h[i].kind.mutating && call.now - h[i].now < 60_000_000_000;
    assert Places(h, CriticalPerHour, call.now - 3_600_000_000_000 + 1, hi)
        == set i | 0 <= i < |h| && h[i].kind.critical && call.now - h[i].now < 3_600_000_000_000;
  }

  // ----- Runner calls --------------------------------------------------------------------

  ghost function RunPlaces(runs: seq<RunnerCall>, c: Ceiling, lo: int, hi: int): set<int> {
    set i | 0 <= i < |runs| && Applies(c, KindOf(runs[i].manifest)) && lo <= runs[i].at < hi
  }

  lemma {:induction false} RunPlacesCount(runs: seq<RunnerCall>, c: Ceiling, lo: int, hi: int)
    ensures |RunPlaces(runs, c, lo, hi)| == CountIn(RunTimes(runs, c), lo, hi)
  {
    hide Applies, KindOf, CountIn, RunPlaces;
    if runs == [] {
      NoPlaces(c, lo, hi);
    } else {
      var n := |runs| - 1;
      RunPlacesCount(runs[..n], c, lo, hi);
      RunPlacesSnoc(runs, c, lo, hi);
      var before := RunTimes(runs[..n], c);
      assert before + [] == before;
      CountInSnoc(before, runs[n].at, lo, hi);
    }
  }

  lemma RunPlacesSnoc(runs: seq<RunnerCall>, c: Ceiling, lo: int, hi: int)
    requires runs != []
    ensures var n := |runs| - 1;
            |RunPlaces(runs, c, lo, hi)| == |RunPlaces(runs[..n], c, lo, hi)|
              + if Applies(c, KindOf(runs[n].manifest)) && lo <= runs[n].at < hi then 1 else 0
  {
    hide Applies, KindOf;
    var n := |runs| - 1;
    var before, now := RunPlaces(runs[..n], c, lo, hi), RunPlaces(runs, c, lo, hi);
    forall i ensures i in before <==> i in now && i != n {
      if 0 <= i < n {
        assert runs[..n][i] == runs[i];
      }
    }
    if Applies(c, KindOf(runs[n].manifest)) && lo <= runs[n].at < hi {
      assert now == before + {n};
    } else {
      assert now == before;
    }
  }

  lemma RunPlacesWithin(site: Site, st: State, inputs: seq<Input>, c: Ceiling, start: int)
    requires Fresh(st) && Timely(inputs, st.clock)
    ensures |RunPlaces(ExecdRuns.Run(site, st, inputs).runs, c, start, start + Horizon(c))| <= Max(st.limits, c)
  {
    hide ExecdRuns.Run, RunTimes, CountIn, RunPlaces;
    RunPlacesCount(ExecdRuns.Run(site, st, inputs).runs, c, start, start + Horizon(c));
    RunnerCallsWithinCeilings(site, st, inputs, c, start);
  }

  /**
   Whatever the daemon sends, on a monotone clock: any 60 seconds see at most the
   configured number of runner calls, and of calls for bundles that are not read-only, and
   any 3600 seconds at most the configured number of calls for critical bundles.
   */
  lemma RunnerKeepsCeilings(site: Site, st: State, inputs: seq<Input>, start: int)
    requires Fresh(st) && Timely(inputs, st.clock)
    ensures var runs := ExecdRuns.Run(site, st, inputs).runs;
            && |set i | 0 <= i < |runs| && start <= runs[i].at < start + 60_000_000_000| <= st.limits.total
            && |set i | 0 <= i < |runs| && !runs[i].manifest.readOnly && start <= runs[i].at < start + 60_000_000_000|
               <= st.limits.mutating
            && |set i | 0 <= i < |runs| && runs[i].manifest.risk == Critical
                        && start <= runs[i].at < start + 3_600_000_000_000|
               <= st.limits.critical
  {
    hide ExecdRuns.Run, Fresh, Timely;
    var runs := ExecdRuns.Run(site, st, inputs).runs;
    RunPlacesWithin(site, st, inputs, TotalPerMinute, start);
    RunPlacesWithin(site, st, inputs, MutatingPerMinute, start);
    RunPlacesWithin(site, st, inputs, CriticalPerHour, start);
    assert RunPlaces(runs, TotalPerMinute, start, start + 60_000_000_000)
        == set i | 0 <= i < |runs| && start <= runs[i].at < start + 60_000_000_000;
    assert RunPlaces(runs, MutatingPerMinute, start, start + 60_000_000_000)
        == set i | 0 <= i < |runs| && !runs[i].manifest.readOnly && start <= runs[i].at < start + 60_000_000_000;
    assert RunPlaces(runs, CriticalPerHour, start, start + 3_600_000_000_000)
        == set i | 0 <= i < |runs| && runs[i].manifest.risk == Critical && start <= runs[i].at < start + 3_600_000_000_000;
  }

  /** And a request is shed for its rate exactly when that many admissions are that recent. */
  lemma ShedByCounting(limits: RateLimits, h: seq<Call>, now: int, m: Manifest)
    requires forall i :: 0 <= i < |h| ==> h[i].now <= now
    ensures Decide(limits, h, Call(now, KindOf(m))) != Admitted
       <==> || |set i | 0 <= i < |h| && now - h[i].now < 60_000_000_000| >= limits.total
            || (!m.readOnly
                && |set i | 0 <= i < |h| && h[i].kind.mutating && now - h[i].now < 60_000_000_000| >= limits.mutating)
            || (m.risk == Critical
                && |set i | 0 <= i < |h| && h[i].kind.critical && now - h[i].now < 3_600_000_000_000| >= limits.critical)
  {
    hide Decide;
    DecideByCounting(limits, h, Call(now, KindOf(m)));
  }
}

/**
 The autonomous loop's anti-runaway rail: a cooldown gate whose map is pruned on
 every call, against a gate that never forgets. Times are nanoseconds of a
 monotone clock.
 */
module Cooldown {
  import opened Common

  /** One question to the gate, or one firing it let through. */
  datatype Firing = Firing(now: int, key: string)

  // ----- Specification: a gate that never forgets --------------------------

  ghost predicate Suppressed(history: seq<Firing>, window: nat, f: Firing) {
    exists i :: 0 <= i < |history| && history[i].key == f.key && Age(f.now, history[i].now) < window
  }

  ghost function Extend(history: seq<Firing>, window: nat, f: Firing): seq<Firing> {
    if Suppressed(history, window, f) then history else history + [f]
  }

  /** The firings left by a whole run of questions, from an empty gate. */
  ghost function Run(window: nat, asked: seq<Firing>): seq<Firing> {
    if asked == [] then [] else
      var n := |asked| - 1;
      Extend(Run(window, asked[..n]), window, asked[n])
  }

  ghost predicate NotAfter(history: seq<Firing>, now: int) {
    forall i :: 0 <= i < |history| ==> history[i].now <= now
  }

  ghost predicate Monotone(asked: seq<Firing>) {
    forall i, j :: 0 <= i < j < |asked| ==> asked[i].now <= asked[j].now
  }

  /** Firings of one key are at least a window apart. */
  ghost predicate Spaced(history: seq<Firing>, window: nat) {
    forall i, j :: 0 <= i < j < |history| && history[i].key == history[j].key
                   ==> history[j].now - history[i].now >= window
  }

  lemma {:induction false} RunFromAsked(window: nat, asked: seq<Firing>)
    ensures forall i :: 0 <= i < |Run(window, asked)| ==> Run(window, asked)[i] in asked
  {
    if asked != [] {
      RunFromAsked(window, asked[..|asked| - 1]);
    }
  }

  /** Over every run on a monotone clock, firings of one key are at least a window apart. */
  lemma {:induction false} RunIsSpaced(window: nat, asked: seq<Firing>)
    requires Monotone(asked)
    ensures Spaced(Run(window, asked), window)
  {
    if asked != [] {
      var n := |asked| - 1;
      RunIsSpaced(window, asked[..n]);
      RunFromAsked(window, asked[..n]);
      var earlier := Run(window, asked[..n]);
      forall i | 0 <= i < |earlier| ensures earlier[i].now <= asked[n].now {
        assert earlier[i] in asked[..n];
      }
    }
  }

  // ----- The pruning gate ---------------------------------------------------

  /** `last` holds exactly the keys that fired less than a window before `now`, at their last firing. */
  ghost predicate HoldsLive(last: map<string, int>, history: seq<Firing>, window: nat, now: int) {
    && (forall k :: k in last ==> Age(now, last[k]) < window && Firing(last[k], k) in history)
    && (forall i :: 0 <= i < |history| && Age(now, history[i].now) < window
          ==> history[i].key in last && history[i].now <= last[history[i].key])
  }

  /** As `HoldsLive` at the time of the last call, plus the key that call admitted, if it did. */
  ghost predicate Tracks(last: map<string, int>, history: seq<Firing>, window: nat, clock: int) {
    && NotAfter(history, clock)
    && (forall k :: k in last ==> Firing(last[k], k) in history && (Age(clock, last[k]) < window || last[k] == clock))
    && (forall i :: 0 <= i < |history| && Age(clock, history[i].now) < window
          ==> history[i].key in last && history[i].now <= last[history[i].key])
  }

  ghost predicate LiveKey(history: seq<Firing>, window: nat, now: int, k: string) {
    exists i :: 0 <= i < |history| && history[i].key == k && Age(now, history[i].now) < window
  }

  lemma TrackedKeysAreLive(last: map<string, int>, history: seq<Firing>, window: nat, now: int)
    requires HoldsLive(last, history, window, now)
    ensures forall k :: k in last <==> LiveKey(history, window, now, k)
  {
    forall k | k in last ensures LiveKey(history, window, now, k) {
      var i :| 0 <= i < |history| && history[i] == Firing(last[k], k);
    }
  }

  lemma FiringIsTracked(last: map<string, int>, history: seq<Firing>, window: nat, f: Firing)
    requires HoldsLive(last, history, window, f.now) && NotAfter(history, f.now)
    ensures Tracks(last[f.key := f.now], history + [f], window, f.now)
  {
    var h := history + [f];
    assert h[|history|] == f;
    forall k | k in last ensures Firing(last[k], k) in h {
      var i :| 0 <= i < |history| && history[i] == Firing(last[k], k);
      assert h[i] == history[i];
    }
  }

  lemma RefusalIsTracked(last: map<string, int>, history: seq<Firing>, window: nat, now: int)
    requires HoldsLive(last, history, window, now) && NotAfter(history, now)
    ensures Tracks(last, history, window, now)
  {
  }

  /** An observed alert: where it was seen and which triggers fired. */
  datatype Alert = Alert(source: string, line: string, truncated: bool, matched: seq<string>)

  /** The kind of event (file and triggers), deliberately not its text. */
  function Fingerprint(a: Alert): string {
    a.source + "|" + Join(a.matched, ",")
  }

  ghost predicate AllWithout(parts: seq<string>, c: char) {
    forall i :: 0 <= i < |parts| ==> c !in parts[i]
  }

  lemma {:induction false} JoinInjective(a: seq<string>, b: seq<string>)
    requires a != [] && b != [] && AllWithout(a, ',') && AllWithout(b, ',')
    requires Join(a, ",") == Join(b, ",")
    ensures a == b
  {
    CommaIffSeveral(a);
    CommaIffSeveral(b);
    if |a| > 1 {
      var rest, rest' := Join(a[1..], ","), Join(b[1..], ",");
      SplitOnce(a[0], rest, b[0], rest', ',');
      JoinInjective(a[1..], b[1..]);
      assert a == [a[0]] + a[1..] && b == [b[0]] + b[1..];
    }
  }

  lemma CommaIffSeveral(parts: seq<string>)
    requires parts != [] && AllWithout(parts, ',')
    ensures ',' in Join(parts, ",") <==> |parts| > 1
  {
    if |parts| > 1 {
      assert Join(parts, ",")[|parts[0]|] == ',';
    }
  }

  /**
   Alerts share a cooldown key exactly if they come from the same source and fired the
   same triggers in the same order, as long as sources are free of the bar and trigger
   names of the comma.
   */
  lemma FingerprintMeaning(a: Alert, b: Alert)
    requires '|' !in a.source && '|' !in b.source
    requires a.matched != [] && b.matched != [] && AllWithout(a.matched, ',') && AllWithout(b.matched, ',')
    ensures Fingerprint(a) == Fingerprint(b) <==> a.source == b.source && a.matched == b.matched
  {
    if Fingerprint(a) == Fingerprint(b) {
      SplitOnce(a.source, Join(a.matched, ","), b.source, Join(b.matched, ","), '|');
      JoinInjective(a.matched, b.matched);
    }
  }

  /** Without that, different kinds of alert can share a key. */
  lemma FingerprintsCanCollide() returns (a: Alert, b: Alert)
    ensures Fingerprint(a) == Fingerprint(b) && a.source == b.source && a.matched != b.matched
  {
    a, b := Alert("log", "", false, ["x,y"]), Alert("log", "", false, ["x", "y"]);
    assert Join(["x", "y"], ",") == "x" + "," + Join(["y"], ",");
  }

  /** In plain numbers: an alert is held back exactly while one of its kind fired less than a window before. */
  lemma SuppressedMeaning(history: seq<Firing>, window: nat, f: Firing)
    requires NotAfter(history, f.now)
    ensures Suppressed(history, window, f) <==> exists i :: 0 <= i < |history| && history[i].key == f.key && f.now - history[i].now < window
  {
  }

  class CooldownGate {
    const window: nat
    var last: map<string, int>
    ghost var history: seq<Firing>
    /** The time of the latest call. */
    ghost var clock: int

    ghost predicate Valid()
      reads this
    {
      Tracks(last, history, window, clock)
    }

    constructor (window: nat, ghost start: int)
      ensures Valid() && this.window == window && history == [] && clock == start && last == map[]
    {
      this.window, last := window, map[];
      history, clock := [], start;
    }

    /** Only keys still cooling down stay. */
    method Prune(now: int)
      requires Valid() && clock <= now
      modifies this`last
      ensures HoldsLive(last, history, window, now)
    {
      last := map k | k in last && Age(now, last[k]) < window :: last[k];
    }

    /** Answers exactly as the gate that never forgets, and says what is still tracked. */
    method Admit(now: int, key: string) returns (fires: bool)
      requires Valid() && clock <= now
      modifies this
      ensures Valid() && clock == now
      ensures fires <==> !Suppressed(old(history), window, Firing(now, key))
      ensures history == Extend(old(history), window, Firing(now, key))
      ensures forall k :: k in last <==> (fires && k == key) || LiveKey(old(history), window, now, k)
    {
      Prune(now);
      ghost var h := history;
      TrackedKeysAreLive(last, h, window, now);
      RefusalIsTracked(last, h, window, now);
      FiringIsTracked(last, h, window, Firing(now, key));
      clock := now;
      if key in last {
        var fired := last[key];
        if Age(now, fired) < window {
          return false;
        }
      }
      last := last[key := now];
      history := h + [Firing(now, key)];
      fires := true;
    }
  }

  /** The history after the alerts of one poll, all asked about at the same time. */
  ghost function AfterPoll(history: seq<Firing>, window: nat, now: int, alerts: seq<Alert>): seq<Firing> {
    if alerts == [] then history else
      var n := |alerts| - 1;
      Extend(AfterPoll(history, window, now, alerts[..n]), window, Firing(now, Fingerprint(alerts[n])))
  }

  /** The alerts of one poll that the never-forgetting gate lets through. */
  ghost function Actionable(history: seq<Firing>, window: nat, now: int, alerts: seq<Alert>): seq<Alert> {
    if alerts == [] then [] else
      var n := |alerts| - 1;
      var before := AfterPoll(history, window, now, alerts[..n]);
      Actionable(history, window, now, alerts[..n])
      + if Suppressed(before, window, Firing(now, Fingerprint(alerts[n]))) then [] else [alerts[n]]
  }

  lemma PollStep(history: seq<Firing>, window: nat, now: int, alerts: seq<Alert>, i: nat)
    requires i < |alerts|
    ensures var before := AfterPoll(history, window, now, alerts[..i]);
            var f := Firing(now, Fingerprint(alerts[i]));
            && AfterPoll(history, window, now, alerts[..i + 1]) == Extend(before, window, f)
            && Actionable(history, window, now, alerts[..i + 1])
               == Actionable(history, window, now, alerts[..i]) + if Suppressed(before, window, f) then [] else [alerts[i]]
  {
    assert alerts[..i + 1][..i] == alerts[..i];
  }

  /** The questions one poll puts to the gate. */
  ghost function Asked(now: int, alerts: seq<Alert>): seq<Firing> {
    if alerts == [] then [] else
      var n := |alerts| - 1;
      Asked(now, alerts[..n]) + [Firing(now, Fingerprint(alerts[n]))]
  }

  /** The alerts a poll hands on are exactly the firings it adds to the history, in order. */
  lemma {:induction false} ActionableAreTheFirings(history: seq<Firing>, window: nat, now: int, alerts: seq<Alert>)
    ensures AfterPoll(history, window, now, alerts)
         == history + Asked(now, Actionable(history, window, now, alerts))
  {
    hide Suppressed, Fingerprint;
    if alerts == [] {
      assert history + [] == history;
    } else {
      var n := |alerts| - 1;
      ActionableAreTheFirings(history, window, now, alerts[..n]);
      var earlier := Actionable(history, window, now, alerts[..n]);
      assert (earlier + [alerts[n]])[..|earlier|] == earlier;
      assert earlier + [] == earlier;
    }
  }

  /** The gate does not hold the alert back at its turn. */
  ghost predicate Passes(history: seq<Firing>, window: nat, now: int, alerts: seq<Alert>, i: nat)
    requires i < |alerts|
  {
    !Suppressed(AfterPoll(history, window, now, alerts[..i]), window, Firing(now, Fingerprint(alerts[i])))
  }

  /** `picks` are in ascending order the places of the alerts that pass, and `chosen` are these alerts, each as it was. */
  ghost predicate ArePicks(history: seq<Firing>, window: nat, now: int, alerts: seq<Alert>, picks: seq<nat>, chosen: seq<Alert>) {
    && |picks| == |chosen|
    && (forall j :: 0 <= j < |picks| ==> picks[j] < |alerts| && chosen[j] == alerts[picks[j]])
    && (forall j, k :: 0 <= j < k < |picks| ==> picks[j] < picks[k])
    && (forall i: nat :: i < |alerts| ==> (i in picks <==> Passes(history, window, now, alerts, i)))
  }

  lemma PicksSnoc(history: seq<Firing>, window: nat, now: int, alerts: seq<Alert>, picks: seq<nat>, chosen: seq<Alert>)
    requires alerts != []
    requires ArePicks(history, window, now, alerts[..|alerts| - 1], picks, chosen)
    ensures var n := |alerts| - 1;
            if Passes(history, window, now, alerts, n) then
              ArePicks(history, window, now, alerts, picks + [n], chosen + [alerts[n]])
            else ArePicks(history, window, now, alerts, picks, chosen)
  {
    hide Passes;
    var n := |alerts| - 1;
    forall i: nat | i < n ensures Passes(history, window, now, alerts[..n], i) == Passes(history, window, now, alerts, i) {
      PassesBefore(history, window, now, alerts, n, i);
    }
    assert n !in picks;
  }

  lemma PassesBefore(history: seq<Firing>, window: nat, now: int, alerts: seq<Alert>, n: nat, i: nat)
    requires i < n <= |alerts|
    ensures Passes(history, window, now, alerts[..n], i) == Passes(history, window, now, alerts, i)
  {
    assert alerts[..n][..i] == alerts[..i];
  }

  /** The alerts handed on are the alerts seen, each as it was, in order: those that the gate did not hold back. */
  lemma {:induction false} ActionablePicks(history: seq<Firing>, window: nat, now: int, alerts: seq<Alert>) returns (picks: seq<nat>)
    ensures ArePicks(history, window, now, alerts, picks, Actionable(history, window, now, alerts))
  {
    hide Suppressed, Fingerprint, AfterPoll;
    if alerts == [] {
      picks := [];
    } else {
      hide ArePicks;
      var n := |alerts| - 1;
      picks := ActionablePicks(history, window, now, alerts[..n]);
      var chosen := Actionable(history, window, now, alerts[..n]);
      PicksSnoc(history, window, now, alerts, picks, chosen);
      assert chosen + [] == chosen;
      if Passes(history, window, now, alerts, n) {
        picks := picks + [n];
      }
    }
  }

  /** Screen one poll's alerts through the gate, in order. */
  method PollActionable(gate: CooldownGate, now: int, alerts: seq<Alert>) returns (actionable: seq<Alert>)
    requires gate.Valid() && gate.clock <= now
    modifies gate
    ensures gate.Valid() && gate.clock == (if alerts == [] then old(gate.clock) else now)
    ensures gate.history == AfterPoll(old(gate.history), gate.window, now, alerts)
    ensures actionable == Actionable(old(gate.history), gate.window, now, alerts)
  {
    hide Tracks, Suppressed;
    ghost var h := gate.history;
    actionable := [];
    var i := 0;
    while i < |alerts|
      invariant 0 <= i <= |alerts|
      invariant gate.Valid() && gate.clock == (if i == 0 then old(gate.clock) else now)
      invariant gate.history == AfterPoll(h, gate.window, now, alerts[..i])
      invariant actionable == Actionable(h, gate.window, now, alerts[..i])
    {
      PollStep(h, gate.window, now, alerts, i);
      var fires := gate.Admit(now, Fingerprint(alerts[i]));
      if fires {
        actionable := actionable + [alerts[i]];
      }
      i := i + 1;
    }
    assert alerts[..i] == alerts;
  }

  /** One poll of the autonomous loop. */
  datatype Poll = Poll(now: int, alerts: seq<Alert>)

  ghost function AllAsked(polls: seq<Poll>): seq<Firing> {
    if polls == [] then [] else
      var n := |polls| - 1;
      AllAsked(polls[..n]) + Asked(polls[n].now, polls[n].alerts)
  }

  /** The gate's history after a run of polls. */
  ghost function PolledHistory(window: nat, polls: seq<Poll>): seq<Firing> {
    if polls == [] then [] else
      var n := |polls| - 1;
      AfterPoll(PolledHistory(window, polls[..n]), window, polls[n].now, polls[n].alerts)
  }

  lemma {:induction false} PollContinuesRun(window: nat, earlier: seq<Firing>, now: int, alerts: seq<Alert>)
    ensures Run(window, earlier + Asked(now, alerts)) == AfterPoll(Run(window, earlier), window, now, alerts)
  {
    if alerts == [] {
      assert earlier + [] == earlier;
    } else {
      var n := |alerts| - 1;
      var all, f := earlier + Asked(now, alerts), Firing(now, Fingerprint(alerts[n]));
      assert all == (earlier + Asked(now, alerts[..n])) + [f];
      assert all[..|all| - 1] == earlier + Asked(now, alerts[..n]);
      PollContinuesRun(window, earlier, now, alerts[..n]);
    }
  }

  lemma {:induction false} PolledHistoryIsRun(window: nat, polls: seq<Poll>)
    ensures PolledHistory(window, polls) == Run(window, AllAsked(polls))
  {
    if polls != [] {
      var n := |polls| - 1;
      PolledHistoryIsRun(window, polls[..n]);
      PollContinuesRun(window, AllAsked(polls[..n]), polls[n].now, polls[n].alerts);
    }
  }

  lemma {:induction false} AskedAtOnce(now: int, alerts: seq<Alert>)
    ensures forall i :: 0 <= i < |Asked(now, alerts)| ==> Asked(now, alerts)[i].now == now
  {
    if alerts != [] {
      AskedAtOnce(now, alerts[..|alerts| - 1]);
    }
  }

  lemma {:induction false} AskedMonotone(polls: seq<Poll>)
    requires forall i, j :: 0 <= i < j < |polls| ==> polls[i].now <= polls[j].now
    ensures Monotone(AllAsked(polls))
    ensures forall i :: 0 <= i < |AllAsked(polls)| ==> polls != [] && AllAsked(polls)[i].now <= polls[|polls| - 1].now
  {
    if polls != [] {
      var n := |polls| - 1;
      AskedMonotone(polls[..n]);
      AskedAtOnce(polls[n].now, polls[n].alerts);
    }
  }

  /** Over any run of polls, two actionable alerts with one fingerprint are at least a window apart. */
  lemma PollsAreSpaced(window: nat, polls: seq<Poll>)
    requires forall i, j :: 0 <= i < j < |polls| ==> polls[i].now <= polls[j].now
    ensures Spaced(PolledHistory(window, polls), window)
  {
    AskedMonotone(polls);
    PolledHistoryIsRun(window, polls);
    RunIsSpaced(window, AllAsked(polls));
  }
}

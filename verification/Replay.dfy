/**
 Replay and reorder protection of the executor.

 The guard keeps three bounded structures. Here they are a class, and the
 specification is a naive one that looks at the whole history of admissions.
 */
module Replay {
  import opened Common

  type SessionId = seq<byte>
  type Nonce = seq<byte>

  /** Admissions whose nonces block a repetition. */
  const NONCE_WINDOW: nat := 4096

  /** One attempt: who asks, its sequence number and its nonce. */
  datatype Attempt = Attempt(session: SessionId, number: nat, nonce: Nonce)

  datatype Verdict = Admitted | NonMonotonicSeq | DuplicateNonce

  // ----- Specification over the full history -------------------------------

  /** The admissions whose nonces are still remembered. */
  ghost function Recent(history: seq<Attempt>): seq<Attempt> {
    if |history| <= NONCE_WINDOW then history else history[|history| - NONCE_WINDOW..]
  }

  /** Some admission of the same session already carried this number or a later one. */
  ghost predicate Superseded(history: seq<Attempt>, a: Attempt) {
    exists i :: 0 <= i < |history| && history[i].session == a.session && a.number <= history[i].number
  }

  ghost predicate HasNonce(admissions: seq<Attempt>, nonce: Nonce) {
    exists i :: 0 <= i < |admissions| && admissions[i].nonce == nonce
  }

  ghost function Decide(history: seq<Attempt>, a: Attempt): Verdict {
    if Superseded(history, a) then NonMonotonicSeq
    else if HasNonce(Recent(history), a.nonce) then DuplicateNonce
    else Admitted
  }

  ghost function Extend(history: seq<Attempt>, a: Attempt): seq<Attempt> {
    if Decide(history, a) == Admitted then history + [a] else history
  }

  /** The admissions left by a whole run of attempts, from an empty guard. */
  ghost function Run(attempts: seq<Attempt>): seq<Attempt> {
    if attempts == [] then [] else
      var n := |attempts| - 1;
      Extend(Run(attempts[..n]), attempts[n])
  }

  /**
   Admitted are exactly the attempts above every admitted number of their session whose
   nonce is none of the last 4096 admitted; a stale number is named before a seen nonce.
   */
  lemma DecideMeaning(history: seq<Attempt>, a: Attempt)
    ensures Decide(history, a) == NonMonotonicSeq
       <==> exists i :: 0 <= i < |history| && history[i].session == a.session && a.number <= history[i].number
    ensures Decide(history, a) != Admitted
       <==> || (exists i :: 0 <= i < |history| && history[i].session == a.session && a.number <= history[i].number)
            || (exists i :: 0 <= i < |history| && |history| - 4096 <= i && history[i].nonce == a.nonce)
  {
    var recent := Recent(history);
    var dropped := |history| - |recent|;
    assert forall i :: 0 <= i < |recent| ==> recent[i] == history[i + dropped];
    if i :| 0 <= i < |history| && |history| - 4096 <= i && history[i].nonce == a.nonce {
      assert recent[i - dropped].nonce == a.nonce;
    }
  }

  // ----- What every run keeps ----------------------------------------------

  ghost predicate NumbersIncrease(history: seq<Attempt>) {
    forall i, j :: 0 <= i < j < |history| && history[i].session == history[j].session
                   ==> history[i].number < history[j].number
  }

  /** No nonce repeats within `NONCE_WINDOW` consecutive admissions. */
  ghost predicate NoncesSpread(history: seq<Attempt>) {
    forall i, j :: 0 <= i < j < |history| && j - i <= NONCE_WINDOW
                   ==> history[i].nonce != history[j].nonce
  }

  lemma ExtendKeepsOrder(history: seq<Attempt>, a: Attempt)
    requires NumbersIncrease(history) && NoncesSpread(history)
    ensures NumbersIncrease(Extend(history, a)) && NoncesSpread(Extend(history, a))
  {
    if Decide(history, a) == Admitted {
      var h, n := history + [a], |history|;
      forall i | 0 <= i < n && n - i <= NONCE_WINDOW
        ensures h[i].nonce != a.nonce
      {
        var recent := Recent(history);
        assert recent[i - (n - |recent|)] == h[i];
      }
    }
  }

  /** In every run, a session's admitted numbers strictly increase and recent nonces differ. */
  lemma {:induction false} RunKeepsOrder(attempts: seq<Attempt>)
    ensures NumbersIncrease(Run(attempts)) && NoncesSpread(Run(attempts))
  {
    if attempts != [] {
      var n := |attempts| - 1;
      RunKeepsOrder(attempts[..n]);
      ExtendKeepsOrder(Run(attempts[..n]), attempts[n]);
    }
  }

  lemma RunSnoc(before: seq<Attempt>, a: Attempt)
    ensures Run(before + [a]) == Extend(Run(before), a)
  {
    assert (before + [a])[..|before|] == before;
  }

  /** Admissions are only ever added at the end. */
  lemma {:induction false} RunGrows(before: seq<Attempt>, after: seq<Attempt>)
    ensures Run(before) <= Run(before + after)
    decreases |after|
  {
    if after == [] {
      assert before + after == before;
    } else {
      assert before + after == (before + [after[0]]) + after[1..];
      RunSnoc(before, after[0]);
      RunGrows(before + [after[0]], after[1..]);
    }
  }

  /** What was admitted once makes every equal or lower number of its session stale for good. */
  lemma AdmittedNeverAgain(before: seq<Attempt>, after: seq<Attempt>, a: Attempt, b: Attempt)
    requires Decide(Run(before), a) == Admitted
    requires b.session == a.session && b.number <= a.number
    ensures Decide(Run(before + [a] + after), b) == NonMonotonicSeq
  {
    RunSnoc(before, a);
    assert Run(before + [a])[|Run(before)|] == a;
    RunGrows(before + [a], after);
    assert Run(before + [a] + after)[|Run(before)|] == a;
  }

  // ----- The bounded structures --------------------------------------------

  ghost function Nonces(admissions: seq<Attempt>): seq<Nonce> {
    seq(|admissions|, i requires 0 <= i < |admissions| => admissions[i].nonce)
  }

  /** `last` maps each session of the history to its largest admitted number. */
  ghost predicate TracksMaximum(last: map<SessionId, nat>, history: seq<Attempt>) {
    && (forall i :: 0 <= i < |history| ==>
          history[i].session in last && history[i].number <= last[history[i].session])
    && (forall s :: s in last ==> exists i :: 0 <= i < |history| && history[i].session == s && history[i].number == last[s])
  }

  ghost predicate DuplicateFree<T>(q: seq<T>) {
    forall i, j :: 0 <= i < j < |q| ==> q[i] != q[j]
  }

  /** The guard in bounded memory, with its whole history as a ghost. */
  class ReplayGuard {
    var lastSeq: map<SessionId, nat>
    var seenNonces: set<Nonce>
    var nonceOrder: seq<Nonce>
    ghost var history: seq<Attempt>

    /** The bounded state holds exactly the recent part of the history. */
    ghost predicate Valid()
      reads this
    {
      && TracksMaximum(lastSeq, history)
      && nonceOrder == Nonces(Recent(history))
      && SameElements(nonceOrder, seenNonces)
    }

    constructor ()
      ensures Valid() && history == []
    {
      lastSeq, seenNonces, nonceOrder := map[], {}, [];
      history := [];
    }

    method Admit(session: SessionId, number: nat, nonce: Nonce) returns (r: Verdict)
      requires Valid()
      modifies this
      ensures Valid()
      ensures r == Decide(old(history), Attempt(session, number, nonce))
      ensures history == Extend(old(history), Attempt(session, number, nonce))
      ensures r != Admitted ==>
                lastSeq == old(lastSeq) && seenNonces == old(seenNonces) && nonceOrder == old(nonceOrder)
      ensures |nonceOrder| <= NONCE_WINDOW
    {
      ghost var a := Attempt(session, number, nonce);
      ghost var h := history;
      if session in lastSeq {
        var last := lastSeq[session];
        if number <= last {
          assert Superseded(h, a);
          return NonMonotonicSeq;
        }
      }
      NonceInQueue(Recent(h), nonce);
      if nonce in seenNonces {
        return DuplicateNonce;
      }

      CommitTracksMaximum(lastSeq, h, a);
      CommitShiftsWindow(h, a);
      SlidingSet(nonceOrder, seenNonces, nonce);
      lastSeq := lastSeq[session := number];
      seenNonces := seenNonces + {nonce};
      nonceOrder := nonceOrder + [nonce];
      if |nonceOrder| > NONCE_WINDOW {
        var evicted := nonceOrder[0];
        nonceOrder := nonceOrder[1..];
        seenNonces := seenNonces - {evicted};
      }
      history := h + [a];
      return Admitted;
    }
  }

  lemma NonceInQueue(admissions: seq<Attempt>, nonce: Nonce)
    ensures nonce in Nonces(admissions) <==> HasNonce(admissions, nonce)
  {
    var q := Nonces(admissions);
    if HasNonce(admissions, nonce) {
      var i :| 0 <= i < |admissions| && admissions[i].nonce == nonce;
      assert q[i] == nonce;
    }
  }

  ghost predicate SameElements(q: seq<Nonce>, s: set<Nonce>) {
    DuplicateFree(q) && forall n :: n in s <==> n in q
  }

  /** Appending a new nonce, then evicting the oldest, keeps queue and set in step. */
  lemma SlidingSet(q: seq<Nonce>, s: set<Nonce>, nonce: Nonce)
    requires SameElements(q, s) && nonce !in s
    ensures SameElements(q + [nonce], s + {nonce})
    ensures var q' := q + [nonce]; SameElements(q'[1..], s + {nonce} - {q'[0]})
  {
    var q' := q + [nonce];
    assert q' == [q'[0]] + q'[1..];
  }

  lemma CommitTracksMaximum(last: map<SessionId, nat>, h: seq<Attempt>, a: Attempt)
    requires TracksMaximum(last, h) && !Superseded(h, a)
    ensures TracksMaximum(last[a.session := a.number], h + [a])
  {
    var h', last' := h + [a], last[a.session := a.number];
    forall s | s in last'
      ensures exists i :: 0 <= i < |h'| && h'[i].session == s && h'[i].number == last'[s]
    {
      if s == a.session {
        assert h'[|h|] == a;
      } else {
        var i :| 0 <= i < |h| && h[i].session == s && h[i].number == last[s];
        assert h'[i] == h[i];
      }
    }
  }

  lemma CommitShiftsWindow(h: seq<Attempt>, a: Attempt)
    ensures var q := Nonces(Recent(h)) + [a.nonce];
            Nonces(Recent(h + [a])) == if |q| > NONCE_WINDOW then q[1..] else q
  {
  }
}

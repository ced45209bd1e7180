/** What an accepted audit log proves: its head hash determines all of it. */
module AuditEvidence {
  import opened Common
  import opened LineSplit
  import opened Hex
  import opened Audit

  /** What the chain hash of an entry binds: the record and the signature bytes. */
  datatype Sealed = Sealed(record: AuditRecord, signature: Option<Bytes>)

  ghost function Seals(entries: seq<AuditEntry>): seq<Sealed> {
    if entries == [] then [] else
      var n := |entries| - 1;
      Seals(entries[..n]) + [Sealed(entries[n].record, SignatureOf(entries[n]))]
  }

  /** Equal link hashes come from equal records and signatures, or from a collision. */
  lemma SameLink(p: Primitives, a: AuditEntry, b: AuditEntry)
    requires InjectiveCanonical(p) && LinkOf(p, a) == LinkOf(p, b)
    requires SignatureOf(a).Some? && SignatureOf(b).Some?
    ensures (a.record == b.record && SignatureOf(a) == SignatureOf(b)) || Collision(p.hash, Preimage(p, a), Preimage(p, b))
  {
    EncodedInjective(p.hash(Preimage(p, a)), p.hash(Preimage(p, b)));
    if Preimage(p, a) == Preimage(p, b) {
      SplitSuffix(p.canonical(a.record), SignatureOf(a).value, p.canonical(b.record), SignatureOf(b).value);
    }
  }

  lemma SplitSuffix(a: Bytes, s: Bytes, b: Bytes, t: Bytes)
    requires |s| == |t| && a + s == b + t
    ensures a == b && s == t
  {
    assert a == (a + s)[..|a|] == (b + t)[..|b|] == b;
    assert s == (a + s)[|a|..] == (b + t)[|b|..] == t;
  }

  /**
   Two chains with one head hash hold the same records and signatures in the same
   order, or a hash collision is in hand. The keys they verify under do not matter.
   */
  lemma {:induction false} SameHeadSameChain(p: Primitives, keyA: Bytes, a: seq<AuditEntry>, keyB: Bytes, b: seq<AuditEntry>)
    returns (x: Bytes, y: Bytes)
    requires InjectiveCanonical(p)
    requires Chained(p, keyA, a) && a != [] && Chained(p, keyB, b) && b != []
    requires HeadOf(p, a) == HeadOf(p, b)
    ensures Seals(a) == Seals(b) || Collision(p.hash, x, y)
    decreases |a|
  {
    hide LinkOf, SignatureOf, Collision;
    var n, m := |a| - 1, |b| - 1;
    assert Fits(p, keyA, a, n) && Fits(p, keyB, b, m);
    SameLink(p, a[n], b[m]);
    x, y := Preimage(p, a[n]), Preimage(p, b[m]);
    if !Collision(p.hash, x, y) && n > 0 && m > 0 {
      ChainedPrefix(p, keyA, a, n);
      ChainedPrefix(p, keyB, b, m);
      x, y := SameHeadSameChain(p, keyA, a[..n], keyB, b[..m]);
    }
  }

  /** Tamper evidence for logs as bytes. */
  lemma TamperEvidence(p: Primitives, keyA: Bytes, a: Bytes, keyB: Bytes, b: Bytes) returns (x: Bytes, y: Bytes)
    requires InjectiveCanonical(p)
    requires Verdict(p, keyA, ReadLines(a)).Ok? && Verdict(p, keyB, ReadLines(b)).Ok?
    requires Verdict(p, keyA, ReadLines(a)).value.headHash == Verdict(p, keyB, ReadLines(b)).value.headHash
    ensures Seals(Entries(p, ReadLines(a))) == Seals(Entries(p, ReadLines(b))) || Collision(p.hash, x, y)
  {
    hide ReadLines, Verdict, Chained;
    VerdictMeaning(p, keyA, ReadLines(a));
    VerdictMeaning(p, keyB, ReadLines(b));
    x, y := SameHeadSameChain(p, keyA, Entries(p, ReadLines(a)), keyB, Entries(p, ReadLines(b)));
  }

  /** Equal seals leave only the letter case of the signature text open. */
  lemma SealsDetermineEntries(p: Primitives, keyA: Bytes, a: seq<AuditEntry>, keyB: Bytes, b: seq<AuditEntry>, i: nat)
    requires Chained(p, keyA, a) && Chained(p, keyB, b) && Seals(a) == Seals(b) && i < |a|
    ensures |a| == |b| && a[i].record == b[i].record && a[i].entryHash == b[i].entryHash
    ensures LowerAll(a[i].signature) == LowerAll(b[i].signature)
  {
    SealsPointwise(a);
    SealsPointwise(b);
    assert Fits(p, keyA, a, i) && Fits(p, keyB, b, i);
    assert Seals(a)[i] == Seals(b)[i];
    EncodeDecode(a[i].signature);
    EncodeDecode(b[i].signature);
  }

  lemma {:induction false} SealsPointwise(entries: seq<AuditEntry>)
    ensures |Seals(entries)| == |entries|
    ensures forall i :: 0 <= i < |entries| ==> Seals(entries)[i] == Sealed(entries[i].record, SignatureOf(entries[i]))
  {
    if entries != [] {
      SealsPointwise(entries[..|entries| - 1]);
    }
  }

  lemma {:induction false} SealsPrefix(entries: seq<AuditEntry>, n: nat)
    requires n <= |entries|
    ensures Seals(entries[..n]) <= Seals(entries)
  {
    if n == |entries| {
      assert entries[..n] == entries;
    } else {
      assert entries[..|entries| - 1][..n] == entries[..n];
      SealsPrefix(entries[..|entries| - 1], n);
    }
  }

  /**
   Cutting and pasting entries of a chain cannot make another chain: a chain that ends
   in an entry of `log` is a prefix of `log`, or a hash collision is in hand.
   */
  lemma RearrangedIsPrefix(p: Primitives, key: Bytes, log: seq<AuditEntry>, keyB: Bytes, other: seq<AuditEntry>)
    returns (x: Bytes, y: Bytes)
    requires InjectiveCanonical(p)
    requires Chained(p, key, log) && Chained(p, keyB, other) && other != []
    requires other[|other| - 1] in log
    ensures Seals(other) <= Seals(log) || Collision(p.hash, x, y)
  {
    hide Fits, LinkOf;
    var n :| 0 <= n < |log| && log[n] == other[|other| - 1];
    var prefix := log[..n + 1];
    ChainedPrefix(p, key, log, n + 1);
    SealsPrefix(log, n + 1);
    x, y := SameHeadSameChain(p, key, prefix, keyB, other);
  }

  /** In one chain equal records stand in one place, or a hash collision is in hand. */
  lemma NoRecordTwice(p: Primitives, key: Bytes, log: seq<AuditEntry>, i: nat, j: nat) returns (x: Bytes, y: Bytes)
    requires InjectiveCanonical(p) && Chained(p, key, log)
    requires i < |log| && j < |log| && log[i].record == log[j].record
    ensures i == j || Collision(p.hash, x, y)
  {
    hide LinkOf, SignatureOf, Seals;
    x, y := [], [];
    assert Fits(p, key, log, i) && Fits(p, key, log, j);
    if i != j && i > 0 && j > 0 {
      ChainedPrefix(p, key, log, i);
      ChainedPrefix(p, key, log, j);
      x, y := SameHeadSameChain(p, key, log[..i], key, log[..j]);
      SealsPointwise(log[..i]);
      SealsPointwise(log[..j]);
    }
  }

  /** An accepted chain put together only from entries of `log` is a prefix of `log`, entry by entry. */
  lemma ReusedEntriesArePrefix(p: Primitives, key: Bytes, log: seq<AuditEntry>, keyB: Bytes, other: seq<AuditEntry>)
    returns (x: Bytes, y: Bytes)
    requires InjectiveCanonical(p)
    requires Chained(p, key, log) && Chained(p, keyB, other)
    requires forall i :: 0 <= i < |other| ==> other[i] in log
    ensures other <= log || Collision(p.hash, x, y)
  {
    hide Fits, LinkOf, InjectiveCanonical, Chained;
    x, y := [], [];
    if other != [] {
      x, y := RearrangedIsPrefix(p, key, log, keyB, other);
      if !Collision(p.hash, x, y) {
        SealsPointwise(log);
        SealsPointwise(other);
        if i :| 0 <= i < |other| && other[i] != log[i] {
          var j :| 0 <= j < |log| && log[j] == other[i];
          assert Seals(other)[i] == Seals(log)[i];
          x, y := NoRecordTwice(p, key, log, i, j);
        }
      }
    }
  }

  // ----- Prefixes ------------------------------------------------------------------

  lemma {:induction false} EntriesOfPrefix(p: Primitives, lines: seq<Bytes>, n: nat)
    requires n <= |lines|
    ensures Entries(p, lines[..n]) <= Entries(p, lines)
  {
    if n == |lines| {
      assert lines[..n] == lines;
    } else {
      assert lines[..|lines| - 1][..n] == lines[..n];
      EntriesOfPrefix(p, lines[..|lines| - 1], n);
    }
  }

  /** Every prefix of the lines of an accepted log that holds an entry is accepted too: truncation needs the head to show. */
  lemma PrefixIsAccepted(p: Primitives, key: Bytes, lines: seq<Bytes>, n: nat)
    requires n <= |lines| && Verdict(p, key, lines).Ok? && Entries(p, lines[..n]) != []
    ensures Verdict(p, key, lines[..n]).Ok?
    ensures Verdict(p, key, lines[..n]).value.entries == Saturated(|Entries(p, lines[..n])|)
  {
    hide Verdict, Fits;
    VerdictMeaning(p, key, lines);
    VerdictMeaning(p, key, lines[..n]);
    EntriesOfPrefix(p, lines, n);
    var es := Entries(p, lines);
    ChainedPrefix(p, key, es, |Entries(p, lines[..n])|);
    assert es[..|Entries(p, lines[..n])|] == Entries(p, lines[..n]);
    assert forall i :: 0 <= i < n ==> lines[..n][i] == lines[i];
  }
}

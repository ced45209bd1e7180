/** The append-only writer of the audit log, and its agreement with the verifier. */
module AuditWriter {
  import opened Common
  import opened LineSplit
  import opened Hex
  import opened Events
  import opened Audit
  import opened Utf8

  /** What the writer holds: the persisted bytes, the next number and the hash to chain onto. */
  datatype LogState = LogState(sink: Bytes, number: nat, prevHash: string)

  ghost function NextRecord(st: LogState, event: AuditEvent, timestamp: nat): AuditRecord {
    AuditRecord(st.number, timestamp, st.prevHash, event)
  }

  ghost function Seal(p: Primitives, secret: Bytes, record: AuditRecord): AuditEntry {
    var signature := p.sign(secret, p.canonical(record));
    AuditEntry(record, Encoded(signature), Encoded(p.hash(p.canonical(record) + signature)))
  }

  ghost function LineOf(p: Primitives, e: AuditEntry): Bytes {
    p.encode(e) + [NEWLINE]
  }

  /** A sink that fails may have persisted the first bytes of the line. */
  datatype Commit = Durable | Failed(persisted: nat)

  /** One append: on success the line is there and the chain advances, on failure only the sink may have changed. */
  ghost function Appended(p: Primitives, secret: Bytes, st: LogState, event: AuditEvent, timestamp: nat, commit: Commit): LogState {
    var e := Seal(p, secret, NextRecord(st, event, timestamp));
    var line := LineOf(p, e);
    match commit
    case Durable => LogState(st.sink + line, SaturatingInc(st.number), e.entryHash)
    case Failed(k) => st.(sink := st.sink + if k <= |line| then line[..k] else line)
  }

  const EMPTY_PREV: seq<byte> := seq(32, _ => 0)

  class AuditLog {
    const primitives: Primitives
    const secret: Bytes
    var sink: Bytes
    var nextNumber: nat
    var prevHash: string

    ghost function State(): LogState
      reads this
    {
      LogState(sink, nextNumber, prevHash)
    }

    constructor Blank(primitives: Primitives, secret: Bytes)
      ensures this.primitives == primitives && this.secret == secret
      ensures State() == LogState([], 0, GenesisPrevHash())
    {
      this.primitives, this.secret := primitives, secret;
      sink, nextNumber := [], 0;
      var zeros := Encode(EMPTY_PREV);
      prevHash := zeros;
    }

    /** A log over a fresh sink; without a persisted genesis entry there is none. */
    static method Open(primitives: Primitives, secret: Bytes, timestamp: nat, commit: Commit) returns (log: AuditLog?)
      ensures log != null <==> commit.Durable?
      ensures log != null ==>
                && fresh(log) && log.primitives == primitives && log.secret == secret
                && log.State() == Opened(primitives, secret, timestamp)
    {
      var created := new AuditLog.Blank(primitives, secret);
      var publicHex := Encode(primitives.publicKey(secret));
      var ok := created.Append(Genesis(publicHex), timestamp, commit);
      log := if ok then created else null;
    }

    /** Build the record, sign it, link it, persist its line; only then advance. */
    method Append(event: AuditEvent, timestamp: nat, commit: Commit) returns (ok: bool)
      modifies this
      ensures ok <==> commit.Durable?
      ensures State() == Appended(primitives, secret, old(State()), event, timestamp, commit)
    {
      var record := AuditRecord(nextNumber, timestamp, prevHash, event);
      var canonical := primitives.canonical(record);
      var signature := primitives.sign(secret, canonical);
      var signatureHex := Encode(signature);
      var hashHex := Encode(primitives.hash(canonical + signature));
      var e := AuditEntry(record, signatureHex, hashHex);
      var line := primitives.encode(e) + [NEWLINE];
      match commit {
        case Failed(k) =>
          sink := sink + if k <= |line| then line[..k] else line;
          return false;
        case Durable =>
          sink := sink + line;
      }
      nextNumber := SaturatingInc(nextNumber);
      prevHash := e.entryHash;
      ok := true;
    }
  }

  ghost function Opened(p: Primitives, secret: Bytes, timestamp: nat): LogState {
    Appended(p, secret, LogState([], 0, GenesisPrevHash()), Genesis(Encoded(p.publicKey(secret))), timestamp, Durable)
  }

  // ----- Agreement with the verifier ---------------------------------------------------

  ghost function EncodeAll(p: Primitives, entries: seq<AuditEntry>): seq<Bytes> {
    if entries == [] then [] else
      var n := |entries| - 1;
      EncodeAll(p, entries[..n]) + [p.encode(entries[n])]
  }

  /** The sink holds exactly these entries, they form a chain, and the writer stands at its end. */
  ghost predicate Intact(p: Primitives, secret: Bytes, st: LogState, entries: seq<AuditEntry>) {
    && st.sink == Unlines(EncodeAll(p, entries))
    && Chained(p, p.publicKey(secret), entries)
    && st.number == Saturated(|entries|)
    && st.prevHash == HeadOf(p, entries)
  }

  lemma SealedFits(p: Primitives, secret: Bytes, st: LogState, entries: seq<AuditEntry>, event: AuditEvent, timestamp: nat)
    requires SoundSignatures(p) && Intact(p, secret, st, entries)
    requires entries == [] ==> event == Genesis(Encoded(p.publicKey(secret)))
    ensures var e := Seal(p, secret, NextRecord(st, event, timestamp));
            && Fits(p, p.publicKey(secret), entries + [e], |entries|)
            && e.entryHash == LinkOf(p, e)
  {
    var record := NextRecord(st, event, timestamp);
    var e := Seal(p, secret, record);
    var signature := p.sign(secret, p.canonical(record));
    DecodeEncode(signature);
    DecodeEncode(p.publicKey(secret));
    assert SignatureOf(e) == Some(signature);
    assert (entries + [e])[..|entries|] == entries;
  }

  /** A successful append extends an intact log by one entry. */
  lemma AppendKeepsIntact(p: Primitives, secret: Bytes, st: LogState, entries: seq<AuditEntry>, event: AuditEvent, timestamp: nat)
    requires SoundSignatures(p) && Intact(p, secret, st, entries)
    requires entries == [] ==> event == Genesis(Encoded(p.publicKey(secret)))
    ensures var e := Seal(p, secret, NextRecord(st, event, timestamp));
            Intact(p, secret, Appended(p, secret, st, event, timestamp, Durable), entries + [e])
  {
    hide Fits, Seal, LinkOf, Unlines;
    var e := Seal(p, secret, NextRecord(st, event, timestamp));
    SealedFits(p, secret, st, entries, event, timestamp);
    ChainedSnoc(p, p.publicKey(secret), entries, e);
    assert (entries + [e])[..|entries|] == entries;
    UnlinesAppend(EncodeAll(p, entries), [p.encode(e)]);
    UnlinesOne(p.encode(e));
  }

  lemma UnlinesOne(line: Bytes)
    ensures Unlines([line]) == line + [NEWLINE]
  {
  }

  lemma {:induction false} EncodeAllPointwise(p: Primitives, entries: seq<AuditEntry>)
    ensures |EncodeAll(p, entries)| == |entries|
    ensures forall i :: 0 <= i < |entries| ==> EncodeAll(p, entries)[i] == p.encode(entries[i])
  {
    if entries != [] {
      EncodeAllPointwise(p, entries[..|entries| - 1]);
    }
  }

  /** Reading an intact sink yields the encoded entries, line by line. */
  lemma IntactReads(p: Primitives, entries: seq<AuditEntry>, rest: Bytes)
    requires SoundCodec(p) && NEWLINE !in rest
    ensures ReadLines(Unlines(EncodeAll(p, entries)) + rest) == EncodeAll(p, entries) + if rest == [] then [] else [rest]
  {
    hide Unlines, LineSplit.Lines, Rest, EncodeAll;
    var lines := EncodeAll(p, entries);
    EncodeAllPointwise(p, entries);
    forall i | 0 <= i < |lines| ensures NEWLINE !in lines[i] && StripCarriageReturn(lines[i]) == lines[i] {
      assert EncodesSoundly(p, entries[i]);
    }
    LinesUnique(lines, rest);
    RestUnique(lines, rest);
    assert StripAll(lines) == lines;
  }

  lemma RestUnique(lines: seq<Bytes>, rest: Bytes)
    requires NewlineFree(lines) && NEWLINE !in rest
    ensures Rest(Unlines(lines) + rest) == rest
  {
    hide Unlines, LineSplit.Lines, Rest;
    var s := Unlines(lines) + rest;
    LinesUnique(lines, rest);
    LinesThenRest(s);
    assert Rest(s) == s[|Unlines(lines)|..] == rest;
  }

  lemma {:induction false} EncodedParses(p: Primitives, entries: seq<AuditEntry>)
    requires SoundCodec(p)
    ensures AllParse(p, EncodeAll(p, entries)) && Entries(p, EncodeAll(p, entries)) == entries
  {
    if entries != [] {
      var n := |entries| - 1;
      EncodedParses(p, entries[..n]);
      var e := entries[n];
      assert EncodesSoundly(p, e);
      var all := EncodeAll(p, entries);
      assert all[..|all| - 1] == EncodeAll(p, entries[..n]);
      AllParseSnoc(p, all);
      assert entries == entries[..n] + [e];
    }
  }

  /** The verifier accepts an intact log, with the writer's own number and head. */
  lemma IntactVerifies(p: Primitives, secret: Bytes, st: LogState, entries: seq<AuditEntry>)
    requires SoundCodec(p) && Intact(p, secret, st, entries) && entries != []
    ensures Verdict(p, p.publicKey(secret), ReadLines(st.sink)) == Ok(ChainHead(st.number, st.number, st.prevHash))
  {
    hide ReadLines, Verdict, Chained, EncodeAll;
    IntactReads(p, entries, []);
    assert st.sink + [] == st.sink && EncodeAll(p, entries) + [] == EncodeAll(p, entries);
    EncodedParses(p, entries);
    VerdictMeaning(p, p.publicKey(secret), ReadLines(st.sink));
  }

  // ----- Whole runs -----------------------------------------------------------------------

  datatype Op = Op(event: AuditEvent, timestamp: nat, commit: Commit)

  ghost function Run(p: Primitives, secret: Bytes, since: nat, ops: seq<Op>): LogState {
    if ops == [] then Opened(p, secret, since) else
      var op := ops[|ops| - 1];
      Appended(p, secret, Run(p, secret, since, ops[..|ops| - 1]), op.event, op.timestamp, op.commit)
  }

  /** Failed appends that persisted nothing. */
  ghost predicate CleanFailures(ops: seq<Op>) {
    forall i :: 0 <= i < |ops| ==> ops[i].commit.Durable? || ops[i].commit.persisted == 0
  }

  ghost function Successes(ops: seq<Op>): nat {
    if ops == [] then 0 else
      Successes(ops[..|ops| - 1]) + if ops[|ops| - 1].commit.Durable? then 1 else 0
  }

  lemma OpenedIsIntact(p: Primitives, secret: Bytes, since: nat) returns (genesis: AuditEntry)
    requires SoundSignatures(p)
    ensures Intact(p, secret, Opened(p, secret, since), [genesis])
    ensures genesis.record.event == Genesis(Encoded(p.publicKey(secret))) && genesis.record.timestamp == since
  {
    var st := LogState([], 0, GenesisPrevHash());
    var event := Genesis(Encoded(p.publicKey(secret)));
    assert Intact(p, secret, st, []);
    AppendKeepsIntact(p, secret, st, [], event, since);
    genesis := Seal(p, secret, NextRecord(st, event, since));
    assert [] + [genesis] == [genesis];
  }

  lemma {:induction false} RunIsIntact(p: Primitives, secret: Bytes, since: nat, ops: seq<Op>) returns (entries: seq<AuditEntry>)
    requires SoundSignatures(p) && CleanFailures(ops)
    ensures Intact(p, secret, Run(p, secret, since, ops), entries)
    ensures |entries| == 1 + Successes(ops)
  {
    hide Intact, Seal;
    if ops == [] {
      var genesis := OpenedIsIntact(p, secret, since);
      entries := [genesis];
    } else {
      var n := |ops| - 1;
      var st := Run(p, secret, since, ops[..n]);
      entries := RunIsIntact(p, secret, since, ops[..n]);
      if ops[n].commit.Durable? {
        AppendKeepsIntact(p, secret, st, entries, ops[n].event, ops[n].timestamp);
        entries := entries + [Seal(p, secret, NextRecord(st, ops[n].event, ops[n].timestamp))];
      } else {
        assert Appended(p, secret, st, ops[n].event, ops[n].timestamp, ops[n].commit) == st by {
          assert st.sink + [] == st.sink;
        }
      }
    }
  }

  /**
   After any run of appends, any of which may fail cleanly, the verifier accepts the
   sink: it counts the genesis entry and the successes, and its head is the writer's.
   */
  lemma WriterAgreesWithVerifier(p: Primitives, secret: Bytes, since: nat, ops: seq<Op>)
    requires SoundSignatures(p) && SoundCodec(p) && CleanFailures(ops)
    ensures var st := Run(p, secret, since, ops);
            && st.number == Saturated(1 + Successes(ops))
            && Verdict(p, p.publicKey(secret), ReadLines(st.sink)) == Ok(ChainHead(st.number, st.number, st.prevHash))
  {
    hide ReadLines, Verdict, Run, Chained, EncodeAll;
    var entries := RunIsIntact(p, secret, since, ops);
    IntactVerifies(p, secret, Run(p, secret, since, ops), entries);
  }

  /**
   A line torn by a crash, if it does not parse, is reported at the number it would have
   had; torn inside a character it cannot even be read.
   */
  lemma TornLineIsReported(p: Primitives, secret: Bytes, st: LogState, entries: seq<AuditEntry>, torn: Bytes)
    requires SoundCodec(p) && Intact(p, secret, st, entries)
    requires torn != [] && NEWLINE !in torn && !Utf8.Blank(torn) && p.decode(torn) == None
    ensures Verdict(p, p.publicKey(secret), ReadLines(st.sink + torn))
         == Err(if IsUtf8(torn) then ChainBroken(st.number, NotJson) else NotUtf8)
  {
    hide ReadLines, EncodeAll, Chained, IsUtf8;
    var lines := EncodeAll(p, entries) + [torn];
    IntactReads(p, entries, torn);
    EncodedParses(p, entries);
    ScanMeaning(p, p.publicKey(secret), EncodeAll(p, entries));
    assert lines[..|lines| - 1] == EncodeAll(p, entries);
  }

  /** An entry that follows an intact log under another number is reported. */
  lemma WrongNumberIsReported(p: Primitives, secret: Bytes, st: LogState, entries: seq<AuditEntry>, stray: AuditEntry)
    requires SoundCodec(p) && Intact(p, secret, st, entries) && stray.record.number != st.number
    ensures Verdict(p, p.publicKey(secret), ReadLines(st.sink + LineOf(p, stray))) == Err(ChainBroken(st.number, WrongNumber))
  {
    hide ReadLines, EncodeAll, Chained, Unlines, CheckEntry;
    var key, lines := p.publicKey(secret), EncodeAll(p, entries + [stray]);
    EncodeAllSnoc(p, entries, stray);
    UnlinesAppend(EncodeAll(p, entries), [p.encode(stray)]);
    UnlinesOne(p.encode(stray));
    IntactReads(p, entries + [stray], []);
    assert st.sink + LineOf(p, stray) + [] == st.sink + LineOf(p, stray) && lines + [] == lines;
    assert lines[..|lines| - 1] == EncodeAll(p, entries);
    EncodedParses(p, entries);
    ScanMeaning(p, key, EncodeAll(p, entries));
    assert EncodesSoundly(p, stray);
    NumberMismatch(p, stray, st.number, HeadOf(p, entries), key);
  }

  /**
   A commit that reports failure after persisting the whole line leaves the writer
   behind its own sink: the next successful append makes the verifier reject the log.
   */
  lemma FailureAfterPersistingBreaks(p: Primitives, secret: Bytes, st: LogState, entries: seq<AuditEntry>,
                                     first: Op, second: Op)
    requires SoundSignatures(p) && SoundCodec(p) && Intact(p, secret, st, entries) && entries != []
    requires |entries| < U64_MAX
    requires var line := LineOf(p, Seal(p, secret, NextRecord(st, first.event, first.timestamp)));
             first.commit.Failed? && first.commit.persisted >= |line|
    requires second.commit.Durable?
    ensures var after := Appended(p, secret, Appended(p, secret, st, first.event, first.timestamp, first.commit),
                                  second.event, second.timestamp, second.commit);
            Verdict(p, p.publicKey(secret), ReadLines(after.sink)) == Err(ChainBroken(st.number + 1, WrongNumber))
  {
    hide ReadLines, Intact, Verdict;
    var e := Seal(p, secret, NextRecord(st, first.event, first.timestamp));
    var stray := Seal(p, secret, NextRecord(st, second.event, second.timestamp));
    var whole := Appended(p, secret, st, first.event, first.timestamp, Durable);
    AppendKeepsIntact(p, secret, st, entries, first.event, first.timestamp);
    IntactNumber(p, secret, st, entries);
    var line := LineOf(p, e);
    assert line[..|line|] == line;
    WrongNumberIsReported(p, secret, whole, entries + [e], stray);
  }

  lemma IntactNumber(p: Primitives, secret: Bytes, st: LogState, entries: seq<AuditEntry>)
    requires Intact(p, secret, st, entries)
    ensures st.number == Saturated(|entries|)
  {
  }

  lemma EncodeAllSnoc(p: Primitives, entries: seq<AuditEntry>, e: AuditEntry)
    ensures EncodeAll(p, entries + [e]) == EncodeAll(p, entries) + [p.encode(e)]
  {
    assert (entries + [e])[..|entries|] == entries;
  }

  lemma NumberMismatch(p: Primitives, e: AuditEntry, expected: nat, prev: string, key: Bytes)
    requires e.record.number != expected
    ensures CheckEntry(p, e, expected, prev, key) == Some(ChainBroken(expected, WrongNumber))
  {
  }
}

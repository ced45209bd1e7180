/** What a commit that fails halfway does to the audit log, over whole runs of the writer. */
module AuditFailures {
  import opened Common
  import opened LineSplit
  import opened Events
  import opened Audit
  import opened AuditWriter
  import opened Utf8

  /** The first bytes of the encoding of an entry, at least one of them. */
  datatype Piece = Piece(e: AuditEntry, length: nat)

  ghost predicate IsPiece(p: Primitives, x: Piece) {
    0 < x.length <= |p.encode(x.e)|
  }

  ghost predicate ArePieces(p: Primitives, pieces: seq<Piece>) {
    forall i :: 0 <= i < |pieces| ==> IsPiece(p, pieces[i])
  }

  ghost predicate IsWhole(p: Primitives, x: Piece) {
    x.length == |p.encode(x.e)|
  }

  ghost function Joined(p: Primitives, pieces: seq<Piece>): Bytes
    requires ArePieces(p, pieces)
  {
    if pieces == [] then [] else
      var n := |pieces| - 1;
      Joined(p, pieces[..n]) + p.encode(pieces[n].e)[..pieces[n].length]
  }

  /** Beginnings of JSON objects put together are an object only if they are a single whole one. */
  ghost predicate SelfDelimiting(p: Primitives) {
    forall pieces :: ArePieces(p, pieces) && pieces != [] ==> DecodesOnlyWhole(p, pieces)
  }

  ghost predicate DecodesOnlyWhole(p: Primitives, pieces: seq<Piece>)
    requires ArePieces(p, pieces)
  {
    p.decode(Joined(p, pieces)).Some? ==> |pieces| == 1 && IsWhole(p, pieces[0])
  }

  lemma JoinedSnoc(p: Primitives, pieces: seq<Piece>, x: Piece)
    requires ArePieces(p, pieces) && IsPiece(p, x)
    ensures ArePieces(p, pieces + [x]) && Joined(p, pieces + [x]) == Joined(p, pieces) + p.encode(x.e)[..x.length]
  {
    assert (pieces + [x])[..|pieces|] == pieces;
  }

  lemma {:induction false} JoinedIsOneLine(p: Primitives, pieces: seq<Piece>)
    requires SoundCodec(p) && ArePieces(p, pieces)
    ensures NEWLINE !in Joined(p, pieces) && CARRIAGE_RETURN !in Joined(p, pieces)
    ensures pieces != [] ==> Joined(p, pieces) != [] && !Utf8.Blank(Joined(p, pieces))
  {
    if pieces != [] {
      var n := |pieces| - 1;
      JoinedIsOneLine(p, pieces[..n]);
      assert EncodesSoundly(p, pieces[n].e);
      JoinedStarts(p, pieces);
    }
  }

  lemma {:induction false} JoinedStarts(p: Primitives, pieces: seq<Piece>)
    requires SoundCodec(p) && ArePieces(p, pieces) && pieces != []
    ensures Joined(p, pieces) != [] && Joined(p, pieces)[0] == OPENING_BRACE
  {
    var n := |pieces| - 1;
    assert EncodesSoundly(p, pieces[n].e);
    if n > 0 {
      JoinedStarts(p, pieces[..n]);
    }
  }

  // ----- The states a torn log can be in ---------------------------------------------------

  /** The complete lines alone are rejected already. */
  ghost predicate Broken(p: Primitives, secret: Bytes, st: LogState) {
    Scan(p, p.publicKey(secret), StripAll(Lines(st.sink))).Err?
  }

  /**
   The sink has run ahead of the writer: a chain of complete lines, then beginnings of
   lines without a newline; and there is at least one byte the writer does not count.
   */
  ghost predicate Ahead(p: Primitives, secret: Bytes, st: LogState, es: seq<AuditEntry>, pieces: seq<Piece>) {
    && ArePieces(p, pieces)
    && st.sink == Unlines(EncodeAll(p, es)) + Joined(p, pieces)
    && Chained(p, p.publicKey(secret), es)
    && (|es| == st.number + 1 || (|es| == st.number && pieces != []))
  }

  /** The lines of such a sink. */
  lemma AheadReads(p: Primitives, es: seq<AuditEntry>, pieces: seq<Piece>)
    requires SoundCodec(p) && ArePieces(p, pieces)
    ensures ReadLines(Unlines(EncodeAll(p, es)) + Joined(p, pieces))
         == EncodeAll(p, es) + if pieces == [] then [] else [Joined(p, pieces)]
  {
    hide ReadLines, Unlines, EncodeAll;
    JoinedIsOneLine(p, pieces);
    IntactReads(p, es, Joined(p, pieces));
  }

  /** A log that has run ahead is rejected, or accepted with more entries than the writer counts. */
  lemma AheadVerdict(p: Primitives, secret: Bytes, st: LogState, es: seq<AuditEntry>, pieces: seq<Piece>)
    requires SoundCodec(p) && Ahead(p, secret, st, es, pieces) && |es| < U64_MAX
    ensures var v := Verdict(p, p.publicKey(secret), ReadLines(st.sink));
            v.Ok? ==> v.value.entries > st.number
  {
    hide ReadLines, Unlines, Verdict, Chained, SoundCodec;
    var lines := ReadLines(st.sink);
    AheadReads(p, es, pieces);
    EncodedParses(p, es);
    VerdictMeaning(p, p.publicKey(secret), lines);
    if pieces == [] {
      assert lines == EncodeAll(p, es);
    } else {
      JoinedIsOneLine(p, pieces);
      assert lines[..|lines| - 1] == EncodeAll(p, es);
      AllParseSnoc(p, lines);
    }
  }

  /** Rejected complete lines stay rejected, whatever is appended. */
  lemma BrokenForGood(p: Primitives, secret: Bytes, st: LogState, st': LogState)
    requires Broken(p, secret, st) && st.sink <= st'.sink
    ensures Broken(p, secret, st') && Verdict(p, p.publicKey(secret), ReadLines(st'.sink)).Err?
  {
    hide Lines, StripAll, Scan;
    var more := st'.sink[|st.sink|..];
    assert st'.sink == st.sink + more;
    LinesGrow(st.sink, more);
    var short, long := StripAll(Lines(st.sink)), StripAll(Lines(st'.sink));
    assert long[..|short|] == short;
    ScanFails(p, p.publicKey(secret), long, |short|);
    assert ReadLines(st'.sink)[..|long|] == long;
    ScanFails(p, p.publicKey(secret), ReadLines(st'.sink), |long|);
  }

  lemma SinkGrows(p: Primitives, secret: Bytes, st: LogState, op: Op)
    ensures st.sink <= Appended(p, secret, st, op.event, op.timestamp, op.commit).sink
  {
    hide Seal, LineOf;
  }

  // ----- One more append ----------------------------------------------------------------------

  /** A sink of whole lines reads as its lines. */
  lemma WholeLines(p: Primitives, es: seq<AuditEntry>, last: Bytes)
    requires SoundCodec(p) && NEWLINE !in last && CARRIAGE_RETURN !in last
    ensures StripAll(Lines(Unlines(EncodeAll(p, es)) + last + [NEWLINE])) == EncodeAll(p, es) + [last]
  {
    hide Unlines, Lines, EncodeAll;
    var lines := EncodeAll(p, es) + [last];
    EncodeAllPointwise(p, es);
    forall i | 0 <= i < |lines| ensures NEWLINE !in lines[i] && StripCarriageReturn(lines[i]) == lines[i] {
      if i < |es| {
        assert EncodesSoundly(p, es[i]);
      }
    }
    UnlinesAppend(EncodeAll(p, es), [last]);
    UnlinesOne(last);
    var sink := Unlines(EncodeAll(p, es)) + last + [NEWLINE];
    assert sink == Unlines(lines) + [];
    LinesUnique(lines, []);
    assert StripAll(lines) == lines;
  }

  /** A last line that is no entry, or one with another number, makes the scan fail. */
  lemma RejectedAtEnd(p: Primitives, key: Bytes, es: seq<AuditEntry>, last: Bytes)
    requires SoundCodec(p) && Chained(p, key, es) && |es| < U64_MAX && !Utf8.Blank(last)
    requires p.decode(last).Some? ==> p.decode(last).value.record.number != |es|
    ensures Scan(p, key, EncodeAll(p, es) + [last]).Err?
  {
    hide EncodeAll, Chained, SoundCodec, CheckEntry, IsUtf8, Utf8.Blank, HeadOf;
    var lines := EncodeAll(p, es) + [last];
    assert lines[..|lines| - 1] == EncodeAll(p, es);
    EncodedParses(p, es);
    ScanMeaning(p, key, EncodeAll(p, es));
    if p.decode(last).Some? {
      NumberMismatch(p, p.decode(last).value, |es|, HeadOf(p, es), key);
    }
  }

  lemma EncodingAsPiece(p: Primitives, pieces: seq<Piece>, e: AuditEntry) returns (x: Piece)
    requires SoundCodec(p) && ArePieces(p, pieces)
    ensures x.e == e && IsPiece(p, x) && IsWhole(p, x) && ArePieces(p, pieces + [x])
    ensures Joined(p, pieces + [x]) == Joined(p, pieces) + p.encode(e)
  {
    hide SoundCodec, Joined;
    EncodingIsNonempty(p, e);
    x := Piece(e, |p.encode(e)|);
    assert p.encode(e)[..x.length] == p.encode(e);
    JoinedSnoc(p, pieces, x);
  }

  /** Completing a line behind the writer's back, or on top of a torn one, breaks the log. */
  lemma LineOnTopBreaks(p: Primitives, secret: Bytes, st: LogState, es: seq<AuditEntry>, pieces: seq<Piece>,
                        e: AuditEntry, sink: Bytes)
    requires SoundCodec(p) && SelfDelimiting(p) && Ahead(p, secret, st, es, pieces) && |es| < U64_MAX
    requires e.record.number == st.number
    requires sink == st.sink + LineOf(p, e)
    ensures Scan(p, p.publicKey(secret), StripAll(Lines(sink))).Err?
  {
    hide Unlines, Lines, StripAll, EncodeAll, Chained, SoundCodec, SelfDelimiting, Scan, IsUtf8, Utf8.Blank, Joined;
    var x := EncodingAsPiece(p, pieces, e);
    var last := Joined(p, pieces + [x]);
    assert sink == Unlines(EncodeAll(p, es)) + last + [NEWLINE];
    JoinedIsOneLine(p, pieces + [x]);
    WholeLines(p, es, last);
    if pieces != [] {
      SplicedIsNoEntry(p, pieces + [x]);
    } else {
      NothingJoined(p);
      assert last == p.encode(e);
      DecodesBack(p, e);
    }
    RejectedAtEnd(p, p.publicKey(secret), es, last);
  }

  lemma NothingJoined(p: Primitives)
    ensures Joined(p, []) == []
  {
  }

  lemma EncodingIsNonempty(p: Primitives, e: AuditEntry)
    requires SoundCodec(p)
    ensures p.encode(e) != []
  {
    assert EncodesSoundly(p, e);
  }

  lemma DecodesBack(p: Primitives, e: AuditEntry)
    requires SoundCodec(p)
    ensures p.decode(p.encode(e)) == Some(e)
  {
    assert EncodesSoundly(p, e);
  }

  lemma SplicedIsNoEntry(p: Primitives, pieces: seq<Piece>)
    requires SelfDelimiting(p) && ArePieces(p, pieces) && |pieces| > 1
    ensures p.decode(Joined(p, pieces)) == None
  {
    assert DecodesOnlyWhole(p, pieces);
  }

  lemma NextNumber(p: Primitives, secret: Bytes, st: LogState, op: Op)
    ensures Seal(p, secret, NextRecord(st, op.event, op.timestamp)).record.number == st.number
  {
  }

  /** Once ahead, the sink stays ahead through failures, and breaks with the next complete line. */
  lemma AheadStaysOrBreaks(p: Primitives, secret: Bytes, st: LogState, es: seq<AuditEntry>, pieces: seq<Piece>, op: Op)
    returns (pieces': seq<Piece>)
    requires SoundCodec(p) && SelfDelimiting(p) && Ahead(p, secret, st, es, pieces) && |es| < U64_MAX
    ensures var st' := Appended(p, secret, st, op.event, op.timestamp, op.commit);
            && (Broken(p, secret, st') || Ahead(p, secret, st', es, pieces'))
            && (op.commit.Durable? ==> Broken(p, secret, st'))
  {
    hide Seal, Scan, StripAll, Lines, Unlines, EncodeAll, Chained, SoundCodec, SelfDelimiting, Joined;
    var e := Seal(p, secret, NextRecord(st, op.event, op.timestamp));
    NextNumber(p, secret, st, op);
    var line := LineOf(p, e);
    pieces' := pieces;
    if op.commit.Durable? || op.commit.persisted >= |line| {
      assert line[..|line|] == line;
      LineOnTopBreaks(p, secret, st, es, pieces, e, st.sink + line);
    } else if op.commit.persisted == 0 {
      assert st.sink + line[..0] == st.sink;
    } else {
      var x := Piece(e, op.commit.persisted);
      assert line[..x.length] == p.encode(e)[..x.length];
      JoinedSnoc(p, pieces, x);
      pieces' := pieces + [x];
      assert st.sink + p.encode(e)[..x.length] == Unlines(EncodeAll(p, es)) + Joined(p, pieces');
    }
  }

  /** The first failure that persists something puts the sink ahead. */
  lemma FirstFailure(p: Primitives, secret: Bytes, st: LogState, entries: seq<AuditEntry>, op: Op)
    returns (es: seq<AuditEntry>, pieces: seq<Piece>)
    requires SoundSignatures(p) && SoundCodec(p) && Intact(p, secret, st, entries) && entries != []
    requires |entries| < U64_MAX && op.commit.Failed? && op.commit.persisted > 0
    ensures Ahead(p, secret, Appended(p, secret, st, op.event, op.timestamp, op.commit), es, pieces)
    ensures |es| <= |entries| + 1
  {
    hide Seal, Unlines, EncodeAll, Chained, SoundCodec, SoundSignatures, HeadOf;
    var e := Seal(p, secret, NextRecord(st, op.event, op.timestamp));
    var line := LineOf(p, e);
    NothingJoined(p);
    if op.commit.persisted >= |line| {
      es, pieces := entries + [e], [];
      AppendKeepsIntact(p, secret, st, entries, op.event, op.timestamp);
      assert line[..|line|] == line;
      assert st.sink + line == Unlines(EncodeAll(p, es)) + Joined(p, pieces);
    } else {
      var x := Piece(e, op.commit.persisted);
      es, pieces := entries, [x];
      assert line[..x.length] == p.encode(e)[..x.length];
      JoinedSnoc(p, [], x);
      assert [] + [x] == [x];
      assert Joined(p, [x]) == p.encode(e)[..x.length];
    }
  }

  // ----- Whole runs -----------------------------------------------------------------------------

  ghost predicate Unclean(commit: Commit) {
    commit.Failed? && commit.persisted > 0
  }

  lemma {:induction false} NumberBound(p: Primitives, secret: Bytes, since: nat, ops: seq<Op>)
    ensures Run(p, secret, since, ops).number <= 1 + |ops|
  {
    hide Seal, LineOf;
    if ops != [] {
      NumberBound(p, secret, since, ops[..|ops| - 1]);
    }
  }

  ghost predicate Spoiled(p: Primitives, secret: Bytes, st: LogState) {
    Broken(p, secret, st)
    || exists es: seq<AuditEntry>, pieces: seq<Piece> :: Ahead(p, secret, st, es, pieces)
  }

  lemma SpoiledStays(p: Primitives, secret: Bytes, st: LogState, op: Op)
    requires SoundCodec(p) && SelfDelimiting(p) && Spoiled(p, secret, st) && st.number + 1 < U64_MAX
    ensures var st' := Appended(p, secret, st, op.event, op.timestamp, op.commit);
            Spoiled(p, secret, st') && (op.commit.Durable? ==> Broken(p, secret, st'))
  {
    hide Appended, SoundCodec, SelfDelimiting, Broken;
    var st' := Appended(p, secret, st, op.event, op.timestamp, op.commit);
    if Broken(p, secret, st) {
      SinkGrows(p, secret, st, op);
      BrokenForGood(p, secret, st, st');
    } else {
      var es: seq<AuditEntry>, pieces: seq<Piece> :| Ahead(p, secret, st, es, pieces);
      var pieces' := AheadStaysOrBreaks(p, secret, st, es, pieces, op);
    }
  }

  /** The writer's own account of the log. */
  ghost function Account(st: LogState): Result<ChainHead, AuditError> {
    Ok(ChainHead(st.number, st.number, st.prevHash))
  }

  lemma SpoiledDisagrees(p: Primitives, secret: Bytes, st: LogState)
    requires SoundCodec(p) && Spoiled(p, secret, st) && st.number + 1 < U64_MAX
    ensures Verdict(p, p.publicKey(secret), ReadLines(st.sink)) != Account(st)
  {
    hide SoundCodec, Broken, Verdict, ReadLines;
    if Broken(p, secret, st) {
      BrokenForGood(p, secret, st, st);
    } else {
      var es: seq<AuditEntry>, pieces: seq<Piece> :| Ahead(p, secret, st, es, pieces);
      AheadVerdict(p, secret, st, es, pieces);
    }
  }

  lemma {:induction false} UncleanRunIsSpoiled(p: Primitives, secret: Bytes, since: nat, ops: seq<Op>)
    requires SoundSignatures(p) && SoundCodec(p) && SelfDelimiting(p) && |ops| + 2 < U64_MAX
    requires !CleanFailures(ops)
    ensures Spoiled(p, secret, Run(p, secret, since, ops))
  {
    hide Appended, SoundSignatures, SoundCodec, SelfDelimiting, Spoiled;
    var n := |ops| - 1;
    var st := Run(p, secret, since, ops[..n]);
    if CleanFailures(ops[..n]) {
      assert Unclean(ops[n].commit);
      var entries := RunIsIntact(p, secret, since, ops[..n]);
      SuccessBound(ops[..n]);
      var es, pieces := FirstFailure(p, secret, st, entries, ops[n]);
      AheadIsSpoiled(p, secret, Run(p, secret, since, ops), es, pieces);
    } else {
      UncleanRunIsSpoiled(p, secret, since, ops[..n]);
      NumberBound(p, secret, since, ops[..n]);
      SpoiledStays(p, secret, st, ops[n]);
    }
  }

  lemma AheadIsSpoiled(p: Primitives, secret: Bytes, st: LogState, es: seq<AuditEntry>, pieces: seq<Piece>)
    requires Ahead(p, secret, st, es, pieces)
    ensures Spoiled(p, secret, st)
  {
  }

  lemma {:induction false} SuccessBound(ops: seq<Op>)
    ensures Successes(ops) <= |ops|
  {
    if ops != [] {
      SuccessBound(ops[..|ops| - 1]);
    }
  }

  /**
   After any run of appends, fewer than 2^64 of them, the verifier confirms the writer's
   own count and head if and only if no failed commit left a single byte behind.
   */
  lemma AgreementIffClean(p: Primitives, secret: Bytes, since: nat, ops: seq<Op>)
    requires SoundSignatures(p) && SoundCodec(p) && SelfDelimiting(p) && |ops| + 2 < U64_MAX
    ensures var st := Run(p, secret, since, ops);
            Verdict(p, p.publicKey(secret), ReadLines(st.sink)) == Account(st) <==> CleanFailures(ops)
  {
    hide SoundSignatures, SoundCodec, SelfDelimiting, Spoiled, Run, Verdict, ReadLines;
    if CleanFailures(ops) {
      WriterAgreesWithVerifier(p, secret, since, ops);
    } else {
      UncleanRunIsSpoiled(p, secret, since, ops);
      NumberBound(p, secret, since, ops);
      SpoiledDisagrees(p, secret, Run(p, secret, since, ops));
    }
  }

  /** A failure that left bytes behind, followed at any distance by a success: the log is rejected for good. */
  lemma {:induction false} RejectedForGood(p: Primitives, secret: Bytes, since: nat, ops: seq<Op>, i: nat, j: nat)
    requires SoundSignatures(p) && SoundCodec(p) && SelfDelimiting(p) && |ops| + 2 < U64_MAX
    requires i < j < |ops| && Unclean(ops[i].commit) && ops[j].commit.Durable?
    ensures Broken(p, secret, Run(p, secret, since, ops))
    ensures Verdict(p, p.publicKey(secret), ReadLines(Run(p, secret, since, ops).sink)).Err?
  {
    hide Appended, SoundSignatures, SoundCodec, SelfDelimiting, Spoiled, Broken, Verdict, ReadLines;
    var n := |ops| - 1;
    var before, after := Run(p, secret, since, ops[..n]), Run(p, secret, since, ops);
    if j < n {
      RejectedForGood(p, secret, since, ops[..n], i, j);
      SinkGrows(p, secret, before, ops[n]);
      BrokenForGood(p, secret, before, after);
    } else {
      assert !CleanFailures(ops[..n]) by {
        assert ops[..n][i] == ops[i];
      }
      UncleanRunIsSpoiled(p, secret, since, ops[..n]);
      NumberBound(p, secret, since, ops[..n]);
      SpoiledStays(p, secret, before, ops[n]);
      BrokenForGood(p, secret, after, after);
    }
  }

  // ----- One failure, byte by byte ----------------------------------------------------------------

  /**
   The verdict after one failing append, for every number of bytes it left: none is
   agreement; part of the object is reported at the next number, or as no text if it ends
   inside a character; the whole object,
   with its newline or without, is accepted as an entry the writer does not count.
   */
  lemma VerdictAfterOneFailure(p: Primitives, secret: Bytes, st: LogState, entries: seq<AuditEntry>, op: Op)
    requires SoundSignatures(p) && SoundCodec(p) && SelfDelimiting(p)
    requires Intact(p, secret, st, entries) && entries != [] && |entries| < U64_MAX && op.commit.Failed?
    ensures var e := Seal(p, secret, NextRecord(st, op.event, op.timestamp));
            var st' := Appended(p, secret, st, op.event, op.timestamp, op.commit);
            Verdict(p, p.publicKey(secret), ReadLines(st'.sink)) ==
              if op.commit.persisted == 0 then Account(st)
              else if op.commit.persisted < |p.encode(e)| then
                Err(if IsUtf8(p.encode(e)[..op.commit.persisted]) then ChainBroken(st.number, NotJson) else NotUtf8)
              else Ok(ChainHead(st.number + 1, st.number + 1, e.entryHash))
  {
    hide Seal, SoundSignatures, SoundCodec, SelfDelimiting, Verdict, ReadLines, Intact;
    var e := Seal(p, secret, NextRecord(st, op.event, op.timestamp));
    var k, code := op.commit.persisted, p.encode(e);
    if k == 0 {
      assert st.sink + LineOf(p, e)[..0] == st.sink;
      IntactVerifies(p, secret, st, entries);
    } else if k < |code| {
      var x := Piece(e, k);
      assert [x][..0] == [] && Joined(p, [x]) == code[..k];
      JoinedIsOneLine(p, [x]);
      PartIsNoEntry(p, x);
      TornLineIsReported(p, secret, st, entries, code[..k]);
      assert LineOf(p, e)[..k] == code[..k];
    } else {
      WholeObjectIsAccepted(p, secret, st, entries, op);
    }
  }

  lemma PartIsNoEntry(p: Primitives, x: Piece)
    requires SelfDelimiting(p) && IsPiece(p, x) && !IsWhole(p, x)
    ensures p.decode(p.encode(x.e)[..x.length]) == None
  {
    assert ArePieces(p, [x]);
    assert [x][..0] == [] && Joined(p, [x]) == p.encode(x.e)[..x.length];
    assert DecodesOnlyWhole(p, [x]);
  }

  /** A commit that loses only the newline, or nothing, is accepted although it failed. */
  lemma WholeObjectIsAccepted(p: Primitives, secret: Bytes, st: LogState, entries: seq<AuditEntry>, op: Op)
    requires SoundSignatures(p) && SoundCodec(p)
    requires Intact(p, secret, st, entries) && entries != [] && |entries| < U64_MAX
    requires var e := Seal(p, secret, NextRecord(st, op.event, op.timestamp));
             op.commit.Failed? && op.commit.persisted >= |p.encode(e)|
    ensures var e := Seal(p, secret, NextRecord(st, op.event, op.timestamp));
            Verdict(p, p.publicKey(secret), ReadLines(Appended(p, secret, st, op.event, op.timestamp, op.commit).sink))
            == Ok(ChainHead(st.number + 1, st.number + 1, e.entryHash))
  {
    hide Seal, SoundSignatures, SoundCodec, Verdict, ReadLines, Chained, Unlines, EncodeAll;
    var e := Seal(p, secret, NextRecord(st, op.event, op.timestamp));
    var line, whole := LineOf(p, e), Appended(p, secret, st, op.event, op.timestamp, Durable);
    IntactNumber(p, secret, st, entries);
    AppendKeepsIntact(p, secret, st, entries, op.event, op.timestamp);
    if op.commit.persisted >= |line| {
      assert line[..|line|] == line;
    } else {
      assert line[..|p.encode(e)|] == p.encode(e);
      NewlineDoesNotMatter(p, entries, e);
    }
    IntactVerifies(p, secret, whole, entries + [e]);
  }

  /** The reader yields the same lines with and without the last newline. */
  lemma NewlineDoesNotMatter(p: Primitives, entries: seq<AuditEntry>, e: AuditEntry)
    requires SoundCodec(p)
    ensures ReadLines(Unlines(EncodeAll(p, entries)) + p.encode(e))
         == ReadLines(Unlines(EncodeAll(p, entries)) + LineOf(p, e))
  {
    hide ReadLines, Unlines, EncodeAll;
    assert EncodesSoundly(p, e);
    IntactReads(p, entries, p.encode(e));
    IntactReads(p, entries + [e], []);
    EncodeAllSnoc(p, entries, e);
    UnlinesAppend(EncodeAll(p, entries), [p.encode(e)]);
    UnlinesOne(p.encode(e));
    var sink := Unlines(EncodeAll(p, entries)) + LineOf(p, e);
    assert Unlines(EncodeAll(p, entries + [e])) + [] == sink;
    assert EncodeAll(p, entries + [e]) + [] == EncodeAll(p, entries) + [p.encode(e)];
  }
}

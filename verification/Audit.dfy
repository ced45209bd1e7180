/**
 The hash-chained, signed audit log: its writer, its verifier, and what acceptance
 by the verifier proves about the log.

 Hash, signature and the JSON codec are parameters; the few laws a result needs of
 them are its preconditions. Collision freedom is never assumed: where a result
 rests on it, the alternative is a collision in hand.
 */
module Audit {
  import opened Common
  import opened LineSplit
  import opened Hex
  import opened Utf8
  import opened Events

  datatype AuditRecord = AuditRecord(number: nat, timestamp: nat, prevHash: string, event: AuditEvent)

  datatype AuditEntry = AuditEntry(record: AuditRecord, signature: string, entryHash: string)

  datatype Primitives = Primitives(
    canonical: AuditRecord -> Bytes,
    hash: Bytes -> Bytes,
    encode: AuditEntry -> Bytes,
    decode: Bytes -> Option<AuditEntry>,
    publicKey: Bytes -> Bytes,
    sign: (Bytes, Bytes) -> Bytes,
    verify: (Bytes, Bytes, Bytes) -> bool,
    isKey: Bytes -> bool)

  const SIGNATURE_LENGTH: nat := 64
  const KEY_LENGTH: nat := 32

  ghost predicate InjectiveCanonical(p: Primitives) {
    forall r, s :: p.canonical(r) == p.canonical(s) ==> r == s
  }

  /** What the key pair of a secret seed is for. */
  ghost predicate SoundSignatures(p: Primitives) {
    && (forall secret, message {:trigger p.sign(secret, message)} ::
          && |p.sign(secret, message)| == 64
          && p.verify(p.publicKey(secret), message, p.sign(secret, message)))
    && (forall secret :: |p.publicKey(secret)| == 32 && p.isKey(p.publicKey(secret)))
  }

  const OPENING_BRACE: byte := 123

  /** An entry is the text of one JSON object without line breaks, and decodes back. */
  ghost predicate SoundCodec(p: Primitives) {
    forall e :: EncodesSoundly(p, e)
  }

  ghost predicate EncodesSoundly(p: Primitives, e: AuditEntry) {
    var line := p.encode(e);
    && p.decode(line) == Some(e)
    && IsUtf8(line) && NEWLINE !in line && CARRIAGE_RETURN !in line
    && line != [] && line[0] == OPENING_BRACE
  }

  // ----- Verification -----------------------------------------------------------

  datatype Break = NotJson | WrongNumber | WrongPrevHash | WrongGenesisKey | NoGenesis
                 | SignatureLength | SignatureInvalid | WrongEntryHash

  datatype AuditError = ChainBroken(number: nat, why: Break) | BadHex | BadKey | Empty | NotUtf8

  datatype ChainHead = ChainHead(entries: nat, nextNumber: nat, headHash: string)

  ghost function GenesisPrevHash(): string {
    Encoded(seq(32, _ => 0))
  }

  /** The first entry is chained onto 64 zeros. */
  lemma GenesisIsZeros()
    ensures |GenesisPrevHash()| == 64 && forall i :: 0 <= i < 64 ==> GenesisPrevHash()[i] == '0'
  {
    hide Encoded;
    var zeros: seq<byte> := seq(32, _ => 0);
    EncodedPointwise(zeros, 0);
    forall i | 0 <= i < 64 ensures GenesisPrevHash()[i] == '0' {
      EncodedPointwise(zeros, i / 2);
    }
  }

  /** The decoded signature of an entry, if it is hex of the right length. */
  ghost function SignatureOf(e: AuditEntry): Option<Bytes> {
    match Decoded(e.signature)
    case Some(bytes) => if |bytes| == SIGNATURE_LENGTH then Some(bytes) else None
    case None => None
  }

  ghost function Preimage(p: Primitives, e: AuditEntry): Bytes {
    p.canonical(e.record) + SignatureOf(e).GetOr([])
  }

  /** The recomputed hash of an entry, in hex. */
  ghost function LinkOf(p: Primitives, e: AuditEntry): string {
    Encoded(p.hash(Preimage(p, e)))
  }

  /** The key a genesis entry declares, if it is one. */
  ghost function DeclaredKey(p: Primitives, hexKey: string): Option<Bytes> {
    match Decoded(hexKey)
    case Some(bytes) => if |bytes| == KEY_LENGTH && p.isKey(bytes) then Some(bytes) else None
    case None => None
  }

  /** The first check an entry fails, in the order of the verifier. */
  ghost function CheckEntry(p: Primitives, e: AuditEntry, expected: nat, prev: string, key: Bytes): Option<AuditError> {
    if e.record.number != expected then Some(ChainBroken(expected, WrongNumber))
    else if e.record.prevHash != prev then Some(ChainBroken(expected, WrongPrevHash))
    else if expected == 0 && !e.record.event.Genesis? then Some(ChainBroken(0, NoGenesis))
    else if expected == 0 && DeclaredKey(p, e.record.event.auditPublicKey).None? then
      Some(if Decoded(e.record.event.auditPublicKey).None? then BadHex else BadKey)
    else if expected == 0 && DeclaredKey(p, e.record.event.auditPublicKey) != Some(key) then
      Some(ChainBroken(0, WrongGenesisKey))
    else if Decoded(e.signature).None? then Some(BadHex)
    else if SignatureOf(e).None? then Some(ChainBroken(expected, SignatureLength))
    else if !p.verify(key, p.canonical(e.record), SignatureOf(e).value) then Some(ChainBroken(expected, SignatureInvalid))
    else if LinkOf(p, e) != e.entryHash then Some(ChainBroken(expected, WrongEntryHash))
    else None
  }

  /** How far verification has come. */
  datatype Progress = Progress(count: nat, head: string)

  ghost function Step(p: Primitives, key: Bytes, at: Progress, line: Bytes): Result<Progress, AuditError> {
    if !IsUtf8(line) then Err(NotUtf8)
    else if Blank(line) then Ok(at)
    else match p.decode(line)
      case None => Err(ChainBroken(at.count, NotJson))
      case Some(e) =>
        match CheckEntry(p, e, at.count, at.head, key)
        case Some(error) => Err(error)
        case None => Ok(Progress(SaturatingInc(at.count), LinkOf(p, e)))
  }

  ghost function Scan(p: Primitives, key: Bytes, lines: seq<Bytes>): Result<Progress, AuditError> {
    if lines == [] then Ok(Progress(0, GenesisPrevHash())) else
      match Scan(p, key, lines[..|lines| - 1])
      case Err(error) => Err(error)
      case Ok(at) => Step(p, key, at, lines[|lines| - 1])
  }

  /** The lines a buffered reader yields: newline and a preceding carriage return stripped, a partial last one kept. */
  function ReadLines(content: Bytes): seq<Bytes> {
    StripAll(Lines(content)) + if Rest(content) == [] then [] else [Rest(content)]
  }

  function StripAll(lines: seq<Bytes>): (r: seq<Bytes>)
    ensures |r| == |lines| && forall i :: 0 <= i < |r| ==> r[i] == StripCarriageReturn(lines[i])
  {
    if lines == [] then [] else [StripCarriageReturn(lines[0])] + StripAll(lines[1..])
  }

  /** A log and its copy with carriage returns read the same. */
  lemma CrlfCopyReadsTheSame(content: Bytes)
    requires NoneEndsInReturn(Lines(content))
    ensures ReadLines(ToCrlf(content)) == ReadLines(content)
  {
    hide Lines, Rest, ToCrlf, StripCarriageReturn;
    var lines := Lines(content);
    CrlfLines(content);
    forall i | 0 <= i < |lines| ensures StripCarriageReturn(lines[i] + [13]) == StripCarriageReturn(lines[i]) {
      CrlfStrips(lines[i]);
    }
    assert StripAll(WithReturns(lines)) == StripAll(lines);
  }

  /** And whatever is read is a line without its last byte if that is 13, or the unterminated rest as it is. */
  lemma ReadLinesAreBare(content: Bytes)
    ensures var read, lines := ReadLines(content), Lines(content);
            && |read| == |lines| + (if Rest(content) == [] then 0 else 1)
            && (forall i :: 0 <= i < |lines| ==> IsBare(read[i], lines[i]))
            && (Rest(content) != [] ==> read[|lines|] == Rest(content))
  {
    hide Lines, Rest, StripCarriageReturn, IsBare;
    var lines := Lines(content);
    forall i | 0 <= i < |lines| ensures IsBare(StripAll(lines)[i], lines[i]) {
      StripIsBare(lines[i]);
    }
  }

  ghost function Verdict(p: Primitives, key: Bytes, lines: seq<Bytes>): Result<ChainHead, AuditError> {
    match Scan(p, key, lines)
    case Err(error) => Err(error)
    case Ok(at) => if at.count == 0 then Err(Empty) else Ok(ChainHead(at.count, at.count, at.head))
  }

  method DecodeSignature(e: AuditEntry, expected: nat) returns (r: Result<Bytes, AuditError>)
    ensures r.Ok? <==> SignatureOf(e).Some?
    ensures r.Ok? ==> SignatureOf(e) == Some(r.value)
    ensures r.Err? ==> r.error == if Decoded(e.signature).None? then BadHex else ChainBroken(expected, SignatureLength)
  {
    var raw := Decode(e.signature);
    match raw
    case None => r := Err(BadHex);
    case Some(bytes) =>
      if |bytes| == SIGNATURE_LENGTH {
        r := Ok(bytes);
      } else {
        r := Err(ChainBroken(expected, SignatureLength));
      }
  }

  method VerifyEntry(p: Primitives, e: AuditEntry, expected: nat, prev: string, key: Bytes)
    returns (r: Result<string, AuditError>)
    ensures CheckEntry(p, e, expected, prev, key) == match r case Ok(_) => None case Err(error) => Some(error)
    ensures r.Ok? ==> r.value == LinkOf(p, e)
  {
    if e.record.number != expected {
      return Err(ChainBroken(expected, WrongNumber));
    }
    if e.record.prevHash != prev {
      return Err(ChainBroken(expected, WrongPrevHash));
    }
    if expected == 0 {
      match e.record.event {
        case Genesis(hexKey) =>
          var declared := Decode(hexKey);
          if declared.None? {
            return Err(BadHex);
          }
          if |declared.value| != KEY_LENGTH || !p.isKey(declared.value) {
            return Err(BadKey);
          }
          if declared.value != key {
            return Err(ChainBroken(0, WrongGenesisKey));
          }
        case _ =>
          return Err(ChainBroken(0, NoGenesis));
      }
    }
    var canonical := p.canonical(e.record);
    var signature := DecodeSignature(e, expected);
    if signature.Err? {
      return Err(signature.error);
    }
    if !p.verify(key, canonical, signature.value) {
      return Err(ChainBroken(expected, SignatureInvalid));
    }
    var recomputed := Encode(p.hash(canonical + signature.value));
    if recomputed != e.entryHash {
      return Err(ChainBroken(expected, WrongEntryHash));
    }
    r := Ok(recomputed);
  }

  /** Verify an entire chain, requiring every entry to be signed by `key`. */
  method VerifyChain(p: Primitives, content: Bytes, key: Bytes) returns (r: Result<ChainHead, AuditError>)
    ensures r == Verdict(p, key, ReadLines(content))
  {
    hide CheckEntry, LinkOf, Blank, IsUtf8, ReadLines;
    var lines := ReadLines(content);
    var expected := 0;
    var head := Encode(seq(32, _ => 0));
    var i := 0;
    while i < |lines|
      invariant 0 <= i <= |lines|
      invariant Scan(p, key, lines[..i]) == Ok(Progress(expected, head))
    {
      assert lines[..i + 1][..i] == lines[..i];
      if !IsUtf8(lines[i]) {
        ScanFails(p, key, lines, i + 1);
        return Err(NotUtf8);
      }
      if !Blank(lines[i]) {
        match p.decode(lines[i]) {
          case None =>
            ScanFails(p, key, lines, i + 1);
            return Err(ChainBroken(expected, NotJson));
          case Some(e) =>
            var verified := VerifyEntry(p, e, expected, head, key);
            if verified.Err? {
              ScanFails(p, key, lines, i + 1);
              return Err(verified.error);
            }
            head := verified.value;
            expected := SaturatingInc(expected);
        }
      }
      i := i + 1;
    }
    assert lines[..i] == lines;
    if expected == 0 {
      return Err(Empty);
    }
    r := Ok(ChainHead(expected, expected, head));
  }

  lemma {:induction false} ScanFails(p: Primitives, key: Bytes, lines: seq<Bytes>, k: nat)
    requires k <= |lines| && Scan(p, key, lines[..k]).Err?
    ensures Scan(p, key, lines) == Scan(p, key, lines[..k])
  {
    if k == |lines| {
      assert lines[..k] == lines;
    } else {
      assert lines[..|lines| - 1][..k] == lines[..k];
      ScanFails(p, key, lines[..|lines| - 1], k);
    }
  }

  // ----- What acceptance means ------------------------------------------------------

  /** The entries of the non-blank lines. */
  ghost function Entries(p: Primitives, lines: seq<Bytes>): seq<AuditEntry> {
    if lines == [] then [] else
      var n := |lines| - 1;
      var e := p.decode(lines[n]);
      Entries(p, lines[..n]) + if Blank(lines[n]) || e.None? then [] else [e.value]
  }

  ghost predicate AllParse(p: Primitives, lines: seq<Bytes>) {
    forall i :: 0 <= i < |lines| ==> Parses(p, lines[i])
  }

  ghost predicate Parses(p: Primitives, line: Bytes) {
    IsUtf8(line) && (Blank(line) || p.decode(line).Some?)
  }

  ghost function Saturated(n: nat): nat {
    if n < U64_MAX then n else U64_MAX
  }

  ghost function HeadOf(p: Primitives, entries: seq<AuditEntry>): string {
    if entries == [] then GenesisPrevHash() else LinkOf(p, entries[|entries| - 1])
  }

  /** Entry `i` is numbered, linked, signed and hashed as its place in the chain demands. */
  ghost predicate Fits(p: Primitives, key: Bytes, entries: seq<AuditEntry>, i: nat)
    requires i < |entries|
  {
    var e := entries[i];
    && e.record.number == Saturated(i)
    && e.record.prevHash == HeadOf(p, entries[..i])
    && (i == 0 ==> e.record.event.Genesis? && DeclaredKey(p, e.record.event.auditPublicKey) == Some(key))
    && SignatureOf(e).Some?
    && p.verify(key, p.canonical(e.record), SignatureOf(e).value)
    && e.entryHash == LinkOf(p, e)
  }

  ghost predicate Chained(p: Primitives, key: Bytes, entries: seq<AuditEntry>) {
    forall i :: 0 <= i < |entries| ==> Fits(p, key, entries, i)
  }

  lemma ChainedPrefix(p: Primitives, key: Bytes, entries: seq<AuditEntry>, n: nat)
    requires n <= |entries| && Chained(p, key, entries)
    ensures Chained(p, key, entries[..n])
  {
    forall i | 0 <= i < n ensures Fits(p, key, entries[..n], i) {
      assert Fits(p, key, entries, i);
      assert entries[..n][..i] == entries[..i];
    }
  }

  lemma ChainedSnoc(p: Primitives, key: Bytes, entries: seq<AuditEntry>, e: AuditEntry)
    ensures Chained(p, key, entries + [e]) <==> Chained(p, key, entries) && Fits(p, key, entries + [e], |entries|)
  {
    var all := entries + [e];
    forall i | 0 <= i < |entries| ensures Fits(p, key, all, i) <==> Fits(p, key, entries, i) {
      assert all[..i] == entries[..i];
    }
  }

  lemma CheckEntryIsFits(p: Primitives, key: Bytes, entries: seq<AuditEntry>, e: AuditEntry)
    ensures CheckEntry(p, e, Saturated(|entries|), HeadOf(p, entries), key) == None
       <==> Fits(p, key, entries + [e], |entries|)
  {
    assert (entries + [e])[..|entries|] == entries;
  }

  /**
   The verifier accepts if and only if every line is text that is blank or an entry, there is an
   entry, and every entry fits its place; it then reports their number and the hash
   of the last one.
   */
  lemma VerdictMeaning(p: Primitives, key: Bytes, lines: seq<Bytes>)
    ensures Verdict(p, key, lines).Ok?
       <==> AllParse(p, lines) && Entries(p, lines) != [] && Chained(p, key, Entries(p, lines))
    ensures Verdict(p, key, lines).Ok? ==>
              Verdict(p, key, lines).value == ChainHead(Saturated(|Entries(p, lines)|), Saturated(|Entries(p, lines)|),
                                                        HeadOf(p, Entries(p, lines)))
  {
    ScanMeaning(p, key, lines);
  }

  lemma {:induction false} ScanMeaning(p: Primitives, key: Bytes, lines: seq<Bytes>)
    ensures Scan(p, key, lines).Ok? <==> AllParse(p, lines) && Chained(p, key, Entries(p, lines))
    ensures Scan(p, key, lines).Ok? ==>
              Scan(p, key, lines).value == Progress(Saturated(|Entries(p, lines)|), HeadOf(p, Entries(p, lines)))
  {
    hide CheckEntry, LinkOf, Fits, Blank, IsUtf8;
    if lines == [] {
    } else {
      var n := |lines| - 1;
      var line := lines[n];
      var before := Entries(p, lines[..n]);
      ScanMeaning(p, key, lines[..n]);
      AllParseSnoc(p, lines);
      if !Blank(line) && p.decode(line).Some? {
        ChainedSnoc(p, key, before, p.decode(line).value);
        CheckEntryIsFits(p, key, before, p.decode(line).value);
      } else {
        assert Entries(p, lines) == before;
      }
    }
  }

  lemma AllParseSnoc(p: Primitives, lines: seq<Bytes>)
    requires lines != []
    ensures var n := |lines| - 1;
            AllParse(p, lines) <==> AllParse(p, lines[..n]) && Parses(p, lines[n])
  {
    var n := |lines| - 1;
    assert forall i :: 0 <= i < n ==> lines[..n][i] == lines[i];
  }
}

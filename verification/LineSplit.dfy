/** Splitting bytes into newline-terminated lines, and putting them back together. */
module LineSplit {
  import opened Common

  const NEWLINE: byte := 10
  const CARRIAGE_RETURN: byte := 13

  function FirstNewline(s: Bytes): (k: nat)
    ensures k <= |s|
    ensures NEWLINE !in s[..k]
    ensures k < |s| ==> s[k] == NEWLINE
  {
    if s == [] || s[0] == NEWLINE then 0 else
      var k := FirstNewline(s[1..]);
      assert s[..k + 1] == [s[0]] + s[1..][..k];
      k + 1
  }

  /** The newline-terminated lines of `s`, without their newlines. */
  function Lines(s: Bytes): seq<Bytes>
    decreases |s|
  {
    var k := FirstNewline(s);
    if k == |s| then [] else [s[..k]] + Lines(s[k + 1..])
  }

  /** The lines put back together, each with its newline. */
  ghost function Unlines(lines: seq<Bytes>): Bytes {
    if lines == [] then [] else lines[0] + [10] + Unlines(lines[1..])
  }

  ghost predicate NewlineFree(lines: seq<Bytes>) {
    forall i :: 0 <= i < |lines| ==> 10 !in lines[i]
  }

  /** What follows the last newline. */
  function Rest(s: Bytes): Bytes
    decreases |s|
  {
    var k := FirstNewline(s);
    if k == |s| then s else Rest(s[k + 1..])
  }

  lemma UnlinesCons(line: Bytes, lines: seq<Bytes>)
    ensures Unlines([line] + lines) == line + [NEWLINE] + Unlines(lines)
  {
    assert ([line] + lines)[1..] == lines;
  }

  lemma CutAt(s: Bytes, k: nat, u: Bytes, r: Bytes)
    requires k < |s| && s[k] == NEWLINE && s[k + 1..] == u + r
    ensures s == s[..k] + [NEWLINE] + u + r
  {
    assert s == s[..k] + [s[k]] + s[k + 1..];
  }

  /** Splitting loses nothing: the lines and an unterminated rest make up the file. */
  lemma {:induction false} LinesThenRest(s: Bytes)
    ensures s == Unlines(Lines(s)) + Rest(s)
    ensures NEWLINE !in Rest(s) && NewlineFree(Lines(s))
    decreases |s|
  {
    var k := FirstNewline(s);
    if k == |s| {
      assert s[..k] == s;
    } else {
      var tail := s[k + 1..];
      LinesThenRest(tail);
      UnlinesCons(s[..k], Lines(tail));
      CutAt(s, k, Unlines(Lines(tail)), Rest(tail));
    }
  }

  lemma FirstNewlineAt(line: Bytes, more: Bytes)
    requires NEWLINE !in line
    ensures FirstNewline(line + [NEWLINE] + more) == |line|
  {
    var s := line + [NEWLINE] + more;
    assert s[|line|] == NEWLINE;
    assert s[..FirstNewline(s)] <= s;
  }

  /** And it is the only way to cut the file so. */
  lemma {:induction false} LinesUnique(lines: seq<Bytes>, rest: Bytes)
    requires NewlineFree(lines) && NEWLINE !in rest
    ensures Lines(Unlines(lines) + rest) == lines
  {
    var s := Unlines(lines) + rest;
    if lines == [] {
      assert s == rest;
      assert FirstNewline(s) == |s|;
    } else {
      var more := Unlines(lines[1..]) + rest;
      assert s == lines[0] + [NEWLINE] + more;
      FirstNewlineAt(lines[0], more);
      assert s[..|lines[0]|] == lines[0] && s[|lines[0]| + 1..] == more;
      assert NewlineFree(lines[1..]);
      LinesUnique(lines[1..], rest);
    }
  }

  /** Appending to a file only adds lines at the end. */
  lemma LinesGrow(s: Bytes, more: Bytes)
    ensures Lines(s) <= Lines(s + more)
  {
    hide Lines, Unlines, Rest, FirstNewline;
    var r := Rest(s) + more;
    LinesThenRest(s);
    LinesThenRest(r);
    assert NewlineFree(Lines(s) + Lines(r));
    UnlinesAppend(Lines(s), Lines(r));
    assert s + more == Unlines(Lines(s)) + r;
    assert s + more == Unlines(Lines(s) + Lines(r)) + Rest(r);
    LinesUnique(Lines(s) + Lines(r), Rest(r));
  }

  lemma {:induction false} UnlinesAppend(a: seq<Bytes>, b: seq<Bytes>)
    ensures Unlines(a + b) == Unlines(a) + Unlines(b)
  {
    if a == [] {
      assert a + b == b;
    } else {
      assert (a + b)[1..] == a[1..] + b;
      UnlinesAppend(a[1..], b);
    }
  }

  /** The bytes the first `n` lines take up in the file. */
  ghost function SizeOf(lines: seq<Bytes>): nat {
    |Unlines(lines)|
  }

  /** Past its first `n` lines, a file holds exactly its other lines. */
  lemma LinesAfter(s: Bytes, n: nat)
    requires n <= |Lines(s)|
    ensures SizeOf(Lines(s)[..n]) <= |s|
    ensures Lines(s[SizeOf(Lines(s)[..n])..]) == Lines(s)[n..]
  {
    hide Lines, Unlines, Rest, FirstNewline;
    LinesThenRest(s);
    var a, b, rest := Lines(s)[..n], Lines(s)[n..], Rest(s);
    assert Lines(s) == a + b;
    UnlinesAppend(a, b);
    assert s == Unlines(a) + (Unlines(b) + rest);
    assert s[SizeOf(a)..] == Unlines(b) + rest;
    LinesUnique(b, rest);
  }

  /** Where a read stands after `count` lines: at a partial rest, or at line `count`. */
  lemma NextLine(content: Bytes, start: nat, count: nat)
    requires start <= |content| && count <= |Lines(content[start..])|
    ensures var pending := Lines(content[start..]);
            var at := start + SizeOf(pending[..count]);
            && at <= |content|
            && var k := FirstNewline(content[at..]);
            && (k == |content[at..]| <==> count == |pending|)
            && (count < |pending| ==> pending[count] == content[at..][..k]
                                      && SizeOf(pending[..count + 1]) == SizeOf(pending[..count]) + k + 1)
  {
    hide Unlines;
    var pending := Lines(content[start..]);
    LinesAfter(content[start..], count);
    var at := start + SizeOf(pending[..count]);
    assert content[start..][SizeOf(pending[..count])..] == content[at..];
    if count < |pending| {
      SizeOfSnoc(pending, count);
    }
  }

  lemma SizeOfSnoc(lines: seq<Bytes>, n: nat)
    requires n < |lines|
    ensures SizeOf(lines[..n + 1]) == SizeOf(lines[..n]) + |lines[n]| + 1
  {
    assert lines[..n + 1] == lines[..n] + [lines[n]];
    UnlinesAppend(lines[..n], [lines[n]]);
    assert Unlines([lines[n]]) == lines[n] + [NEWLINE];
  }

  /** Strip one carriage return before the newline. */
  function StripCarriageReturn(line: Bytes): Bytes {
    if line != [] && line[|line| - 1] == CARRIAGE_RETURN then line[..|line| - 1] else line
  }

  // ----- Carriage returns ------------------------------------------------------------

  /** What is left of a line: without its last byte if that is 13, and otherwise as it is. */
  ghost predicate IsBare(bare: Bytes, line: Bytes) {
    line == bare + [13] || (line == bare && (bare == [] || bare[|bare| - 1] != 13))
  }

  lemma StripIsBare(line: Bytes)
    ensures IsBare(StripCarriageReturn(line), line)
    ensures forall bare: Bytes :: IsBare(bare, line) ==> bare == StripCarriageReturn(line)
  {
    if line != [] && line[|line| - 1] == 13 {
      assert line == line[..|line| - 1] + [13];
    }
    forall bare: Bytes | IsBare(bare, line) ensures bare == StripCarriageReturn(line) {
      if line == bare + [13] {
        assert line[..|line| - 1] == bare;
      }
    }
  }

  /** The copy of a file with a carriage return put before every newline. */
  ghost function ToCrlf(s: Bytes): Bytes {
    if s == [] then [] else (if s[0] == 10 then [13, 10] else [s[0]]) + ToCrlf(s[1..])
  }

  ghost function WithReturns(lines: seq<Bytes>): seq<Bytes> {
    seq(|lines|, i requires 0 <= i < |lines| => lines[i] + [13])
  }

  ghost predicate NoneEndsInReturn(lines: seq<Bytes>) {
    forall i :: 0 <= i < |lines| ==> lines[i] == [] || lines[i][|lines[i]| - 1] != 13
  }

  lemma {:induction false} ToCrlfAppend(a: Bytes, b: Bytes)
    ensures ToCrlf(a + b) == ToCrlf(a) + ToCrlf(b)
  {
    if a == [] {
      assert a + b == b;
    } else {
      assert (a + b)[1..] == a[1..] + b;
      ToCrlfAppend(a[1..], b);
    }
  }

  lemma {:induction false} ToCrlfOfLine(s: Bytes)
    requires 10 !in s
    ensures ToCrlf(s) == s
  {
    if s != [] {
      ToCrlfOfLine(s[1..]);
    }
  }

  lemma ToCrlfOfOne(line: Bytes, more: Bytes)
    requires 10 !in line
    ensures ToCrlf(line + [10] + more) == (line + [13]) + [10] + ToCrlf(more)
  {
    ToCrlfAppend(line + [10], more);
    ToCrlfAppend(line, [10]);
    ToCrlfOfLine(line);
    assert ToCrlf([10]) == [13, 10] + ToCrlf([]);
  }

  lemma {:induction false} ToCrlfOfLines(lines: seq<Bytes>)
    requires NewlineFree(lines)
    ensures ToCrlf(Unlines(lines)) == Unlines(WithReturns(lines))
  {
    hide ToCrlf;
    if lines == [] {
      NothingToCopy();
    } else {
      ToCrlfOfLines(lines[1..]);
      ToCrlfOfOne(lines[0], Unlines(lines[1..]));
      WithReturnsCons(lines);
      UnlinesCons(lines[0] + [13], WithReturns(lines[1..]));
    }
  }

  lemma NothingToCopy()
    ensures ToCrlf(Unlines([])) == Unlines(WithReturns([]))
  {
    assert WithReturns([]) == [];
  }

  lemma WithReturnsCons(lines: seq<Bytes>)
    requires lines != []
    ensures WithReturns(lines) == [lines[0] + [13]] + WithReturns(lines[1..])
  {
  }

  /** The copy has the same lines with a carriage return each, and the same rest. */
  lemma CrlfLines(s: Bytes)
    ensures Lines(ToCrlf(s)) == WithReturns(Lines(s)) && Rest(ToCrlf(s)) == Rest(s)
  {
    hide Lines, Rest, Unlines, ToCrlf;
    var lines, rest := Lines(s), Rest(s);
    LinesThenRest(s);
    ToCrlfAppend(Unlines(lines), rest);
    ToCrlfOfLines(lines);
    ToCrlfOfLine(rest);
    LinesUnique(WithReturns(lines), rest);
    LinesThenRest(ToCrlf(s));
    assert Rest(ToCrlf(s)) == ToCrlf(s)[|Unlines(WithReturns(lines))|..] == rest;
  }

  /** Stripped, the lines of the copy are those of the file. */
  lemma CrlfStrips(line: Bytes)
    requires line == [] || line[|line| - 1] != 13
    ensures StripCarriageReturn(line + [13]) == line == StripCarriageReturn(line)
  {
  }
}

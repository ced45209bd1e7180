/** Bytes as text: which byte strings are UTF-8, and which of them are blank. */
module Utf8 {
  import opened Common
  import Text

  predicate IsTrail(b: byte) {
    0x80 <= b <= 0xBF
  }

  /** The length of the well-formed character `s` begins with, or 0 (table 3-7 of the Unicode Standard). */
  function LeadingChar(s: Bytes): (n: nat)
    ensures n <= |s|
  {
    if s == [] then 0
    else if s[0] <= 0x7F then 1
    else if |s| < 2 then 0
    else if 0xC2 <= s[0] <= 0xDF then (if IsTrail(s[1]) then 2 else 0)
    else if |s| < 3 then 0
    else if 0xE0 <= s[0] <= 0xEF then
      (if (if s[0] == 0xE0 then 0xA0 <= s[1] <= 0xBF
           else if s[0] == 0xED then 0x80 <= s[1] <= 0x9F
           else IsTrail(s[1])) && IsTrail(s[2]) then 3 else 0)
    else if |s| < 4 then 0
    else if 0xF0 <= s[0] <= 0xF4 then
      (if (if s[0] == 0xF0 then 0x90 <= s[1] <= 0xBF
           else if s[0] == 0xF4 then 0x80 <= s[1] <= 0x8F
           else IsTrail(s[1])) && IsTrail(s[2]) && IsTrail(s[3]) then 4 else 0)
    else 0
  }

  predicate IsUtf8(s: Bytes)
    decreases |s|
  {
    s == [] || (LeadingChar(s) > 0 && IsUtf8(s[LeadingChar(s)..]))
  }

  /** The length of the white space character `s` begins with, or 0. */
  function LeadingWhite(s: Bytes): (n: nat)
    ensures n <= |s|
  {
    if |s| >= 1 && (9 <= s[0] <= 13 || s[0] == 0x20) then 1
    else if |s| >= 2 && s[0] == 0xC2 && (s[1] == 0x85 || s[1] == 0xA0) then 2
    else if |s| >= 3 && ((s[0] == 0xE1 && s[1] == 0x9A && s[2] == 0x80)
                         || (s[0] == 0xE2 && s[1] == 0x80
                             && (0x80 <= s[2] <= 0x8A || s[2] == 0xA8 || s[2] == 0xA9 || s[2] == 0xAF))
                         || (s[0] == 0xE2 && s[1] == 0x81 && s[2] == 0x9F)
                         || (s[0] == 0xE3 && s[1] == 0x80 && s[2] == 0x80)) then 3
    else 0
  }

  /** Nothing is left of the line once it is trimmed. */
  predicate Blank(line: Bytes)
    decreases |line|
  {
    line == [] || (LeadingWhite(line) > 0 && Blank(line[LeadingWhite(line)..]))
  }

  // ----- Against the encoding of code points -------------------------------------------

  predicate IsScalar(c: int) {
    0 <= c <= 0xD7FF || 0xE000 <= c <= 0x10FFFF
  }

  /** The bytes of one code point. */
  ghost function Encoding(c: int): Bytes
    requires IsScalar(c)
  {
    if c < 0x80 then [c]
    else if c < 0x800 then [0xC0 + c / 64, 0x80 + c % 64]
    else if c < 0x10000 then [0xE0 + c / 64 / 64, 0x80 + c / 64 % 64, 0x80 + c % 64]
    else [0xF0 + c / 64 / 64 / 64, 0x80 + c / 64 / 64 % 64, 0x80 + c / 64 % 64, 0x80 + c % 64]
  }

  ghost predicate AreScalars(text: seq<int>) {
    forall i :: 0 <= i < |text| ==> IsScalar(text[i])
  }

  ghost function EncodingOf(text: seq<int>): Bytes
    requires AreScalars(text)
  {
    if text == [] then [] else Encoding(text[0]) + EncodingOf(text[1..])
  }

  lemma Digits64(q: int, r: int)
    requires 0 <= r < 64
    ensures (q * 64 + r) / 64 == q && (q * 64 + r) % 64 == r
  {
  }

  /** A well-formed character at the front is the encoding of a code point. */
  lemma LeadingIsEncoding(s: Bytes) returns (c: int)
    requires LeadingChar(s) > 0
    ensures IsScalar(c) && s[..LeadingChar(s)] == Encoding(c)
  {
    var n := LeadingChar(s);
    var b0: int := s[0];
    if n == 1 {
      c := b0;
      assert s[..1] == [s[0]];
    } else if n == 2 {
      var b1: int := s[1];
      c := (b0 - 0xC0) * 64 + (b1 - 0x80);
      Digits64(b0 - 0xC0, b1 - 0x80);
      assert s[..2] == [s[0], s[1]];
    } else if n == 3 {
      var b1: int, b2: int := s[1], s[2];
      c := ((b0 - 0xE0) * 64 + (b1 - 0x80)) * 64 + (b2 - 0x80);
      Digits64(b0 - 0xE0, b1 - 0x80);
      Digits64((b0 - 0xE0) * 64 + (b1 - 0x80), b2 - 0x80);
      assert s[..3] == [s[0], s[1], s[2]];
    } else {
      var b1: int, b2: int, b3: int := s[1], s[2], s[3];
      c := (((b0 - 0xF0) * 64 + (b1 - 0x80)) * 64 + (b2 - 0x80)) * 64 + (b3 - 0x80);
      Digits64(b0 - 0xF0, b1 - 0x80);
      Digits64((b0 - 0xF0) * 64 + (b1 - 0x80), b2 - 0x80);
      Digits64(((b0 - 0xF0) * 64 + (b1 - 0x80)) * 64 + (b2 - 0x80), b3 - 0x80);
      assert s[..4] == [s[0], s[1], s[2], s[3]];
    }
  }

  /** And the encoding of a code point is one well-formed character, white exactly if the code point is. */
  lemma EncodingLeads(c: int, rest: Bytes)
    requires IsScalar(c)
    ensures LeadingChar(Encoding(c) + rest) == |Encoding(c)|
    ensures LeadingWhite(Encoding(c) + rest) == if Text.IsWhite(c as char) then |Encoding(c)| else 0
  {
    hide LeadingChar, LeadingWhite, Text.IsWhite;
    var s := Encoding(c) + rest;
    if c < 0x80 {
      OneByte(c, s);
    } else if c < 0x800 {
      TwoBytes(c, c / 64, c % 64, s);
    } else if c < 0x10000 {
      ThreeBytes(c, c / 64 / 64, c / 64 % 64, c % 64, s);
    } else {
      FourBytes(c, c / 64 / 64 / 64, c / 64 / 64 % 64, c / 64 % 64, c % 64, s);
    }
  }

  lemma OneByte(c: int, s: Bytes)
    requires 0 <= c < 0x80 && |s| >= 1 && s[0] == c
    ensures LeadingChar(s) == 1 && LeadingWhite(s) == if Text.IsWhite(c as char) then 1 else 0
  {
  }

  lemma TwoBytes(c: int, hi: int, lo: int, s: Bytes)
    requires 0x80 <= c < 0x800 && c == hi * 64 + lo && 0 <= lo < 64
    requires |s| >= 2 && s[0] == 0xC0 + hi && s[1] == 0x80 + lo
    ensures LeadingChar(s) == 2 && LeadingWhite(s) == if Text.IsWhite(c as char) then 2 else 0
  {
  }

  lemma ThreeBytes(c: int, hi: int, mid: int, lo: int, s: Bytes)
    requires 0x800 <= c < 0x10000 && IsScalar(c) && c == hi * 4096 + mid * 64 + lo && 0 <= mid < 64 && 0 <= lo < 64
    requires |s| >= 3 && s[0] == 0xE0 + hi && s[1] == 0x80 + mid && s[2] == 0x80 + lo
    ensures LeadingChar(s) == 3 && LeadingWhite(s) == if Text.IsWhite(c as char) then 3 else 0
  {
  }

  lemma FourBytes(c: int, top: int, hi: int, mid: int, lo: int, s: Bytes)
    requires 0x10000 <= c && IsScalar(c) && c == top * 262144 + hi * 4096 + mid * 64 + lo
    requires 0 <= hi < 64 && 0 <= mid < 64 && 0 <= lo < 64
    requires |s| >= 4 && s[0] == 0xF0 + top && s[1] == 0x80 + hi && s[2] == 0x80 + mid && s[3] == 0x80 + lo
    ensures LeadingChar(s) == 4 && LeadingWhite(s) == if Text.IsWhite(c as char) then 4 else 0
  {
  }

  /** A byte string is UTF-8 exactly if it is the encoding of some code points. */
  lemma {:induction false} Utf8Meaning(s: Bytes)
    ensures IsUtf8(s) <==> exists text: seq<int> :: AreScalars(text) && s == EncodingOf(text)
    decreases |s|
  {
    if IsUtf8(s) {
      var text := Utf8Has(s);
    }
    forall text: seq<int> | AreScalars(text) && s == EncodingOf(text) ensures IsUtf8(s) {
      EncodingIsUtf8(text);
    }
  }

  lemma {:induction false} Utf8Has(s: Bytes) returns (text: seq<int>)
    requires IsUtf8(s)
    ensures AreScalars(text) && s == EncodingOf(text)
    decreases |s|
  {
    hide LeadingChar, Encoding;
    text := [];
    if s != [] {
      var n := LeadingChar(s);
      var c := LeadingIsEncoding(s);
      var more := Utf8Has(s[n..]);
      text := [c] + more;
      assert text[1..] == more;
      assert s == s[..n] + s[n..];
    }
  }

  lemma {:induction false} EncodingIsUtf8(text: seq<int>)
    requires AreScalars(text)
    ensures IsUtf8(EncodingOf(text))
  {
    hide LeadingChar, LeadingWhite, Encoding;
    if text != [] {
      var e, rest := Encoding(text[0]), EncodingOf(text[1..]);
      EncodingIsUtf8(text[1..]);
      EncodingLeads(text[0], rest);
      EncodingIsNonempty(text[0]);
      assert (e + rest)[|e|..] == rest;
    }
  }

  lemma EncodingIsNonempty(c: int)
    requires IsScalar(c)
    ensures Encoding(c) != []
  {
  }

  /** A text is blank exactly if all its code points are white space. */
  lemma {:induction false} BlankMeaning(text: seq<int>)
    requires AreScalars(text)
    ensures Blank(EncodingOf(text)) <==> forall i :: 0 <= i < |text| ==> Text.IsWhite(text[i] as char)
  {
    hide LeadingChar, LeadingWhite, Encoding, Text.IsWhite;
    if text != [] {
      var e, rest := Encoding(text[0]), EncodingOf(text[1..]);
      BlankMeaning(text[1..]);
      EncodingLeads(text[0], rest);
      EncodingIsNonempty(text[0]);
      assert (e + rest)[|e|..] == rest;
      assert forall i :: 1 <= i < |text| ==> text[i] == text[1..][i - 1];
    }
  }
}

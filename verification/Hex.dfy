/** Hex encoding and decoding as the audit log uses it: lowercase out, either case in. */
module Hex {
  import opened Common

  function Digit(n: int): char
    requires 0 <= n < 16
  {
    "0123456789abcdef"[n]
  }

  function Nibble(c: char): (r: Option<int>)
    ensures r.Some? ==> 0 <= r.value < 16
  {
    if '0' <= c <= '9' then Some(c as int - '0' as int)
    else if 'a' <= c <= 'f' then Some(10 + c as int - 'a' as int)
    else if 'A' <= c <= 'F' then Some(10 + c as int - 'A' as int)
    else None
  }

  ghost function Encoded(bytes: seq<byte>): string {
    if bytes == [] then "" else
      var n := |bytes| - 1;
      Encoded(bytes[..n]) + [Digit(bytes[n] / 16), Digit(bytes[n] % 16)]
  }

  ghost function Decoded(s: string): Option<seq<byte>> {
    if s == "" then Some([])
    else if |s| == 1 then None
    else
      var n := |s| - 2;
      match (Decoded(s[..n]), Nibble(s[n]), Nibble(s[n + 1]))
      case (Some(front), Some(hi), Some(lo)) => Some(front + [hi * 16 + lo])
      case _ => None
  }

  method Encode(bytes: seq<byte>) returns (s: string)
    ensures s == Encoded(bytes)
  {
    s := "";
    for i := 0 to |bytes|
      invariant s == Encoded(bytes[..i])
    {
      assert bytes[..i + 1][..i] == bytes[..i];
      s := s + [Digit(bytes[i] / 16)];
      s := s + [Digit(bytes[i] % 16)];
    }
    assert bytes[..|bytes|] == bytes;
  }

  lemma {:induction false} OddLengthFails(s: string)
    requires |s| % 2 == 1
    ensures Decoded(s) == None
  {
    if |s| > 1 {
      OddLengthFails(s[..|s| - 2]);
    }
  }

  lemma {:induction false} BadFrontFails(s: string, k: nat)
    requires k <= |s| && (|s| - k) % 2 == 0 && Decoded(s[..k]) == None
    ensures Decoded(s) == None
    decreases |s|
  {
    if k < |s| {
      assert s[..|s| - 2][..k] == s[..k];
      BadFrontFails(s[..|s| - 2], k);
    } else {
      assert s[..k] == s;
    }
  }

  /** An odd length fails first; otherwise pairs are decoded until one is malformed. */
  method Decode(s: string) returns (r: Option<seq<byte>>)
    ensures r == Decoded(s)
  {
    if |s| % 2 == 1 {
      OddLengthFails(s);
      return None;
    }
    var out := [];
    var i := 0;
    while i < |s|
      invariant 0 <= i <= |s| && i % 2 == 0
      invariant Decoded(s[..i]) == Some(out)
    {
      assert s[..i + 2][..i] == s[..i];
      var hi, lo := Nibble(s[i]), Nibble(s[i + 1]);
      if hi.None? || lo.None? {
        BadFrontFails(s, i + 2);
        return None;
      }
      out := out + [hi.value * 16 + lo.value];
      i := i + 2;
    }
    assert s[..i] == s;
    r := Some(out);
  }

  lemma DecodedSnoc(front: string, hi: char, lo: char)
    ensures Decoded(front + [hi, lo])
         == match (Decoded(front), Nibble(hi), Nibble(lo))
            case (Some(bytes), Some(h), Some(l)) => Some(bytes + [h * 16 + l])
            case _ => None
  {
    var s := front + [hi, lo];
    assert s[..|s| - 2] == front;
  }

  /** The two digits of a byte give it back. */
  lemma BytePair(b: byte)
    ensures Nibble(Digit(b / 16)) == Some(b / 16) && Nibble(Digit(b % 16)) == Some(b % 16)
    ensures (b / 16) * 16 + b % 16 == b
  {
    DigitNibble(b / 16);
    DigitNibble(b % 16);
  }

  /** Decoding undoes encoding. */
  lemma {:induction false} DecodeEncode(bytes: seq<byte>)
    ensures Decoded(Encoded(bytes)) == Some(bytes)
  {
    hide Nibble, Digit, Decoded;
    if bytes == [] {
      NothingDecoded();
    } else {
      var n := |bytes| - 1;
      var b := bytes[n];
      DecodeEncode(bytes[..n]);
      BytePair(b);
      DecodedSnoc(Encoded(bytes[..n]), Digit(b / 16), Digit(b % 16));
      assert bytes == bytes[..n] + [b];
    }
  }

  lemma NothingDecoded()
    ensures Decoded("") == Some([])
  {
  }

  lemma DigitNibble(n: int)
    requires 0 <= n < 16
    ensures Nibble(Digit(n)) == Some(n)
  {
  }

  lemma EncodedInjective(a: seq<byte>, b: seq<byte>)
    requires Encoded(a) == Encoded(b)
    ensures a == b
  {
    DecodeEncode(a);
    DecodeEncode(b);
  }

  function Lower(c: char): char {
    if 'A' <= c <= 'F' then (c as int - 'A' as int + 'a' as int) as char else c
  }

  ghost function LowerAll(s: string): string {
    seq(|s|, i requires 0 <= i < |s| => Lower(s[i]))
  }

  /** Encoding what was decoded gives the text back in lower case: text is determined only up to case. */
  lemma {:induction false} EncodeDecode(s: string)
    requires Decoded(s).Some?
    ensures Encoded(Decoded(s).value) == LowerAll(s)
  {
    hide Nibble, Digit, Lower, Encoded;
    if s == "" {
      NothingEncoded();
    } else {
      var n := |s| - 2;
      EncodeDecode(s[..n]);
      NibbleDigit(s[n]);
      NibbleDigit(s[n + 1]);
      var b := Nibble(s[n]).value * 16 + Nibble(s[n + 1]).value;
      PairByte(b, Nibble(s[n]).value, Nibble(s[n + 1]).value);
      EncodedSnoc(Decoded(s[..n]).value, b);
      assert LowerAll(s) == LowerAll(s[..n]) + [Lower(s[n]), Lower(s[n + 1])];
    }
  }

  lemma NothingEncoded()
    ensures Encoded([]) == ""
  {
  }

  lemma EncodedSnoc(front: seq<byte>, b: byte)
    ensures Encoded(front + [b]) == Encoded(front) + [Digit(b / 16), Digit(b % 16)]
  {
    hide Digit;
    assert (front + [b])[..|front|] == front;
  }

  lemma PairByte(b: int, hi: int, lo: int)
    requires 0 <= hi < 16 && 0 <= lo < 16 && b == hi * 16 + lo
    ensures 0 <= b < 256 && b / 16 == hi && b % 16 == lo
  {
  }

  lemma NibbleDigit(c: char)
    requires Nibble(c).Some?
    ensures Digit(Nibble(c).value) == Lower(c)
  {
  }

  // ----- The alphabet -------------------------------------------------------------------

  /** A digit is read by its place in the alphabet, in either case, and nothing else is a digit. */
  lemma NibbleMeaning(c: char, v: int)
    requires 0 <= v < 16
    ensures Nibble(c) == Some(v) <==> c == "0123456789abcdef"[v] || c == "0123456789ABCDEF"[v]
  {
  }

  /** Two lowercase digits a byte, the high half first. */
  lemma {:induction false} EncodedPointwise(bytes: seq<byte>, i: nat)
    requires i < |bytes|
    ensures |Encoded(bytes)| == 2 * |bytes|
    ensures Encoded(bytes)[2 * i] == "0123456789abcdef"[bytes[i] / 16]
    ensures Encoded(bytes)[2 * i + 1] == "0123456789abcdef"[bytes[i] % 16]
  {
    var n := |bytes| - 1;
    if n == 0 {
      NothingEncoded();
      assert bytes[..0] == [];
    } else {
      EncodedPointwise(bytes[..n], if i < n then i else 0);
    }
  }
}

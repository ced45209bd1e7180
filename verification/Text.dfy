/** White space, numerals and fields, as Rust's string library reads and prints them. */
module Text {

  /** The characters with the Unicode property White_Space. */
  predicate IsWhite(c: char) {
    || '\t' <= c <= '\r' || c == ' ' || c == '\U{85}' || c == '\U{A0}' || c == '\U{1680}'
    || '\U{2000}' <= c <= '\U{200A}' || c == '\U{2028}' || c == '\U{2029}'
    || c == '\U{202F}' || c == '\U{205F}' || c == '\U{3000}'
  }

  predicate AllWhite(s: string) {
    forall i :: 0 <= i < |s| ==> IsWhite(s[i])
  }

  predicate NoWhite(s: string) {
    forall i :: 0 <= i < |s| ==> !IsWhite(s[i])
  }

  /** Nothing is left to trim. */
  predicate Bare(s: string) {
    s != "" ==> !IsWhite(s[0]) && !IsWhite(s[|s| - 1])
  }

  // ----- trim -----------------------------------------------------------------------

  function TrimStart(s: string): string {
    if s != "" && IsWhite(s[0]) then TrimStart(s[1..]) else s
  }

  function TrimEnd(s: string): string {
    if s != "" && IsWhite(s[|s| - 1]) then TrimEnd(s[..|s| - 1]) else s
  }

  function Trim(s: string): string {
    TrimEnd(TrimStart(s))
  }

  lemma {:induction false} TrimStartSkips(pre: string, s: string)
    requires AllWhite(pre)
    ensures TrimStart(pre + s) == TrimStart(s)
  {
    if pre == "" {
      assert pre + s == s;
    } else {
      assert (pre + s)[1..] == pre[1..] + s;
      TrimStartSkips(pre[1..], s);
    }
  }

  lemma {:induction false} TrimEndSkips(s: string, post: string)
    requires AllWhite(post)
    ensures TrimEnd(s + post) == TrimEnd(s)
  {
    if post == "" {
      assert s + post == s;
    } else {
      var n := |post| - 1;
      assert (s + post)[..|s + post| - 1] == s + post[..n];
      TrimEndSkips(s, post[..n]);
    }
  }

  lemma {:induction false} TrimStartCuts(s: string) returns (pre: string)
    ensures AllWhite(pre) && s == pre + TrimStart(s)
    ensures TrimStart(s) != "" ==> !IsWhite(TrimStart(s)[0])
  {
    pre := "";
    if s != "" && IsWhite(s[0]) {
      pre := TrimStartCuts(s[1..]);
      pre := [s[0]] + pre;
    }
  }

  lemma {:induction false} TrimEndCuts(s: string) returns (post: string)
    ensures AllWhite(post) && s == TrimEnd(s) + post
    ensures TrimEnd(s) != "" ==> !IsWhite(TrimEnd(s)[|TrimEnd(s)| - 1])
  {
    post := "";
    if s != "" && IsWhite(s[|s| - 1]) {
      post := TrimEndCuts(s[..|s| - 1]);
      post := post + [s[|s| - 1]];
    }
  }

  /** Trimming leaves the one bare text that white space surrounds. */
  lemma TrimUndoesPadding(pre: string, s: string, post: string)
    requires AllWhite(pre) && AllWhite(post) && Bare(s)
    ensures Trim(pre + s + post) == s
  {
    assert pre + s + post == pre + (s + post);
    TrimStartSkips(pre, s + post);
    if s == "" {
      assert s + post == post + "";
      TrimStartSkips(post, "");
    } else {
      assert TrimStart(s + post) == s + post;
      TrimEndSkips(s, post);
    }
  }

  lemma TrimCuts(s: string) returns (pre: string, post: string)
    ensures AllWhite(pre) && AllWhite(post) && Bare(Trim(s)) && s == pre + Trim(s) + post
  {
    pre := TrimStartCuts(s);
    post := TrimEndCuts(TrimStart(s));
  }

  // ----- Numerals ---------------------------------------------------------------------

  predicate IsDigit(c: char) {
    '0' <= c <= '9'
  }

  /** One or more ASCII digits; leading zeros are allowed. */
  predicate IsNumeral(s: string) {
    s != "" && forall i :: 0 <= i < |s| ==> IsDigit(s[i])
  }

  /** The number a numeral denotes, with no upper bound. */
  function Value(s: string): nat
    requires forall i :: 0 <= i < |s| ==> IsDigit(s[i])
  {
    assert s != "" ==> IsDigit(s[|s| - 1]);
    if s == "" then 0 else Value(s[..|s| - 1]) * 10 + (s[|s| - 1] - '0') as nat
  }

  /** Rust's `to_string` on an unsigned integer. */
  function Decimal(n: nat): (r: string)
    ensures IsNumeral(r)
  {
    if n < 10 then ['0' + n as char] else Decimal(n / 10) + ['0' + (n % 10) as char]
  }

  /** Reading a printed number gives it back. */
  lemma {:induction false} ValueOfDecimal(n: nat)
    ensures Value(Decimal(n)) == n
  {
    if n >= 10 {
      ValueOfDecimal(n / 10);
      assert Decimal(n)[..|Decimal(n)| - 1] == Decimal(n / 10);
    }
  }

  // ----- split_whitespace -----------------------------------------------------------------

  /** The maximal runs of characters that are not white space. */
  function Fields(s: string): (r: seq<string>)
    ensures forall i :: 0 <= i < |r| ==> r[i] != ""
    ensures s != "" && !IsWhite(s[0]) ==> r != []
  {
    if s == "" then []
    else if IsWhite(s[0]) then Fields(s[1..])
    else if |s| == 1 || IsWhite(s[1]) then [[s[0]]] + Fields(s[1..])
    else
      var rest := Fields(s[1..]);
      [[s[0]] + rest[0]] + rest[1..]
  }

  lemma {:induction false} FirstField(field: string, rest: string)
    requires field != "" && NoWhite(field) && (rest != "" ==> IsWhite(rest[0]))
    ensures Fields(field + rest) == [field] + Fields(rest)
  {
    var s := field + rest;
    assert s[1..] == field[1..] + rest;
    if |field| == 1 {
      assert s[1..] == rest && [s[0]] == field;
    } else {
      FirstField(field[1..], rest);
      assert [field[0]] + field[1..] == field;
    }
  }

  lemma NoFields()
    ensures Fields("") == []
  {
  }

  lemma {:induction false} FieldsSkipWhite(pad: string, rest: string)
    requires AllWhite(pad)
    ensures Fields(pad + rest) == Fields(rest)
  {
    if pad == "" {
      assert pad + rest == rest;
    } else {
      assert (pad + rest)[1..] == pad[1..] + rest;
      FieldsSkipWhite(pad[1..], rest);
    }
  }
}

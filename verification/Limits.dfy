/** The cgroup limits a bundle declares: strict parsing of `cpu_max` and `memory_max`. */
module Limits {
  import opened Common
  import opened Text

  const CPU_PERIOD_US: nat := 100_000
  const MAX_CPU_PERCENT: nat := 100
  const MAX_MEMORY_BYTES: nat := 1024 * 1024 * 1024 * 1024

  datatype InvalidLimit =
    | Empty
    | MissingPercent
    | UnknownUnit
    | NotAnInteger
    | AmountOverflow
    | ByteCountOverflow
    | Zero
    | AboveCeiling

  /** Rust's `parse::<u64>` on a numeral. */
  function ParseU64(digits: string): Option<nat>
    requires IsNumeral(digits)
  {
    if Value(digits) <= U64_MAX then Some(Value(digits)) else None
  }

  /** Rust's `checked_mul` on `u64`. */
  function CheckedMul(a: nat, b: nat): Option<nat> {
    if a * b <= U64_MAX then Some(a * b) else None
  }

  /** Rust's `saturating_mul` on `u64`. */
  function SaturatingMul(a: nat, b: nat): nat {
    if a * b <= U64_MAX then a * b else U64_MAX
  }

  function LastOf(s: string): Option<char> {
    if s == "" then None else Some(s[|s| - 1])
  }

  // ----- cpu_max ----------------------------------------------------------------------

  function ParseCpu(s: string): Result<nat, InvalidLimit> {
    var t := Trim(s);
    if LastOf(t) != Some('%') then Err(MissingPercent) else
    var digits := t[..|t| - 1];
    if !IsNumeral(digits) then Err(NotAnInteger) else
    match ParseU64(digits)
    case None => Err(AmountOverflow)
    case Some(percent) =>
      if percent == 0 then Err(Zero)
      else if percent > MAX_CPU_PERCENT then Err(AboveCeiling)
      else Ok(percent)
  }

  /** Microseconds of processor time per period. */
  function Quota(percent: nat): nat {
    SaturatingMul(percent, CPU_PERIOD_US) / 100
  }

  function CpuValue(percent: nat): string {
    Decimal(Quota(percent)) + " " + Decimal(CPU_PERIOD_US)
  }

  /** `s` is a numeral and a percent sign, with white space around them. */
  predicate SpellsCpu(s: string, pre: string, digits: string, post: string) {
    s == pre + (digits + "%") + post && AllWhite(pre) && AllWhite(post) && IsNumeral(digits)
  }

  lemma CpuReading(s: string, pre: string, digits: string, post: string)
    requires SpellsCpu(s, pre, digits, post)
    ensures Trim(s) == digits + "%"
  {
    var t := digits + "%";
    assert IsDigit(t[0]);
    TrimUndoesPadding(pre, t, post);
  }

  /** Accepted are exactly the padded numerals with a percent sign that denote 1 to 100. */
  lemma CpuAcceptsExactly(s: string, percent: nat)
    ensures ParseCpu(s) == Ok(percent)
       <==> && 1 <= percent <= 100
            && exists pre, digits, post :: SpellsCpu(s, pre, digits, post) && Value(digits) == percent
  {
    if ParseCpu(s) == Ok(percent) {
      var pre, post := TrimCuts(s);
      var t := Trim(s);
      assert t == t[..|t| - 1] + "%";
      assert SpellsCpu(s, pre, t[..|t| - 1], post);
    }
    forall pre, digits, post | SpellsCpu(s, pre, digits, post) && 1 <= Value(digits) <= MAX_CPU_PERCENT
      ensures ParseCpu(s) == Ok(Value(digits))
    {
      CpuReading(s, pre, digits, post);
      assert (digits + "%")[..|digits|] == digits;
    }
  }

  /** The quota is the exact share of the period: nothing saturates and nothing is rounded away. */
  lemma QuotaIsExact(s: string)
    requires ParseCpu(s).Ok?
    ensures Quota(ParseCpu(s).value) * 100 == ParseCpu(s).value * 100_000
    ensures 0 < Quota(ParseCpu(s).value) <= 100_000
  {
    hide Trim, Value;
    var percent := ParseCpu(s).value;
    assert percent * CPU_PERIOD_US == percent * 1000 * 100;
    assert Quota(percent) == percent * 1000;
  }

  /** The file the kernel reads holds the quota and the period, in that order. */
  lemma CpuFileReadsBack(s: string)
    requires ParseCpu(s).Ok?
    ensures var f := Fields(CpuValue(ParseCpu(s).value));
      && |f| == 2 && IsNumeral(f[0]) && IsNumeral(f[1])
      && Value(f[0]) * 100 == ParseCpu(s).value * Value(f[1])
      && Value(f[1]) == 100_000
  {
    hide Trim, Value, Fields, Decimal;
    var percent := ParseCpu(s).value;
    var quota, period := Decimal(Quota(percent)), Decimal(CPU_PERIOD_US);
    QuotaIsExact(s);
    ValueOfDecimal(Quota(percent));
    ValueOfDecimal(CPU_PERIOD_US);
    NumeralIsBare(quota);
    NumeralIsBare(period);
    assert CpuValue(percent) == quota + (" " + period);
    FirstField(quota, " " + period);
    FieldsSkipWhite(" ", period);
    assert period + "" == period;
    FirstField(period, "");
    NoFields();
  }

  lemma NumeralIsBare(s: string)
    requires IsNumeral(s)
    ensures NoWhite(s) && Bare(s)
  {
    assert IsDigit(s[0]);
  }

  // ----- memory_max ---------------------------------------------------------------------

  /** The amount's text and its multiplier. */
  function SplitUnit(t: string): Option<(string, nat)>
    requires t != ""
  {
    var c := t[|t| - 1];
    if c == 'k' || c == 'K' then Some((t[..|t| - 1], 1024))
    else if c == 'm' || c == 'M' then Some((t[..|t| - 1], 1024 * 1024))
    else if c == 'g' || c == 'G' then Some((t[..|t| - 1], 1024 * 1024 * 1024))
    else if IsDigit(c) then Some((t, 1))
    else None
  }

  function ParseMemory(s: string): Result<nat, InvalidLimit> {
    var t := Trim(s);
    if t == "" then Err(Empty) else
    match SplitUnit(t)
    case None => Err(UnknownUnit)
    case Some((amount, multiplier)) =>
      if !IsNumeral(amount) then Err(NotAnInteger) else
      match ParseU64(amount)
      case None => Err(AmountOverflow)
      case Some(value) =>
        match CheckedMul(value, multiplier)
        case None => Err(ByteCountOverflow)
        case Some(bytes) =>
          if bytes == 0 then Err(Zero)
          else if bytes > MAX_MEMORY_BYTES then Err(AboveCeiling)
          else Ok(bytes)
  }

  predicate IsUnit(unit: string) {
    unit in ["", "k", "K", "m", "M", "g", "G"]
  }

  function Multiplier(unit: string): nat {
    if unit == "" then 1
    else if unit == "k" || unit == "K" then 1024
    else if unit == "m" || unit == "M" then 1048576
    else 1073741824
  }

  /** `s` is a numeral and an optional unit, with white space around them. */
  predicate SpellsMemory(s: string, pre: string, digits: string, unit: string, post: string) {
    s == pre + (digits + unit) + post && AllWhite(pre) && AllWhite(post) && IsNumeral(digits) && IsUnit(unit)
  }

  /** The true byte count of a spelling, with no upper bound. */
  function ByteCount(digits: string, unit: string): nat
    requires IsNumeral(digits)
  {
    Value(digits) * Multiplier(unit)
  }

  predicate IsTooLarge<T>(r: Result<T, InvalidLimit>) {
    r == Err(AmountOverflow) || r == Err(ByteCountOverflow) || r == Err(AboveCeiling)
  }

  predicate IsMalformed<T>(r: Result<T, InvalidLimit>) {
    r == Err(Empty) || r == Err(UnknownUnit) || r == Err(NotAnInteger)
  }

  lemma UnitIsRead(digits: string, unit: string)
    requires IsNumeral(digits) && IsUnit(unit)
    ensures Bare(digits + unit) && SplitUnit(digits + unit) == Some((digits, Multiplier(unit)))
  {
    var t := digits + unit;
    assert IsDigit(t[0]);
    if unit == "" {
      assert t == digits;
      assert IsDigit(t[|t| - 1]);
    } else {
      assert t[..|digits|] == digits && t[|digits|] == unit[0];
    }
  }

  /** What becomes of a well-formed spelling: 64-bit overflow never hides or invents a value. */
  lemma WellFormedMemory(s: string, pre: string, digits: string, unit: string, post: string)
    requires SpellsMemory(s, pre, digits, unit, post)
    ensures ByteCount(digits, unit) == 0 <==> ParseMemory(s) == Err(Zero)
    ensures 1 <= ByteCount(digits, unit) <= 1_099_511_627_776 <==> ParseMemory(s).Ok?
    ensures ParseMemory(s).Ok? ==> ParseMemory(s) == Ok(ByteCount(digits, unit))
    ensures ByteCount(digits, unit) > 1_099_511_627_776 <==> IsTooLarge(ParseMemory(s))
  {
    UnitIsRead(digits, unit);
    TrimUndoesPadding(pre, digits + unit, post);
    assert Value(digits) <= ByteCount(digits, unit);
  }

  /** Every text that is not refused as malformed is well formed. */
  lemma OthersAreMalformed(s: string)
    requires !IsMalformed(ParseMemory(s))
    ensures exists pre, digits, unit, post :: SpellsMemory(s, pre, digits, unit, post)
  {
    hide Value;
    var pre, post := TrimCuts(s);
    var t := Trim(s);
    var amount := SplitUnit(t).value.0;
    if amount == t {
      assert t + "" == t;
      assert SpellsMemory(s, pre, t, "", post);
    } else {
      var unit := [t[|t| - 1]];
      assert t == amount + unit;
      assert SpellsMemory(s, pre, amount, unit, post);
    }
  }

  /** Refused as malformed are exactly the texts with no well-formed reading. */
  lemma MalformedIffUnreadable(s: string)
    ensures IsMalformed(ParseMemory(s))
       <==> !exists pre, digits, unit, post :: SpellsMemory(s, pre, digits, unit, post)
  {
    hide ParseMemory, Value;
    if !IsMalformed(ParseMemory(s)) {
      OthersAreMalformed(s);
    }
    forall pre, digits, unit, post | SpellsMemory(s, pre, digits, unit, post)
      ensures !IsMalformed(ParseMemory(s))
    {
      WellFormedMemory(s, pre, digits, unit, post);
    }
  }

  /** Accepted are exactly the spellings whose true byte count is 1 to 2^40; the result is that count. */
  lemma MemoryAcceptsExactly(s: string, bytes: nat)
    ensures ParseMemory(s) == Ok(bytes)
       <==> && 1 <= bytes <= 1_099_511_627_776
            && exists pre, digits, unit, post :: SpellsMemory(s, pre, digits, unit, post) && ByteCount(digits, unit) == bytes
  {
    hide ParseMemory, Value, Multiplier, ByteCount;
    if ParseMemory(s) == Ok(bytes) {
      OthersAreMalformed(s);
      var pre, digits, unit, post :| SpellsMemory(s, pre, digits, unit, post);
      WellFormedMemory(s, pre, digits, unit, post);
    }
    forall pre, digits, unit, post
      | SpellsMemory(s, pre, digits, unit, post) && 1 <= ByteCount(digits, unit) <= MAX_MEMORY_BYTES
      ensures ParseMemory(s) == Ok(ByteCount(digits, unit))
    {
      WellFormedMemory(s, pre, digits, unit, post);
    }
  }

  /** Writing an accepted limit out in bytes and parsing it again gives the same limit. */
  lemma PrintedMemoryParsesBack(s: string)
    requires ParseMemory(s).Ok?
    ensures ParseMemory(Decimal(ParseMemory(s).value)) == ParseMemory(s)
  {
    hide ParseMemory, Value;
    var bytes := ParseMemory(s).value;
    var digits := Decimal(bytes);
    MemoryAcceptsExactly(s, bytes);
    ValueOfDecimal(bytes);
    assert "" + (digits + "") + "" == digits;
    assert SpellsMemory(digits, "", digits, "", "") && ByteCount(digits, "") == bytes;
    MemoryAcceptsExactly(digits, bytes);
  }
}

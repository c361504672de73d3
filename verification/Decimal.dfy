/** Exact decimal text of a fixed-point value: `Display` and `FromStr`. */
module Decimal {
  import opened Prelude
  import opened FixedPoint

  const INVALID := "invalid fixed-point value"

  predicate IsDigit(c: char) {
    '0' <= c <= '9'
  }

  function DigitChar(d: int): (c: char)
    requires 0 <= d < 10
    ensures IsDigit(c) && DigitValue(c) == d
  {
    (d + '0' as int) as char
  }

  function DigitValue(c: char): (d: int)
    requires IsDigit(c)
    ensures 0 <= d < 10
  {
    c as int - '0' as int
  }

  predicate AllDigits(s: string) {
    forall i | 0 <= i < |s| :: IsDigit(s[i])
  }

  // ----- Printing -----

  function Digits(n: nat): (s: string)
    ensures s != [] && AllDigits(s)
  {
    if n < 10 then [DigitChar(n)] else Digits(n / 10) + [DigitChar(n % 10)]
  }

  /** `n` in `width` digits, padded with zeros on the left; higher digits are dropped. */
  function Padded(n: nat, width: nat): (s: string)
    ensures |s| == width && AllDigits(s)
  {
    if width == 0 then "" else Padded(n / 10, width - 1) + [DigitChar(n % 10)]
  }

  function Pad6(n: nat): (s: string)
    ensures |s| == 6 && AllDigits(s)
  {
    Padded(n, 6)
  }

  function TrimZeros(s: string): (t: string)
    ensures |t| <= |s| && t == s[..|t|]
    ensures t != [] ==> t[|t| - 1] != '0'
  {
    if s != [] && s[|s| - 1] == '0' then TrimZeros(s[..|s| - 1]) else s
  }

  function Magnitude(raw: int): nat {
    if raw < 0 then -raw else raw
  }

  function Print(raw: int): string {
    var sign := if raw < 0 then "-" else "";
    var whole := Magnitude(raw) / SCALE;
    var fraction := Magnitude(raw) % SCALE;
    if fraction == 0 then sign + Digits(whole)
    else sign + Digits(whole) + "." + TrimZeros(Pad6(fraction))
  }

  method Fmt(raw: int) returns (text: string)
    ensures text == Print(raw)
  {
    var sign := if raw < 0 then "-" else "";
    var value := Magnitude(raw);
    var whole := value / SCALE;
    var fraction := value % SCALE;
    if fraction == 0 {
      return sign + Digits(whole);
    }
    var frac := Pad6(fraction);
    while frac != [] && frac[|frac| - 1] == '0'
      invariant TrimZeros(frac) == TrimZeros(Pad6(fraction))
      decreases |frac|
    {
      frac := frac[..|frac| - 1];
    }
    return sign + Digits(whole) + "." + frac;
  }

  // ----- Parsing -----

  /** The Unicode `White_Space` characters, which `str::trim` removes. */
  predicate IsWhitespace(c: char) {
    var n := c as int;
    9 <= n <= 13 || n == 32 || n == 0x85 || n == 0xA0 || n == 0x1680 || 0x2000 <= n <= 0x200A
    || n == 0x2028 || n == 0x2029 || n == 0x202F || n == 0x205F || n == 0x3000
  }

  function TrimStart(s: string): string {
    if s != [] && IsWhitespace(s[0]) then TrimStart(s[1..]) else s
  }

  function TrimEnd(s: string): string {
    if s != [] && IsWhitespace(s[|s| - 1]) then TrimEnd(s[..|s| - 1]) else s
  }

  function Trim(s: string): string {
    TrimEnd(TrimStart(s))
  }

  /** Position of the first dot, or the length when there is none. */
  function FirstDot(s: string): (i: nat)
    ensures i <= |s|
    ensures '.' !in s[..i] && (i < |s| ==> s[i] == '.')
  {
    if s == [] || s[0] == '.' then 0 else 1 + FirstDot(s[1..])
  }

  function DigitsValue(s: string): (n: nat)
    requires AllDigits(s)
  {
    if s == [] then 0 else 10 * DigitsValue(s[..|s| - 1]) + DigitValue(s[|s| - 1])
  }

  /** The standard `i128` parser: an optional sign, then at least one digit, within range. */
  function ParseI128(s: string): (r: Result<int>)
    ensures r.Ok? ==> InRange(r.value)
  {
    var signed := s != [] && (s[0] == '-' || s[0] == '+');
    var digits := if signed then s[1..] else s;
    if digits == [] || !AllDigits(digits) then Err(INVALID)
    else
      var magnitude: int := DigitsValue(digits);
      Checked(if signed && s[0] == '-' then -magnitude else magnitude, INVALID)
  }

  /** Sum of the fraction's digits weighted from `scale` downwards; `None` on a non-digit. */
  function FractionValue(s: string, scale: nat): (r: Option<int>)
    ensures r.Some? <==> AllDigits(s)
    ensures r.Some? ==> r.value >= 0
  {
    if s == [] then Some(0)
    else if !IsDigit(s[0]) then None
    else
      var rest := FractionValue(s[1..], scale / 10);
      assert rest.Some? ==> AllDigits(s);
      if rest.Some? then Some(DigitValue(s[0]) * scale + rest.value) else None
  }

  /** The two sides of the first dot: the whole part, which may carry a sign, and up to six fractional digits. */
  function ParseParts(whole: string, fraction: string): (r: Result<int>)
    ensures r.Ok? ==> MIN < r.value <= MAX
  {
    if '.' in fraction then Err(INVALID)
    else if |fraction| > 6 then Err("too many decimal places for fixed-point value")
    else if whole == [] && fraction == [] then Err(INVALID)
    else
      var units :- if whole == [] then Ok(0) else ParseI128(whole);
      var frac := FractionValue(fraction, 100_000);
      if frac.None? then Err(INVALID)
      else
        var scaled :- Checked(units * SCALE, "fixed-point overflow");
        Checked(scaled + frac.value, "fixed-point overflow")
  }

  function FractionOf(value: string): string {
    var dot := FirstDot(value);
    if dot < |value| then value[dot + 1..] else []
  }

  /** The text after an optional leading minus. */
  function ParseUnsigned(value: string): (r: Result<int>)
    ensures r.Ok? ==> MIN < r.value <= MAX
  {
    ParseParts(value[..FirstDot(value)], FractionOf(value))
  }

  function Parse(text: string): (r: Result<int>)
    ensures r.Ok? ==> InRange(r.value)
  {
    ParseTrimmed(Trim(text))
  }

  function ParseTrimmed(s: string): (r: Result<int>)
    ensures r.Ok? ==> InRange(r.value)
  {
    if s == [] then Err("empty fixed-point value")
    else if s[0] == '-' then
      var raw :- ParseUnsigned(s[1..]);
      Ok(-raw)
    else ParseUnsigned(s)
  }

  method ParseFraction(fraction: string) returns (r: Option<int>)
    ensures r == FractionValue(fraction, 100_000)
  {
    var frac := 0;
    var scale: nat := 100_000;
    assert fraction[0..] == fraction;
    for i := 0 to |fraction|
      invariant var rest := FractionValue(fraction[i..], scale);
        FractionValue(fraction, 100_000) == if rest.Some? then Some(frac + rest.value) else None
    {
      assert fraction[i..][1..] == fraction[i + 1..];
      if !IsDigit(fraction[i]) {
        return None;
      }
      frac := frac + DigitValue(fraction[i]) * scale;
      scale := scale / 10;
    }
    return Some(frac);
  }

  method ParseUnsignedText(value: string) returns (r: Result<int>)
    ensures r == ParseUnsigned(value)
  {
    var dot := FirstDot(value);
    var whole := value[..dot];
    var fraction := if dot < |value| then value[dot + 1..] else [];
    if '.' in fraction {
      return Err(INVALID);
    }
    if |fraction| > 6 {
      return Err("too many decimal places for fixed-point value");
    }
    if whole == [] && fraction == [] {
      return Err(INVALID);
    }
    var units :- if whole == [] then Ok(0) else ParseI128(whole);
    var frac := ParseFraction(fraction);
    if frac.None? {
      return Err(INVALID);
    }
    var scaled :- Checked(units * SCALE, "fixed-point overflow");
    return Checked(scaled + frac.value, "fixed-point overflow");
  }

  method FromStr(text: string) returns (r: Result<int>)
    ensures r == Parse(text)
  {
    var s := Trim(text);
    if s == [] {
      return Err("empty fixed-point value");
    }
    var negative := s[0] == '-';
    var parsed := ParseUnsignedText(if negative then s[1..] else s);
    var raw :- parsed;
    return Ok(if negative then -raw else raw);
  }

  // ----- Digits -----

  lemma {:induction false} DigitsRoundTrip(n: nat)
    ensures DigitsValue(Digits(n)) == n
  {
    if n >= 10 {
      DigitsRoundTrip(n / 10);
      var s := Digits(n);
      assert s[..|s| - 1] == Digits(n / 10);
    } else {
      assert Digits(n)[..0] == [];
    }
  }

  lemma {:induction false} FirstDotAfter(s: string, rest: string)
    requires '.' !in s && (rest == [] || rest[0] == '.')
    ensures FirstDot(s + rest) == |s|
  {
    if s == [] {
      assert s + rest == rest;
    } else {
      assert (s + rest)[1..] == s[1..] + rest;
      FirstDotAfter(s[1..], rest);
    }
  }

  lemma {:induction false} FractionAppendZero(s: string, scale: nat)
    requires AllDigits(s)
    ensures FractionValue(s + "0", scale) == FractionValue(s, scale)
  {
    if s != [] {
      assert (s + "0")[1..] == s[1..] + "0";
      FractionAppendZero(s[1..], scale / 10);
    } else {
      assert s + "0" == "0";
      assert "0"[1..] == [];
    }
  }

  lemma {:induction false} FractionIgnoresZeros(s: string)
    requires AllDigits(s)
    ensures FractionValue(TrimZeros(s), 100_000) == FractionValue(s, 100_000)
  {
    if s != [] && s[|s| - 1] == '0' {
      var shorter := s[..|s| - 1];
      FractionIgnoresZeros(shorter);
      FractionAppendZero(shorter, 100_000);
      assert shorter + "0" == s;
    }
  }

  lemma FractionStep(s: string, scale: nat)
    requires s != [] && AllDigits(s)
    ensures AllDigits(s[1..])
    ensures FractionValue(s, scale) ==
            Some(DigitValue(s[0]) * scale + FractionValue(s[1..], scale / 10).value)
  {
  }

  lemma SixDigitsValue(s: string)
    requires |s| == 6 && AllDigits(s)
    ensures FractionValue(s, 100_000) ==
            Some(DigitValue(s[0]) * 100_000 + DigitValue(s[1]) * 10_000 + DigitValue(s[2]) * 1_000
                 + DigitValue(s[3]) * 100 + DigitValue(s[4]) * 10 + DigitValue(s[5]))
  {
    FractionStep(s, 100_000);
    FractionStep(s[1..], 10_000);
    assert s[1..][1..] == s[2..];
    FractionStep(s[2..], 1_000);
    assert s[2..][1..] == s[3..];
    FractionStep(s[3..], 100);
    assert s[3..][1..] == s[4..];
    FractionStep(s[4..], 10);
    assert s[4..][1..] == s[5..];
    FractionStep(s[5..], 1);
    assert s[5..][1..] == [];
  }

  lemma DigitsValueStep(s: string)
    requires s != [] && AllDigits(s)
    ensures AllDigits(s[..|s| - 1])
    ensures DigitsValue(s) == 10 * DigitsValue(s[..|s| - 1]) + DigitValue(s[|s| - 1])
  {
  }

  lemma SixDigitsNumber(s: string)
    requires |s| == 6 && AllDigits(s)
    ensures FractionValue(s, 100_000) == Some(DigitsValue(s))
  {
    SixDigitsValue(s);
    DigitsValueStep(s);
    DigitsValueStep(s[..5]);
    assert s[..5][..4] == s[..4];
    DigitsValueStep(s[..4]);
    assert s[..4][..3] == s[..3];
    DigitsValueStep(s[..3]);
    assert s[..3][..2] == s[..2];
    DigitsValueStep(s[..2]);
    assert s[..2][..1] == s[..1];
    DigitsValueStep(s[..1]);
    assert s[..1][..0] == [];
  }

  lemma {:induction false} PaddedValue(n: nat, width: nat)
    requires n < Pow10(width)
    ensures DigitsValue(Padded(n, width)) == n
  {
    if width > 0 {
      PaddedValue(n / 10, width - 1);
      var s := Padded(n, width);
      assert s[..|s| - 1] == Padded(n / 10, width - 1);
    }
  }

  lemma Pad6Value(n: nat)
    requires n < SCALE
    ensures FractionValue(Pad6(n), 100_000) == Some(n)
  {
    assert Pow10(6) == 10 * Pow10(5) == 100 * Pow10(4) == 1000 * Pow10(3) == 10_000 * Pow10(2) == 100_000 * Pow10(1) == SCALE;
    PaddedValue(n, 6);
    SixDigitsNumber(Pad6(n));
  }

  /** The fractional part printed for a non-zero remainder: one to six digits, not ending in zero, same value. */
  lemma FractionText(n: int)
    requires 0 < n < SCALE
    ensures var t := TrimZeros(Pad6(n));
      1 <= |t| <= 6 && AllDigits(t) && t[|t| - 1] != '0' && FractionValue(t, 100_000) == Some(n)
  {
    Pad6Value(n);
    FractionIgnoresZeros(Pad6(n));
  }

  function FractionPart(raw: int): string {
    if Magnitude(raw) % SCALE == 0 then "" else "." + TrimZeros(Pad6(Magnitude(raw) % SCALE))
  }

  lemma PrintShape(raw: int)
    ensures Print(raw) == (if raw < 0 then "-" else "") + (Digits(Magnitude(raw) / SCALE) + FractionPart(raw))
  {
    var d := Digits(Magnitude(raw) / SCALE);
    if Magnitude(raw) % SCALE == 0 {
      assert d + FractionPart(raw) == d;
    } else {
      var t := TrimZeros(Pad6(Magnitude(raw) % SCALE));
      var sign := if raw < 0 then "-" else "";
      assert sign + d + "." + t == sign + (d + ("." + t));
    }
  }

  // ----- Every decimal literal -----

  lemma DigitsAppendZero(f: string)
    requires AllDigits(f)
    ensures DigitsValue(f + "0") == 10 * DigitsValue(f)
  {
    assert (f + "0")[..|f|] == f;
  }

  lemma ShiftDigit(d: nat, k: nat)
    ensures (10 * d) * Pow10(k) == d * Pow10(k + 1)
  {
  }

  lemma {:induction false} FractionNumber(f: string)
    requires |f| <= 6 && AllDigits(f)
    ensures FractionValue(f, 100_000) == Some(DigitsValue(f) * Pow10(6 - |f|))
    decreases 6 - |f|
  {
    if |f| == 6 {
      SixDigitsNumber(f);
    } else {
      FractionNumber(f + "0");
      FractionAppendZero(f, 100_000);
      DigitsAppendZero(f);
      ShiftDigit(DigitsValue(f), 5 - |f|);
    }
  }

  /** A literal as written: digits, an optional point, digits. */
  function Literal(whole: string, point: bool, fraction: string): string {
    whole + if point then "." + fraction else ""
  }

  predicate IsLiteral(whole: string, point: bool, fraction: string) {
    AllDigits(whole) && AllDigits(fraction) && |fraction| <= 6 && (whole != [] || fraction != []) && (fraction != [] ==> point)
  }

  function LiteralValue(whole: string, fraction: string): int
    requires AllDigits(whole) && AllDigits(fraction) && |fraction| <= 6
  {
    DigitsValue(whole) * SCALE + DigitsValue(fraction) * Pow10(6 - |fraction|)
  }

  /** The sign the standard integer parser takes on the whole part; there is nothing for it to take on an empty one. */
  predicate IsSigned(sign: string, whole: string, point: bool, fraction: string) {
    IsLiteral(whole, point, fraction) && (sign == "" || ((sign == "+" || sign == "-") && whole != []))
  }

  function SignedWhole(sign: string, whole: string): int
    requires AllDigits(whole)
  {
    var units: int := DigitsValue(whole);
    if sign == "-" then -units else units
  }

  /** The fraction is added to the signed whole part, so a minus there does not reach it. */
  function SignedValue(sign: string, whole: string, fraction: string): int
    requires AllDigits(whole) && AllDigits(fraction) && |fraction| <= 6
  {
    SignedWhole(sign, whole) * SCALE + DigitsValue(fraction) * Pow10(6 - |fraction|)
  }

  predicate SignedFits(sign: string, whole: string, fraction: string)
    requires AllDigits(whole) && AllDigits(fraction) && |fraction| <= 6
  {
    if sign == "-" then DigitsValue(whole) * SCALE <= MAX else LiteralValue(whole, fraction) <= MAX
  }

  lemma SignedParts(sign: string, whole: string, point: bool, fraction: string)
    requires IsLiteral(whole, point, fraction) && '.' !in sign
    ensures var value := sign + Literal(whole, point, fraction);
      value != [] && value[..FirstDot(value)] == sign + whole && FractionOf(value) == fraction
  {
    var tail := if point then "." + fraction else "";
    var value := sign + Literal(whole, point, fraction);
    assert '.' !in whole;
    assert value == (sign + whole) + tail;
    FirstDotAfter(sign + whole, tail);
    if point {
      assert value[|sign + whole| + 1..] == fraction;
    }
  }

  lemma WholeParses(sign: string, whole: string)
    requires AllDigits(whole) && (sign == "" || ((sign == "+" || sign == "-") && whole != []))
    ensures (if sign + whole == [] then Ok(0) else ParseI128(sign + whole))
      == Checked(SignedWhole(sign, whole), INVALID)
  {
    if sign == "" {
      assert sign + whole == whole;
      assert whole != [] ==> IsDigit(whole[0]);
    } else {
      assert (sign + whole)[0] == sign[0] && (sign + whole)[1..] == whole;
    }
  }

  lemma PartsParse(sign: string, whole: string, point: bool, fraction: string)
    requires IsSigned(sign, whole, point, fraction)
    ensures var r := ParseParts(sign + whole, fraction);
      if SignedFits(sign, whole, fraction) then r == Ok(SignedValue(sign, whole, fraction)) else r.Err?
  {
    hide DigitsValue, FractionValue, ParseI128, Pow10;
    WholeParses(sign, whole);
    FractionBelowOne(fraction);
    assert '.' !in fraction;
  }

  lemma SignedUnsigned(sign: string, whole: string, point: bool, fraction: string)
    requires IsSigned(sign, whole, point, fraction)
    ensures var r := ParseUnsigned(sign + Literal(whole, point, fraction));
      if SignedFits(sign, whole, fraction) then r == Ok(SignedValue(sign, whole, fraction)) else r.Err?
  {
    SignedParts(sign, whole, point, fraction);
    PartsParse(sign, whole, point, fraction);
  }

  lemma {:induction false} DigitsBelow(s: string)
    requires AllDigits(s)
    ensures DigitsValue(s) < Pow10(|s|)
  {
    if s != [] {
      DigitsBelow(s[..|s| - 1]);
    }
  }

  lemma FractionBelowOne(f: string)
    requires |f| <= 6 && AllDigits(f)
    ensures 0 <= DigitsValue(f) * Pow10(6 - |f|) < SCALE
    ensures DigitsValue(f) * Pow10(6 - |f|) == 0 <==> DigitsValue(f) == 0
    ensures FractionValue(f, 100_000) == Some(DigitsValue(f) * Pow10(6 - |f|))
  {
    FractionNumber(f);
    DigitsBelow(f);
    PowersSplit(|f|);
    MulMonotone(DigitsValue(f) + 1, Pow10(|f|), Pow10(6 - |f|));
    MulNonNegative(DigitsValue(f), Pow10(6 - |f|));
    if DigitsValue(f) > 0 {
      MulMonotone(1, DigitsValue(f), Pow10(6 - |f|));
    }
  }

  lemma PowersSplit(n: nat)
    requires n <= 6
    ensures Pow10(n) * Pow10(6 - n) == SCALE
  {
    assert Pow10(1) == 10 && Pow10(2) == 100 && Pow10(3) == 1_000;
    assert Pow10(4) == 10_000 && Pow10(5) == 100_000 && Pow10(6) == SCALE;
  }

  lemma TrimKeeps(s: string)
    requires s != [] && !IsWhitespace(s[0]) && !IsWhitespace(s[|s| - 1])
    ensures Trim(s) == s
  {
  }

  /** One leading minus is stripped, and whatever the rest gives is negated. */
  lemma MinusNegates(minus: bool, value: string)
    requires value != [] && (!minus ==> value[0] != '-')
    ensures var u := ParseUnsigned(value);
      ParseTrimmed((if minus then "-" else "") + value) == if u.Err? then u else Ok(if minus then -u.value else u.value)
  {
    hide ParseUnsigned;
    if minus {
      assert ("-" + value)[1..] == value;
    } else {
      assert "" + value == value;
    }
  }

  /** How an accepted text reads once trimmed: a minus or none, then at most one more sign, then a literal. */
  predicate Reads(text: string, minus: bool, sign: string, whole: string, point: bool, fraction: string) {
    && IsSigned(sign, whole, point, fraction) && (sign == "-" ==> minus)
    && Trim(text) == (if minus then "-" else "") + (sign + Literal(whole, point, fraction))
  }

  /** A text that reads so gives exactly this value, or overflows. */
  lemma ReadsParses(text: string, minus: bool, sign: string, whole: string, point: bool, fraction: string)
    requires Reads(text, minus, sign, whole, point, fraction)
    ensures var v := SignedValue(sign, whole, fraction);
      if SignedFits(sign, whole, fraction) then Parse(text) == Ok(if minus then -v else v) else Parse(text).Err?
  {
    var value := sign + Literal(whole, point, fraction);
    SignedUnsigned(sign, whole, point, fraction);
    assert value[0] == if sign != "" then sign[0] else Literal(whole, point, fraction)[0];
    assert sign == "" ==> value[0] != '-' by {
      if sign == "" {
        LiteralEnds(whole, point, fraction);
      }
    }
    MinusNegates(minus, value);
  }

  lemma LiteralEnds(whole: string, point: bool, fraction: string)
    requires IsLiteral(whole, point, fraction)
    ensures var value := Literal(whole, point, fraction);
      && value != [] && !IsWhitespace(value[0]) && value[0] != '-' && !IsWhitespace(value[|value| - 1])
  {
    var tail := if point then "." + fraction else "";
    var value := whole + tail;
    assert value[0] == if whole != [] then whole[0] else tail[0];
    assert value[|value| - 1] == if tail != [] then tail[|tail| - 1] else whole[|whole| - 1];
  }

  /** The sign and the digits of an accepted whole part. */
  lemma AcceptedParts(head: string, fraction: string) returns (sign: string, whole: string)
    requires ParseParts(head, fraction).Ok?
    ensures IsSigned(sign, whole, true, fraction) && head == sign + whole
    ensures fraction == [] ==> IsSigned(sign, whole, false, fraction)
  {
    if head != [] && (head[0] == '-' || head[0] == '+') {
      sign, whole := head[..1], head[1..];
      assert head == sign + whole;
    } else {
      sign, whole := "", head;
      assert head == sign + whole;
    }
  }

  lemma SplitAt(value: string, i: nat)
    requires i < |value| && value[i] == '.'
    ensures value == value[..i] + ("." + value[i + 1..])
  {
    var tail := "." + value[i + 1..];
    assert tail == value[i..];
  }

  lemma Regroup(a: string, b: string, c: string)
    ensures (a + b) + c == a + (b + c)
  {
  }

  /** The parts of an accepted text. */
  lemma AcceptedUnsigned(value: string) returns (sign: string, whole: string, point: bool, fraction: string)
    requires ParseUnsigned(value).Ok?
    ensures IsSigned(sign, whole, point, fraction) && value == sign + Literal(whole, point, fraction)
  {
    hide ParseParts;
    var dot := FirstDot(value);
    point, fraction := dot < |value|, FractionOf(value);
    sign, whole := AcceptedParts(value[..dot], fraction);
    if point {
      SplitAt(value, dot);
      Regroup(sign, whole, "." + fraction);
    } else {
      Regroup(sign, whole, "");
      assert value[..dot] == value[..dot] + "";
    }
  }

  lemma AcceptedReads(text: string) returns (minus: bool, sign: string, whole: string, point: bool, fraction: string)
    requires Parse(text).Ok?
    ensures Reads(text, minus, sign, whole, point, fraction) && SignedFits(sign, whole, fraction)
  {
    hide ParseUnsigned, Trim;
    var s := Trim(text);
    minus := s[0] == '-';
    var value := if minus then s[1..] else s;
    sign, whole, point, fraction := AcceptedUnsigned(value);
    assert s == (if minus then "-" else "") + value;
    assert sign == "-" ==> value[0] == '-';
    ReadsParses(text, minus, sign, whole, point, fraction);
  }

  /** What is accepted is exactly what reads so and fits: surrounding white space, a minus, one more sign, a literal. */
  lemma ParseAccepts(text: string)
    ensures Parse(text).Ok? <==>
      exists minus, sign, whole, point, fraction :: Reads(text, minus, sign, whole, point, fraction) && SignedFits(sign, whole, fraction)
  {
    hide Parse;
    if Parse(text).Ok? {
      var minus, sign, whole, point, fraction := AcceptedReads(text);
    }
    if minus, sign, whole, point, fraction :| Reads(text, minus, sign, whole, point, fraction) && SignedFits(sign, whole, fraction) {
      ReadsParses(text, minus, sign, whole, point, fraction);
    }
  }

  lemma LiteralTrims(signs: string, whole: string, point: bool, fraction: string)
    requires IsLiteral(whole, point, fraction) && (forall i | 0 <= i < |signs| :: signs[i] == '-')
    ensures Trim(signs + Literal(whole, point, fraction)) == signs + Literal(whole, point, fraction)
  {
    var value := Literal(whole, point, fraction);
    LiteralEnds(whole, point, fraction);
    assert (signs + value)[0] == if signs != [] then signs[0] else value[0];
    assert (signs + value)[|signs + value| - 1] == value[|value| - 1];
    TrimKeeps(signs + value);
  }

  /** Every decimal literal with at most six fractional digits parses to its exact value, with or without a minus, or overflows. */
  lemma ParseLiteral(negative: bool, whole: string, point: bool, fraction: string)
    requires IsLiteral(whole, point, fraction)
    ensures var v := LiteralValue(whole, fraction);
      var r := Parse((if negative then "-" else "") + Literal(whole, point, fraction));
      if v <= MAX then r == Ok(if negative then -v else v) else r.Err?
  {
    hide ParseTrimmed, ParseUnsigned, Trim;
    var sign := if negative then "-" else "";
    var literal := Literal(whole, point, fraction);
    LiteralTrims(sign, whole, point, fraction);
    assert "" + literal == literal;
    ReadsParses(sign + literal, negative, "", whole, point, fraction);
  }

  lemma LoneMinus(point: bool, fraction: string)
    requires IsLiteral("", point, fraction)
    ensures ParseUnsigned("-" + Literal("", point, fraction)).Err?
  {
    SignedParts("-", "", point, fraction);
    assert "-" + "" == "-" && "-"[1..] == [];
  }

  /**
   * A second minus is accepted on a whole part, and the fraction then counts against it: the text reads as the number
   * after the two signs exactly when its fraction is zero. Without a whole part it is refused.
   */
  lemma DoubleMinus(whole: string, point: bool, fraction: string)
    requires IsLiteral(whole, point, fraction)
    ensures var r := Parse("--" + Literal(whole, point, fraction));
      if whole == [] || DigitsValue(whole) * SCALE > MAX then r.Err?
      else
        && r == Ok(DigitsValue(whole) * SCALE - DigitsValue(fraction) * Pow10(6 - |fraction|))
        && (r.value == LiteralValue(whole, fraction) <==> DigitsValue(fraction) == 0)
  {
    hide ParseTrimmed, ParseUnsigned, Trim;
    var literal := Literal(whole, point, fraction);
    LiteralTrims("--", whole, point, fraction);
    assert "--" + literal == "-" + ("-" + literal);
    if whole == [] {
      LoneMinus(point, fraction);
      MinusNegates(true, "-" + literal);
    } else {
      FractionBelowOne(fraction);
      ReadsParses("--" + literal, true, "-", whole, point, fraction);
    }
  }

  // ----- Round trip -----

  /** What is printed is a literal, and its value is the magnitude. */
  lemma PrintIsLiteral(raw: int)
    ensures var whole, fraction := Digits(Magnitude(raw) / SCALE), Magnitude(raw) % SCALE;
      var t := if fraction == 0 then "" else TrimZeros(Pad6(fraction));
      && IsLiteral(whole, fraction != 0, t)
      && Print(raw) == (if raw < 0 then "-" else "") + Literal(whole, fraction != 0, t)
      && LiteralValue(whole, t) == Magnitude(raw)
  {
    var fraction := Magnitude(raw) % SCALE;
    PrintShape(raw);
    DigitsRoundTrip(Magnitude(raw) / SCALE);
    if fraction != 0 {
      FractionText(fraction);
      FractionNumber(TrimZeros(Pad6(fraction)));
    } else {
      FractionNumber("");
    }
  }

  /** Parsing the printed text gives the value back for every representable value but the minimum. */
  lemma PrintParse(raw: int)
    requires InRange(raw)
    ensures Parse(Print(raw)) == Ok(raw) <==> raw != MIN
    ensures raw == MIN ==> Parse(Print(raw)).Err?
  {
    PrintIsLiteral(raw);
    var fraction := Magnitude(raw) % SCALE;
    ParseLiteral(raw < 0, Digits(Magnitude(raw) / SCALE), fraction != 0, if fraction == 0 then "" else TrimZeros(Pad6(fraction)));
  }

  /** Distinct values print differently, the minimum included. */
  lemma PrintInjective(a: int, b: int)
    requires InRange(a) && InRange(b) && Print(a) == Print(b)
    ensures a == b
  {
    PrintParse(a);
    PrintParse(b);
  }

  lemma DotTail(head: string, t: string)
    requires '.' !in head
    ensures FirstDot(head + ("." + t)) == |head|
    ensures (head + ("." + t))[|head| + 1..] == t
  {
    FirstDotAfter(head, "." + t);
  }

  predicate Canonical(p: string) {
    var dot := FirstDot(p);
    dot < |p| ==> 1 <= |p| - dot - 1 <= 6 && AllDigits(p[dot + 1..]) && p[|p| - 1] != '0'
  }

  lemma CanonicalFrom(head: string, t: string)
    requires '.' !in head && 1 <= |t| <= 6 && AllDigits(t) && t[|t| - 1] != '0'
    ensures Canonical(head + ("." + t))
  {
    DotTail(head, t);
  }

  /** At most six digits follow the first dot, no other dot does, and the last digit is not zero. */
  lemma PrintIsCanonical(raw: int)
    ensures Canonical(Print(raw))
  {
    PrintShape(raw);
    var sign := if raw < 0 then "-" else "";
    var d := Digits(Magnitude(raw) / SCALE);
    var f := FractionPart(raw);
    assert '.' !in d;
    assert Print(raw) == (sign + d) + f;
    if f == "" {
      assert Print(raw) == sign + d;
    } else {
      FractionText(Magnitude(raw) % SCALE);
      CanonicalFrom(sign + d, TrimZeros(Pad6(Magnitude(raw) % SCALE)));
    }
  }
}

/** Decimal text: %v of integers, %.5f of samples, strconv.ParseInt and strconv.ParseFloat, and rounding. */
module Decimal {
  import opened Wrappers
  import opened Text

  function Digit(d: nat): (c: char)
    requires d < 10
    ensures '0' <= c <= '9'
  {
    "0123456789"[d]
  }

  function DigitValue(c: char): Option<nat> {
    if '0' <= c <= '9' then Some(c as nat - '0' as nat) else None
  }

  predicate IsDigits(s: string) {
    forall i :: 0 <= i < |s| ==> '0' <= s[i] <= '9'
  }

  function Itoa(n: nat): (s: string)
    ensures s != [] && IsDigits(s)
  {
    if n < 10 then [Digit(n)] else Itoa(n / 10) + [Digit(n % 10)]
  }

  /** Exactly k digits, with leading zeros. */
  function Pad(n: nat, k: nat): (s: string)
    ensures |s| == k && IsDigits(s)
  {
    if k == 0 then "" else Pad(n / 10, k - 1) + [Digit(n % 10)]
  }

  function FormatInt(n: int): string {
    if n < 0 then "-" + Itoa(-n) else Itoa(n)
  }

  /** A non-empty run of digits. */
  function ParseDigits(s: string): Option<nat> {
    if s == [] then None
    else
      var last := DigitValue(s[|s| - 1]);
      if |s| == 1 || last.None? then last
      else
        var front := ParseDigits(s[..|s| - 1]);
        if front.None? then None else Some(front.value * 10 + last.value)
  }

  /** strconv.ParseInt(s, 10, 64), without its range check. */
  function ParseInt(s: string): Option<int> {
    if s == [] then None
    else if s[0] == '-' || s[0] == '+' then
      var n := ParseDigits(s[1..]);
      if n.None? then None else if s[0] == '-' then Some(-(n.value as int)) else Some(n.value as int)
    else
      var n := ParseDigits(s);
      if n.None? then None else Some(n.value as int)
  }

  lemma DigitParses(d: nat)
    requires d < 10
    ensures DigitValue(Digit(d)) == Some(d)
  {
  }

  lemma DigitsNext(s: string, d: nat)
    requires d < 10
    ensures ParseDigits(s + [Digit(d)]) ==
            if s == [] then Some(d)
            else if ParseDigits(s).None? then None else Some(ParseDigits(s).value * 10 + d)
  {
    DigitParses(d);
    assert (s + [Digit(d)])[..|s|] == s;
  }

  /** Digits parse, one or more of them, and nothing else does. */
  lemma {:induction false} ParseDigitsExactlyWhen(s: string)
    ensures ParseDigits(s).Some? <==> s != [] && IsDigits(s)
  {
    if |s| > 1 {
      ParseDigitsExactlyWhen(s[..|s| - 1]);
    }
  }

  lemma {:induction false} ItoaParses(n: nat)
    ensures ParseDigits(Itoa(n)) == Some(n)
  {
    hide ParseDigits, DigitValue;
    DigitParses(n % 10);
    DigitsNext([], n % 10);
    assert [] + [Digit(n % 10)] == [Digit(n % 10)];
    if n >= 10 {
      ItoaParses(n / 10);
      DigitsNext(Itoa(n / 10), n % 10);
    }
  }

  function Pow10(k: nat): (p: nat)
    ensures p > 0
  {
    if k == 0 then 1 else 10 * Pow10(k - 1)
  }

  lemma {:induction false} PadParses(n: nat, k: nat)
    requires k > 0 && n < Pow10(k)
    ensures ParseDigits(Pad(n, k)) == Some(n)
  {
    DigitParses(n % 10);
    DigitsNext(Pad(n / 10, k - 1), n % 10);
    assert Pow10(k) == 10 * Pow10(k - 1);
    if k > 1 {
      PadParses(n / 10, k - 1);
    }
  }

  lemma FormatIntParses(n: int)
    ensures ParseInt(FormatInt(n)) == Some(n)
  {
    ItoaParses(if n < 0 then -n else n);
  }

  // ---- Rounding ----

  /** Nearest integer, ties to even. */
  function Round(x: real): int {
    var f := x.Floor;
    var d := x - f as real;
    if d < 0.5 then f
    else if d > 0.5 then f + 1
    else if f % 2 == 0 then f else f + 1
  }

  lemma RoundIsNear(x: real)
    ensures -0.5 <= Round(x) as real - x <= 0.5
  {
  }

  // ---- %.5f ----

  const SCALE := 100000

  function FixedBody(n: nat): (s: string)
    ensures s != [] && '0' <= s[0] <= '9'
  {
    Itoa(n / SCALE) + "." + Pad(n % SCALE, 5)
  }

  /** The text of units / 100000. */
  function Fixed5(units: int): string {
    if units < 0 then "-" + FixedBody(-units) else FixedBody(units)
  }

  function Float642Str(v: real): string {
    Fixed5(Round(v * SCALE as real))
  }

  /** v as it comes back from its five decimals. */
  function Rounded5(v: real): real {
    Round(v * SCALE as real) as real / SCALE as real
  }

  function Pointed(whole: nat, fraction: nat, places: nat): real {
    whole as real + fraction as real / Pow10(places) as real
  }

  /** Digits with an optional point and fraction. */
  function ParseUnsigned(s: string): Option<real> {
    var dot := IndexOf(s, '.');
    var whole := ParseDigits(s[..dot]);
    if whole.None? then None
    else if dot == |s| then Some(whole.value as real)
    else
      var fraction := ParseDigits(s[dot + 1..]);
      if fraction.None? then None
      else Some(Pointed(whole.value, fraction.value, |s| - dot - 1))
  }

  /** strconv.ParseFloat on plain decimal numerals. */
  function ParseFloat(s: string): Option<real> {
    if s != [] && s[0] == '-' then
      var v := ParseUnsigned(s[1..]);
      if v.None? then None else Some(-v.value)
    else ParseUnsigned(s)
  }

  lemma FirstDot(whole: string, fraction: string)
    requires IsDigits(whole)
    ensures var s := whole + "." + fraction;
            IndexOf(s, '.') == |whole| && s[..|whole|] == whole && s[|whole| + 1..] == fraction
  {
    hide IndexOf;
    var s := whole + "." + fraction;
    assert s[|whole|] == '.';
    assert forall i :: 0 <= i < |whole| ==> s[i] == whole[i];
  }

  lemma PointedParses(whole: string, fraction: string)
    requires IsDigits(whole) && ParseDigits(whole).Some? && ParseDigits(fraction).Some?
    ensures ParseUnsigned(whole + "." + fraction) ==
            Some(Pointed(ParseDigits(whole).value, ParseDigits(fraction).value, |fraction|))
  {
    hide ParseDigits, IndexOf, Pointed, IsDigits;
    FirstDot(whole, fraction);
  }

  lemma WholeAndFraction(n: nat)
    ensures (n / SCALE) as real + (n % SCALE) as real / SCALE as real == n as real / SCALE as real
  {
    assert n == n / SCALE * SCALE + n % SCALE;
  }

  lemma FixedUnsignedParses(n: nat)
    ensures ParseUnsigned(FixedBody(n)) == Some(n as real / SCALE as real)
  {
    hide ParseDigits, ParseUnsigned, Pow10, Itoa, Pad;
    PowerOfFive();
    ItoaParses(n / SCALE);
    PadParses(n % SCALE, 5);
    PointedParses(Itoa(n / SCALE), Pad(n % SCALE, 5));
    WholeAndFraction(n);
  }

  lemma PowerOfFive()
    ensures Pow10(5) == SCALE
  {
    assert Pow10(1) == 10 && Pow10(2) == 100 && Pow10(3) == 1000 && Pow10(4) == 10000;
  }

  lemma SignedParses(body: string)
    requires body != [] && '0' <= body[0] <= '9'
    ensures ParseFloat(body) == ParseUnsigned(body)
    ensures ParseFloat("-" + body) ==
            if ParseUnsigned(body).None? then None else Some(-ParseUnsigned(body).value)
    ensures body != "null" && "-" + body != "null"
  {
    assert ("-" + body)[1..] == body;
    assert "null"[0] == 'n' && ("-" + body)[0] == '-';
  }

  lemma Fixed5Parses(units: int)
    ensures ParseFloat(Fixed5(units)) == Some(units as real / SCALE as real)
    ensures Fixed5(units) != "null"
  {
    var n: nat := if units < 0 then -units else units;
    hide ParseUnsigned, ParseFloat, FixedBody;
    assert units < 0 ==> -(n as real / SCALE as real) == units as real / SCALE as real;
    FixedUnsignedParses(n);
    var body := FixedBody(n);
    SignedParses(body);
    assert Fixed5(units) == if units < 0 then "-" + body else body;
  }

  /** A printed sample reads back as its value rounded to five decimals, and is never taken for "null". */
  lemma Float642StrParses(v: real)
    ensures ParseFloat(Float642Str(v)) == Some(Rounded5(v))
    ensures Float642Str(v) != "null"
  {
    Fixed5Parses(Round(v * SCALE as real));
  }

  ghost predicate IsHundredThousandths(x: real, n: int) {
    x == n as real / 100000.0
  }

  /** A number to five decimals is a multiple of the fifth, within half of it. */
  lemma Rounded5IsNear(v: real)
    ensures -0.000005 <= Rounded5(v) - v <= 0.000005
    ensures exists n: int :: IsHundredThousandths(Rounded5(v), n)
  {
    RoundIsNear(v * SCALE as real);
    assert IsHundredThousandths(Rounded5(v), Round(v * SCALE as real));
  }
}

/** Printing and parsing of decimal numbers, as `format!` and `str::parse` do it. */
module Numbers {
  import opened Wrappers

  predicate IsDigit(c: char) {
    '0' <= c <= '9'
  }

  ghost predicate AllDigits(s: string) {
    forall c :: c in s ==> IsDigit(c)
  }

  function Digit(d: nat): (c: char)
    requires d < 10
    ensures IsDigit(c) && DigitValue(c) == d
  {
    "0123456789"[d]
  }

  function DigitValue(c: char): (d: nat)
    requires IsDigit(c)
    ensures d < 10
  {
    (c as int) - ('0' as int)
  }

  function PrintNat(n: nat): (s: string)
    ensures s != "" && AllDigits(s)
  {
    if n < 10 then [Digit(n)] else PrintNat(n / 10) + [Digit(n % 10)]
  }

  function PrintInt(i: int): string {
    if i < 0 then "-" + PrintNat(-i) else PrintNat(i)
  }

  function NatValue(s: string): nat
    requires AllDigits(s)
  {
    if s == "" then 0 else
      assert s[|s| - 1] in s;
      10 * NatValue(s[..|s| - 1]) + DigitValue(s[|s| - 1])
  }

  lemma {:induction false} PrintNatValue(n: nat)
    ensures NatValue(PrintNat(n)) == n
  {
    var s := PrintNat(n);
    if n < 10 {
      assert s == [Digit(n)] && s[..0] == "";
    } else {
      PrintNatValue(n / 10);
      assert s[..|s| - 1] == PrintNat(n / 10);
    }
  }

  function FractionValue(s: string): real
    requires AllDigits(s)
  {
    if s == "" then 0.0 else
      assert s[0] in s;
      (DigitValue(s[0]) as real + FractionValue(s[1..])) / 10.0
  }

  /** The characters before the first `.`, or all of them. */
  function BeforePoint(s: string): (head: string)
    ensures head <= s && '.' !in head
    ensures |head| == |s| || s[|head|] == '.'
  {
    if s == "" || s[0] == '.' then "" else [s[0]] + BeforePoint(s[1..])
  }

  /** `str::parse::<f64>` on literals of the form `digits`, `digits.digits`, with an optional sign. */
  function ParseReal(s: string): Option<real> {
    if s != "" && s[0] == '-' then
      match ParseUnsigned(s[1..]) case None => None case Some(v) => Some(-v)
    else
      ParseUnsigned(if s != "" && s[0] == '+' then s[1..] else s)
  }

  function ParseUnsigned(s: string): Option<real> {
    var whole := BeforePoint(s);
    var fraction := if |whole| == |s| then "" else s[|whole| + 1..];
    if (forall c :: c in whole ==> IsDigit(c)) && (forall c :: c in fraction ==> IsDigit(c)) &&
      (whole != "" || fraction != "") then
      Some(NatValue(whole) as real + FractionValue(fraction))
    else
      None
  }

  lemma {:induction false} BeforePointAbsent(s: string)
    requires '.' !in s
    ensures BeforePoint(s) == s
  {
    if s == "" {
    } else {
      BeforePointAbsent(s[1..]);
      assert [s[0]] + s[1..] == s;
    }
  }

  lemma ParseDigits(s: string)
    requires s != "" && AllDigits(s)
    ensures ParseReal(s) == Some(NatValue(s) as real)
    ensures ParseReal("-" + s) == Some(-(NatValue(s) as real))
  {
    assert s[0] in s;
    ParseUnsignedDigits(s);
    ParseSigned(s);
    hide *;
  }

  lemma ParseSigned(s: string)
    requires s != "" && s[0] != '-' && s[0] != '+'
    ensures ParseReal(s) == ParseUnsigned(s)
    ensures ParseReal("-" + s) == match ParseUnsigned(s) case None => None case Some(v) => Some(-v)
  {
    hide ParseUnsigned;
    assert ("-" + s)[1..] == s;
  }

  lemma ParseUnsignedDigits(s: string)
    requires s != "" && AllDigits(s)
    ensures ParseUnsigned(s) == Some(NatValue(s) as real)
  {
    BeforePointAbsent(s);
    assert FractionValue("") == 0.0;
    hide NatValue, BeforePoint, FractionValue;
  }

  lemma ParsePrintedInt(i: int)
    ensures ParseReal(PrintInt(i)) == Some(i as real)
  {
    var n: nat := if i < 0 then -i else i;
    PrintNatValue(n);
    ParseDigits(PrintNat(n));
  }

  lemma {:induction false} BeforePointPresent(head: string, tail: string)
    requires '.' !in head
    ensures BeforePoint(head + "." + tail) == head
  {
    var s := head + "." + tail;
    if head == "" {
    } else {
      assert s[1..] == head[1..] + "." + tail;
      BeforePointPresent(head[1..], tail);
      assert [head[0]] + head[1..] == head;
    }
  }

  lemma ParsePrintedFraction(n: nat, fraction: string)
    requires AllDigits(fraction)
    ensures ParseReal(PrintNat(n) + "." + fraction) == Some(n as real + FractionValue(fraction))
  {
    var whole := PrintNat(n);
    var s := whole + "." + fraction;
    assert whole[0] in whole && s[0] == whole[0];
    assert '.' !in whole;
    BeforePointPresent(whole, fraction);
    assert s[|whole| + 1..] == fraction;
    PrintNatValue(n);
  }

  /** Round to the nearest integer, ties to even, as `format!` with a precision does. */
  function RoundHalfEven(x: real): (r: int)
    ensures -0.5 <= x - r as real <= 0.5
    ensures x - r as real == 0.5 || x - r as real == -0.5 ==> r % 2 == 0
  {
    var down := x.Floor;
    var rest := x - down as real;
    if rest < 0.5 || (rest == 0.5 && down % 2 == 0) then down else down + 1
  }

  /** `f64::round`: to the nearest integer, ties away from zero. */
  function RoundHalfAway(x: real): (r: int)
    ensures -0.5 <= x - r as real <= 0.5
    ensures (x - r as real == 0.5 ==> x < 0.0) && (x - r as real == -0.5 ==> x > 0.0)
  {
    if x >= 0.0 then (x + 0.5).Floor else -((0.5 - x).Floor)
  }

  const I64_MAX: int := 0x7fff_ffff_ffff_ffff
  const I64_MIN: int := -0x8000_0000_0000_0000

  /** `as i64` saturates. */
  function ToI64(i: int): int {
    if i > I64_MAX then I64_MAX else if i < I64_MIN then I64_MIN else i
  }

  /** `str::parse::<i64>` */
  function ParseI64(s: string): Option<int> {
    var signed := s != "" && (s[0] == '-' || s[0] == '+');
    var digits := if signed then s[1..] else s;
    if digits == "" || !(forall c :: c in digits ==> IsDigit(c)) then None
    else
      var size: int := NatValue(digits);
      var n := if signed && s[0] == '-' then -size else size;
      if I64_MIN <= n <= I64_MAX then Some(n) else None
  }

  function Fits(v: int): Option<int> {
    if -0x8000_0000_0000_0000 <= v <= 0x7fff_ffff_ffff_ffff then Some(v) else None
  }

  lemma ParseI64Digits(digits: string)
    requires digits != "" && AllDigits(digits)
    ensures ParseI64(digits) == Fits(NatValue(digits)) && ParseI64("+" + digits) == Fits(NatValue(digits))
    ensures ParseI64("-" + digits) == Fits(-(NatValue(digits) as int))
  {
    assert digits[0] in digits;
    hide NatValue;
    assert ("-" + digits)[1..] == digits && ("+" + digits)[1..] == digits;
  }

  /** Every number of 64 bits reads back as printed, with or without a plus sign; no other number is read. */
  lemma ParseI64Printed(v: int)
    ensures ParseI64(PrintInt(v)) == Fits(v)
    ensures v >= 0 ==> ParseI64("+" + PrintInt(v)) == Fits(v)
  {
    var n: nat := if v < 0 then -v else v;
    PrintNatValue(n);
    hide ParseI64, PrintNat;
    ParseI64Digits(PrintNat(n));
  }

  /** Zeros in front change nothing. */
  lemma {:induction false} LeadingZero(s: string)
    requires AllDigits(s)
    ensures AllDigits("0" + s) && NatValue("0" + s) == NatValue(s)
  {
    var z := "0" + s;
    if s == "" {
      assert z[..0] == "";
    } else {
      var init := s[..|s| - 1];
      assert s[|s| - 1] in s;
      assert AllDigits(init);
      LeadingZero(init);
      assert z[..|z| - 1] == "0" + init;
    }
  }

  /** Text with anything but digits after its sign is no number. */
  lemma ParseI64Refuses(s: string)
    ensures s == "" || s == "+" || s == "-" ==> ParseI64(s) == None
    ensures (exists i :: 0 < i < |s| && !IsDigit(s[i])) ==> ParseI64(s) == None
    ensures s != "" && !IsDigit(s[0]) && s[0] != '+' && s[0] != '-' ==> ParseI64(s) == None
  {
    if i :| 0 < i < |s| && !IsDigit(s[i]) {
      assert s[i] == s[1..][i - 1] && s[i] in s[1..] && s[i] in s;
    }
    if s != "" {
      assert s[0] in s;
    }
  }
}

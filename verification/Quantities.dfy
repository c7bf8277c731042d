/** Printing and parsing of Kubernetes CPU and memory quantities, with `f64` taken as `real`. */
module Quantities {
  import opened Numbers
  import opened Strings
  import opened Wrappers

  const UNITS := ["B", "Ki", "Mi", "Gi", "Ti"]
  const EPSILON: real := 1.0 / 4503599627370496.0

  function Power(base: real, exponent: nat): real {
    if exponent == 0 then 1.0 else base * Power(base, exponent - 1)
  }

  /** The length of the longest prefix of digits and points. */
  function UnitStart(s: string): (n: nat)
    ensures n <= |s|
  {
    if s == "" || !(IsDigit(s[0]) || s[0] == '.') then 0 else 1 + UnitStart(s[1..])
  }

  function UnitFactor(unit: string): Option<real> {
    match unit
    case "" => Some(1.0)
    case "Ki" => Some(1024.0)
    case "Mi" => Some(Power(1024.0, 2))
    case "Gi" => Some(Power(1024.0, 3))
    case "Ti" => Some(Power(1024.0, 4))
    case "K" => Some(1000.0)
    case "k" => Some(1000.0)
    case "M" => Some(Power(1000.0, 2))
    case "G" => Some(Power(1000.0, 3))
    case "T" => Some(Power(1000.0, 4))
    case "n" => Some(1.0 / 1000000000.0)
    case "u" => Some(1.0 / 1000000.0)
    case "m" => Some(1.0 / 1000.0)
    case _ => None
  }

  function Scale(number: Option<real>, factor: real): Option<real> {
    match number case None => None case Some(x) => Some(x * factor)
  }

  function ParseMemoryBytes(value: string): Option<real> {
    var trimmed := Trim(value);
    if trimmed == "" then None
    else
      var start := UnitStart(trimmed);
      match UnitFactor(trimmed[start..])
      case None => None
      case Some(factor) => Scale(ParseReal(trimmed[..start]), factor)
  }

  function ParseCpuMillicores(value: string): Option<real> {
    var trimmed := Trim(value);
    if trimmed == "" then None
    else
      var last := trimmed[|trimmed| - 1];
      var number := trimmed[..|trimmed| - 1];
      if last == 'm' then ParseReal(number)
      else if last == 'n' then Scale(ParseReal(number), 1.0 / 1000000.0)
      else if last == 'u' then Scale(ParseReal(number), 1.0 / 1000.0)
      else Scale(ParseReal(trimmed), 1000.0)
  }

  /** `format!("{x:.0}")` for a non-negative `x`. */
  function Fixed0(x: real): string
    requires x >= 0.0
  {
    PrintNat(RoundHalfEven(x))
  }

  /** `format!("{x:.1}")` */
  function Fixed1(x: real): string {
    var tenths := RoundHalfEven((if x < 0.0 then -x else x) * 10.0);
    (if x < 0.0 then "-" else "") + PrintNat(tenths / 10) + "." + [Digit(tenths % 10)]
  }

  /** `format!("{x:.2}")` for a non-negative `x`. */
  function Fixed2(x: real): string
    requires x >= 0.0
  {
    var hundredths := RoundHalfEven(x * 100.0);
    PrintNat(hundredths / 100) + "." + [Digit(hundredths / 10 % 10), Digit(hundredths % 10)]
  }

  /** `s.replace(from, to)` */
  function Replace(s: string, from: string, to: string): string
    requires from != ""
  {
    Join(Split(s, from), to)
  }

  function TrimEndMatches(s: string, c: char): string {
    if s != "" && s[|s| - 1] == c then TrimEndMatches(s[..|s| - 1], c) else s
  }

  function FormatMillicores(value: real): string {
    if value < 1000.0 then PrintInt(ToI64(RoundHalfAway(value))) + "m" else FormatCores(value / 1000.0)
  }

  function FormatCores(cores: real): string
    requires cores >= 1.0
  {
    if Whole(cores) then PrintInt(ToI64(cores.Floor))
    else TrimEndMatches(TrimEndMatches(Fixed2(cores), '0'), '.')
  }

  /** `cores.fract().abs() < f64::EPSILON` for a positive number of cores. */
  predicate Whole(cores: real) {
    cores - cores.Floor as real < EPSILON
  }

  // ── Memory ───────────────────────────────────────────────────────────────

  lemma {:induction false} UnitStartOf(number: string, unit: string)
    requires forall c :: c in number ==> IsDigit(c) || c == '.'
    requires unit == "" || !(IsDigit(unit[0]) || unit[0] == '.')
    ensures UnitStart(number + unit) == |number|
  {
    if number == "" {
      assert number + unit == unit;
    } else {
      assert number[0] in number;
      assert (number + unit)[1..] == number[1..] + unit;
      UnitStartOf(number[1..], unit);
    }
  }

  /** Reading a printed number with a unit. */
  lemma ParseNumberWithUnit(number: string, unit: string)
    requires number != "" && forall c :: c in number ==> IsDigit(c) || c == '.'
    requires unit in UNITS
    ensures ParseMemoryBytes(number + unit) ==
            match UnitFactor(unit) case None => None case Some(f) => Scale(ParseReal(number), f)
  {
    var s := number + unit;
    assert number[0] in number && s[0] == number[0];
    assert Trimmed(s);
    hide Trim, Trimmed, ParseReal, UnitFactor, Scale, UnitStart;
    TrimResult(s);
    UnitStartOf(number, unit);
    assert s[..|number|] == number && s[|number|..] == unit;
  }

  /** Text that starts with a minus sign is no memory quantity. */
  lemma ParseNegative(s: string)
    requires s != "" && s[0] == '-'
    ensures ParseMemoryBytes(s) == None
  {
    TrimEndResult(s);
    var t := Trim(s);
    assert t[0] == '-' && t[..0] == "";
    assert ParseReal("") == None;
  }

  lemma CleanDecimal(number: string, tail: string)
    requires AllDigits(number) && |tail| >= 2 && tail[1] != '0' && '.' !in tail[1..]
    ensures Clean(number + tail, ".0")
  {
    var s := number + tail;
    forall k | 0 <= k < |s| ensures !(".0" <= (s + ".0")[k..]) {
      var rest := (s + ".0")[k..];
      if k < |number| {
        assert number[k] in number && rest[0] == number[k];
      } else if k > |number| {
        assert rest[0] == tail[1..][k - |number| - 1];
      } else {
        assert rest[1] == tail[1];
      }
    }
  }

  lemma NoPointIsClean(s: string)
    requires '.' !in s
    ensures Clean(s, ".0")
  {
    forall k | 0 <= k < |s| ensures !(".0" <= (s + ".0")[k..]) {
      assert s[k] in s && (s + ".0")[k..][0] == s[k];
    }
  }

  /** What is left of a printed decimal after the cosmetic `.replace(".0", "")`. */
  function Stripped(whole: nat, tenth: nat): string
    requires tenth < 10
  {
    PrintNat(whole) + (if tenth == 0 then "" else "." + [Digit(tenth)])
  }

  lemma StripPointZero(whole: nat, tenth: nat, unit: string)
    requires tenth < 10 && unit in UNITS
    ensures Replace(PrintNat(whole) + "." + [Digit(tenth)] + unit, ".0", "") == Stripped(whole, tenth) + unit
  {
    var digits := PrintNat(whole);
    var s := digits + "." + [Digit(tenth)] + unit;
    if tenth == 0 {
      assert s == digits + ".0" + unit;
      NoPointIsClean(digits);
      NoPointIsClean(unit);
      SplitJoin([digits, unit], ".0");
      assert [digits, unit][1..] == [unit];
      assert Join([digits, unit], ".0") == s;
      assert Join([digits, unit], "") == digits + "" + unit;
      assert digits + "" == digits;
    } else {
      var tail := "." + [Digit(tenth)] + unit;
      assert s == digits + tail;
      assert tail[1..] == [Digit(tenth)] + unit;
      CleanDecimal(digits, tail);
      SplitSingle(s, ".0");
      assert s == Stripped(whole, tenth) + unit;
    }
  }

  lemma ParseStripped(whole: nat, tenth: nat)
    requires tenth < 10
    ensures ParseReal(Stripped(whole, tenth)) == Some(whole as real + tenth as real / 10.0)
    ensures Stripped(whole, tenth) != "" && forall c :: c in Stripped(whole, tenth) ==> IsDigit(c) || c == '.'
  {
    hide ParseReal, PrintNat, PrintInt;
    if tenth == 0 {
      ParsePrintedInt(whole);
      assert PrintInt(whole) == PrintNat(whole) by { PrintIntOfNat(whole); }
      assert PrintNat(whole) + "" == PrintNat(whole);
    } else {
      var d := [Digit(tenth)];
      ParsePrintedFraction(whole, d);
      OneDigitFraction(tenth);
      assert Stripped(whole, tenth) == PrintNat(whole) + "." + d;
      hide FractionValue;
    }
  }

  lemma PrintIntOfNat(n: nat)
    ensures PrintInt(n) == PrintNat(n)
  {
  }

  lemma OneDigitFraction(d: nat)
    requires d < 10
    ensures FractionValue([Digit(d)]) == d as real / 10.0
  {
    assert [Digit(d)][1..] == "" && FractionValue("") == 0.0;
  }

  /** The last step of the printer: `value` is what remains after scaling to `unit`. */
  function PrintScaled(value: real, unit: string): string {
    if value >= 10.0 then Fixed0(value) + unit else Replace(Fixed1(value) + unit, ".0", "")
  }

  lemma TenthsError(value: real, tenths: nat, read: real)
    requires value >= 0.0 && tenths == RoundHalfEven(value * 10.0)
    requires read == (tenths / 10) as real + (tenths % 10) as real / 10.0
    ensures value >= 1.0 ==> -value / 20.0 <= read - value <= value / 20.0
  {
    assert tenths == 10 * (tenths / 10) + tenths % 10;
    assert read * 10.0 == tenths as real;
  }

  lemma Fixed1Shape(value: real, tenths: nat)
    requires tenths == RoundHalfEven((if value < 0.0 then -value else value) * 10.0)
    ensures Fixed1(value) == (if value < 0.0 then "-" else "") + PrintNat(tenths / 10) + "." + [Digit(tenths % 10)]
  {
  }

  /** The printed number is within a twentieth of the scaled value it stands for. */
  lemma PrintedScaled(value: real, unit: string) returns (number: string, read: real)
    requires value >= 0.0 && unit in UNITS
    ensures number != "" && forall c :: c in number ==> IsDigit(c) || c == '.'
    ensures ParseReal(number) == Some(read)
    ensures value >= 1.0 ==> -value / 20.0 <= read - value <= value / 20.0
    ensures number + unit == PrintScaled(value, unit)
  {
    if value >= 10.0 {
      var n: nat := RoundHalfEven(value);
      number, read := PrintNat(n), n as real;
      ParsePrintedInt(n);
    } else {
      number, read := PrintedTenths(value, unit);
    }
  }

  lemma PrintedTenths(value: real, unit: string) returns (number: string, read: real)
    requires 0.0 <= value < 10.0 && unit in UNITS
    ensures number != "" && forall c :: c in number ==> IsDigit(c) || c == '.'
    ensures ParseReal(number) == Some(read)
    ensures value >= 1.0 ==> -value / 20.0 <= read - value <= value / 20.0
    ensures number + unit == Replace(Fixed1(value) + unit, ".0", "")
  {
    hide *;
    var tenths: nat := RoundHalfEven(value * 10.0);
    Fixed1Shape(value, tenths);
    var whole: nat, tenth: nat := tenths / 10, tenths % 10;
    number, read := Stripped(whole, tenth), whole as real + tenth as real / 10.0;
    TenthsError(value, tenths, read);
    StripPointZero(whole, tenth, unit);
    ParseStripped(whole, tenth);
    assert Fixed1(value) == PrintNat(whole) + "." + [Digit(tenth)] by {
      assert "" + PrintNat(whole) == PrintNat(whole);
    }
  }

  lemma {:induction false} PowerPositive(base: real, exponent: nat)
    requires base > 0.0
    ensures Power(base, exponent) > 0.0
  {
    if exponent == 0 {
    } else {
      PowerPositive(base, exponent - 1);
    }
  }

  lemma ScaleStep(value: real, index: nat)
    ensures (value / 1024.0) * Power(1024.0, index + 1) == value * Power(1024.0, index)
  {
    var p := Power(1024.0, index);
    assert (value / 1024.0) * (1024.0 * p) == value * p;
  }

  lemma ScaledError(read: real, value: real, factor: real)
    requires factor > 0.0 && -value / 20.0 <= read - value <= value / 20.0
    ensures -(value * factor) / 20.0 <= read * factor - value * factor <= (value * factor) / 20.0
  {
    var e := read - value;
    assert e * factor <= (value / 20.0) * factor;
    assert (-value / 20.0) * factor <= e * factor;
  }

  lemma {:induction false} JoinAfter(c: char, pieces: seq<string>)
    requires |pieces| >= 1
    ensures Join([[c] + pieces[0]] + pieces[1..], "") == [c] + Join(pieces, "")
  {
    var longer := [[c] + pieces[0]] + pieces[1..];
    if |pieces| <= 1 {
    } else {
      var rest := Join(pieces[1..], "");
      assert longer[1..] == pieces[1..];
      assert Join(longer, "") == [c] + pieces[0] + "" + rest;
      assert [c] + pieces[0] + "" + rest == [c] + (pieces[0] + "" + rest);
    }
  }

  lemma ReplaceAfter(c: char, body: string)
    requires c != '.' && |body| >= 1
    ensures Replace([c] + body, ".0", "") == [c] + Replace(body, ".0", "")
  {
    var s := [c] + body;
    var pieces := Split(body, ".0");
    assert s[1..] == body;
    assert s[0] == c;
    assert !(".0" <= s);
    assert Split(s, ".0") == [[c] + pieces[0]] + pieces[1..];
    JoinAfter(c, pieces);
  }

  lemma NegativeText(text: string)
    ensures ParseMemoryBytes(Replace("-" + text + "B", ".0", "")) == None
  {
    assert "-" + text + "B" == ['-'] + (text + "B");
    ReplaceAfter('-', text + "B");
    ParseNegative(Replace("-" + text + "B", ".0", ""));
  }

  /** A negative amount prints with a minus sign, which no memory quantity has. */
  lemma PrintedNegative(value: real)
    requires value < 0.0
    ensures ParseMemoryBytes(PrintScaled(value, "B")) == None
  {
    var tenths: nat := RoundHalfEven(-value * 10.0);
    Fixed1Shape(value, tenths);
    var whole: nat, tenth: nat := tenths / 10, tenths % 10;
    NegativeText(PrintNat(whole) + "." + [Digit(tenth)]);
    StripPointZero(whole, tenth, "B");
    assert Fixed1(value) + "B" == "-" + (PrintNat(whole) + "." + [Digit(tenth)]) + "B";
  }

  lemma FactorOfUnit(index: nat)
    requires index < |UNITS|
    ensures UnitFactor(UNITS[index]) == if index == 0 then None else Some(Power(1024.0, index))
  {
    assert Power(1024.0, 1) == 1024.0;
  }

  lemma ParsePrintScaled(value: real, index: nat) returns (read: real)
    requires index < |UNITS| && value >= 0.0
    ensures ParseMemoryBytes(PrintScaled(value, UNITS[index])) ==
            if index == 0 then None else Scale(Some(read), Power(1024.0, index))
    ensures value >= 1.0 ==> -value / 20.0 <= read - value <= value / 20.0
  {
    hide ParseMemoryBytes, ParseReal, PrintScaled, UnitFactor, Power, Scale;
    var number;
    number, read := PrintedScaled(value, UNITS[index]);
    ParseNumberWithUnit(number, UNITS[index]);
    FactorOfUnit(index);
  }

  /** After `index` divisions by 1024 the printed text parses back as the contract below says. */
  lemma PrintedAmount(bytes: real, value: real, index: nat)
    requires index < |UNITS| && value * Power(1024.0, index) == bytes
    requires if index == 0 then value == bytes && value < 1024.0 else value >= 1.0
    ensures var read := ParseMemoryBytes(PrintScaled(value, UNITS[index]));
            && (read.Some? <==> index > 0)
            && (index > 0 ==> -bytes / 20.0 <= read.value - bytes <= bytes / 20.0)
  {
    hide ParseMemoryBytes, PrintScaled;
    if value < 0.0 {
      PrintedNegative(value);
    } else {
      var read := ParsePrintScaled(value, index);
      if index > 0 {
        PowerPositive(1024.0, index);
        ScaledError(read, value, Power(1024.0, index));
      }
    }
  }

  // ── What an amount of memory is shown as ─────────────────────────────────

  /** The unit for an amount, and how many bytes it stands for. */
  function BinaryUnit(bytes: real): (string, real) {
    if bytes < 1024.0 then ("B", 1.0)
    else if bytes < 1048576.0 then ("Ki", 1024.0)
    else if bytes < 1073741824.0 then ("Mi", 1048576.0)
    else if bytes < 1099511627776.0 then ("Gi", 1073741824.0)
    else ("Ti", 1099511627776.0)
  }

  /**
   * The text is a number and the unit. From 10 on the number is the nearest integer, without a point. Below 10,
   * for negative amounts too, it is the nearest tenth, and a last zero is not shown.
   */
  ghost predicate IsShown(text: string, value: real, unit: string, number: string, read: real) {
    && text == number + unit && ParseReal(number) == Some(read)
    && if value >= 10.0 then
         read.Floor as real == read && -0.5 <= read - value <= 0.5 && '.' !in number
       else
         && (read * 10.0).Floor as real == read * 10.0 && -0.05 <= read - value <= 0.05
         && !(|number| >= 2 && number[|number| - 2..] == ".0")
  }

  ghost predicate Shows(text: string, value: real, unit: string) {
    exists number, read :: IsShown(text, value, unit, number, read)
  }

  lemma StrippedEnd(whole: nat, tenth: nat)
    requires tenth < 10
    ensures var s := Stripped(whole, tenth); !(|s| >= 2 && s[|s| - 2..] == ".0")
    ensures Stripped(whole, tenth)[0] != '-' && Stripped(whole, tenth)[0] != '+'
  {
    var w, s := PrintNat(whole), Stripped(whole, tenth);
    assert w[0] in w && s[0] == w[0];
    if tenth == 0 {
      assert s == w;
      if |s| >= 2 {
        assert s[|s| - 2] in s && s[|s| - 2] == s[|s| - 2..][0];
      }
    } else {
      assert s[|s| - 1] == Digit(tenth) && s[|s| - 1] == s[|s| - 2..][1];
    }
  }

  /** A number of tenths is read from its whole part and its last tenth. */
  lemma TenthsRead(tenths: nat)
    ensures var read := (tenths / 10) as real + (tenths % 10) as real / 10.0;
      read * 10.0 == tenths as real && (read * 10.0).Floor as real == read * 10.0
  {
    assert tenths == 10 * (tenths / 10) + tenths % 10;
  }

  /** The text left of a number of tenths, what it reads as, and what is printed for it and its negative. */
  lemma StrippedTenths(tenths: nat, unit: string) returns (stripped: string, read: real, digits: string)
    requires unit in UNITS
    ensures digits == PrintNat(tenths / 10) + "." + [Digit(tenths % 10)]
    ensures digits != "" && Replace(digits + unit, ".0", "") == stripped + unit
    ensures Replace(['-'] + (digits + unit), ".0", "") == ['-'] + (stripped + unit)
    ensures stripped != "" && stripped[0] != '-' && stripped[0] != '+' && ParseReal(stripped) == Some(read)
    ensures !(|stripped| >= 2 && stripped[|stripped| - 2..] == ".0")
    ensures read * 10.0 == tenths as real && (read * 10.0).Floor as real == read * 10.0
  {
    var whole: nat, tenth: nat := tenths / 10, tenths % 10;
    stripped, read := Stripped(whole, tenth), whole as real + tenth as real / 10.0;
    digits := PrintNat(whole) + "." + [Digit(tenth)];
    TenthsRead(tenths);
    StripPointZero(whole, tenth, unit);
    ParseStripped(whole, tenth);
    StrippedEnd(whole, tenth);
    hide *;
    ReplaceAfter('-', digits + unit);
  }

  lemma ShowsTenths(value: real, unit: string)
    requires 0.0 <= value < 10.0 && unit in UNITS
    ensures Shows(Replace(Fixed1(value) + unit, ".0", ""), value, unit)
  {
    hide Shows, IsShown, Replace, Fixed1, ParseReal, PrintNat;
    var tenths: nat := RoundHalfEven(value * 10.0);
    var stripped, read, digits := StrippedTenths(tenths, unit);
    Fixed1Shape(value, tenths);
    assert "" + PrintNat(tenths / 10) == PrintNat(tenths / 10);
    ShowsPositive(stripped + unit, value, unit, stripped, read);
  }

  lemma ShowsMinusTenths(value: real)
    requires value < 0.0
    ensures Shows(Replace(Fixed1(value) + "B", ".0", ""), value, "B")
  {
    hide Shows, IsShown, Replace, Fixed1, ParseReal, PrintNat;
    var tenths: nat := RoundHalfEven(-value * 10.0);
    var stripped, read, digits := StrippedTenths(tenths, "B");
    Fixed1Shape(value, tenths);
    assert Fixed1(value) + "B" == ['-'] + (digits + "B");
    ParseMinus(stripped, read);
    ShowsNegative(['-'] + (stripped + "B"), value, stripped, read);
  }

  lemma ParseMinus(s: string, read: real)
    requires s != "" && s[0] != '-' && s[0] != '+' && ParseReal(s) == Some(read)
    ensures ParseReal("-" + s) == Some(-read)
  {
    ParseSigned(s);
  }

  lemma ShowsPositive(text: string, value: real, unit: string, stripped: string, read: real)
    requires 0.0 <= value < 10.0 && text == stripped + unit && ParseReal(stripped) == Some(read)
    requires (read * 10.0).Floor as real == read * 10.0 && -0.5 <= value * 10.0 - read * 10.0 <= 0.5
    requires !(|stripped| >= 2 && stripped[|stripped| - 2..] == ".0")
    ensures Shows(text, value, unit)
  {
    hide ParseReal;
    assert IsShown(text, value, unit, stripped, read);
  }

  lemma MinusTenths(read: real)
    requires (read * 10.0).Floor as real == read * 10.0
    ensures (-read * 10.0).Floor as real == -read * 10.0
  {
    assert -read * 10.0 == (-(read * 10.0).Floor) as real;
  }

  lemma ShowsNegative(text: string, value: real, stripped: string, read: real)
    requires value < 0.0 && text == ['-'] + (stripped + "B") && ParseReal("-" + stripped) == Some(-read)
    requires (read * 10.0).Floor as real == read * 10.0 && -0.5 <= -value * 10.0 - read * 10.0 <= 0.5
    requires stripped != "" && !(|stripped| >= 2 && stripped[|stripped| - 2..] == ".0")
    ensures Shows(text, value, "B")
  {
    var number := "-" + stripped;
    MinusTenths(read);
    assert -0.05 <= -read - value <= 0.05;
    hide ParseReal;
    assert text == number + "B";
    if |stripped| >= 2 {
      assert number[|number| - 2..] == stripped[|stripped| - 2..];
    } else {
      assert number[|number| - 2..][0] == '-';
    }
    assert IsShown(text, value, "B", number, -read);
  }

  lemma ShowsWhole(value: real, unit: string)
    requires value >= 10.0
    ensures Shows(Fixed0(value) + unit, value, unit)
  {
    var n: nat := RoundHalfEven(value);
    ParsePrintedInt(n);
    assert '.' !in PrintNat(n);
    assert IsShown(Fixed0(value) + unit, value, unit, PrintNat(n), n as real);
  }

  lemma UnitOfAmount(bytes: real, value: real, index: nat)
    requires index < |UNITS| && value * Power(1024.0, index) == bytes
    requires index > 0 ==> value >= 1.0
    requires index < |UNITS| - 1 ==> value < 1024.0
    ensures BinaryUnit(bytes) == (UNITS[index], Power(1024.0, index)) && bytes / BinaryUnit(bytes).1 == value
  {
    assert Power(1024.0, 1) == 1024.0;
    assert Power(1024.0, 2) == 1048576.0;
    assert Power(1024.0, 3) == 1073741824.0;
    assert Power(1024.0, 4) == 1099511627776.0;
  }

  lemma ScaledIsShown(value: real, unit: string)
    requires unit in UNITS && (value < 0.0 ==> unit == "B")
    ensures Shows(PrintScaled(value, unit), value, unit)
  {
    hide Shows, Fixed0, Fixed1, Replace;
    if value >= 10.0 {
      ShowsWhole(value, unit);
    } else if value >= 0.0 {
      ShowsTenths(value, unit);
    } else {
      ShowsMinusTenths(value);
    }
  }

  lemma AmountIsShown(bytes: real, value: real, index: nat)
    requires index < |UNITS| && value * Power(1024.0, index) == bytes
    requires index > 0 ==> value >= 1.0
    requires index < |UNITS| - 1 ==> value < 1024.0
    ensures Shows(PrintScaled(value, UNITS[index]), bytes / BinaryUnit(bytes).1, BinaryUnit(bytes).0)
  {
    UnitOfAmount(bytes, value, index);
    hide *;
    ScaledIsShown(value, UNITS[index]);
  }

  /**
   * `format_binary_bytes`: the text shows the amount in its unit. It can be parsed back exactly from 1024
   * upwards, and then the parsed amount is within five per cent of the printed one.
   */
  method FormatBinaryBytes(bytes: real) returns (text: string)
    ensures ParseMemoryBytes(text).Some? <==> bytes >= 1024.0
    ensures bytes >= 1024.0 ==> -bytes / 20.0 <= ParseMemoryBytes(text).value - bytes <= bytes / 20.0
    ensures Shows(text, bytes / BinaryUnit(bytes).1, BinaryUnit(bytes).0)
  {
    var value := bytes;
    var index := 0;
    while value >= 1024.0 && index < |UNITS| - 1
      invariant 0 <= index < |UNITS|
      invariant value * Power(1024.0, index) == bytes
      invariant if index == 0 then value == bytes else value >= 1.0 && bytes >= 1024.0
    {
      ScaleStep(value, index);
      value := value / 1024.0;
      index := index + 1;
    }
    PrintedAmount(bytes, value, index);
    AmountIsShown(bytes, value, index);
    hide ParseMemoryBytes, Shows, Power, BinaryUnit;
    if value >= 10.0 {
      text := Fixed0(value) + UNITS[index];
    } else {
      text := Replace(Fixed1(value) + UNITS[index], ".0", "");
    }
  }

  // ── CPU ──────────────────────────────────────────────────────────────────

  lemma PrintIntShape(i: int)
    ensures var s := PrintInt(i);
            s != "" && Trimmed(s) && IsDigit(s[|s| - 1]) && !IsWhitespace(s[0])
  {
    var d := PrintNat(if i < 0 then -i else i);
    assert d[|d| - 1] in d && d[0] in d;
  }

  /** Whole cores and millicores parse back to the printed integer. */
  lemma ParsePrintedCpu(i: int)
    ensures ParseCpuMillicores(PrintInt(i)) == Some(1000.0 * i as real)
    ensures ParseCpuMillicores(PrintInt(i) + "m") == Some(i as real)
  {
    PrintIntShape(i);
    ParsePrintedInt(i);
    var s := PrintInt(i);
    hide PrintInt, ParseReal, ParseCpuMillicores, Trimmed;
    UnitlessCpu(s);
    MillicoreUnit(s);
  }

  lemma MillicoreUnit(s: string)
    requires s != "" && Trimmed(s) && IsDigit(s[|s| - 1]) && !IsWhitespace(s[0])
    ensures ParseCpuMillicores(s + "m") == ParseReal(s)
  {
    var m := s + "m";
    assert Trimmed(m);
    TrimResult(m);
    assert m[..|s|] == s;
    hide ParseReal, Trim;
  }

  lemma TrimZeros(w: string, d1: nat, d2: nat)
    requires w != "" && AllDigits(w) && d1 < 10 && d2 < 10
    ensures TrimEndMatches(TrimEndMatches(w + "." + [Digit(d1), Digit(d2)], '0'), '.') ==
            if d1 == 0 && d2 == 0 then w else if d2 == 0 then w + "." + [Digit(d1)]
              else w + "." + [Digit(d1), Digit(d2)]
  {
    assert w[|w| - 1] in w;
    var s2 := w + "." + [Digit(d1), Digit(d2)];
    var s1 := w + "." + [Digit(d1)];
    var s0 := w + ".";
    assert s2[..|s2| - 1] == s1;
    assert s1[..|s1| - 1] == s0;
    assert s0[..|s0| - 1] == w;
    assert TrimEndMatches(s0, '0') == s0 && TrimEndMatches(w, '.') == w;
    assert TrimEndMatches(s1, '0') == if d1 == 0 then s0 else s1;
    assert TrimEndMatches(s2, '0') == if d2 == 0 then TrimEndMatches(s1, '0') else s2;
    assert TrimEndMatches(s0, '.') == w;
  }

  lemma UnitlessCpu(s: string)
    requires Trimmed(s) && s != "" && IsDigit(s[|s| - 1])
    ensures ParseCpuMillicores(s) == Scale(ParseReal(s), 1000.0)
  {
    TrimResult(s);
    hide ParseReal, Trim;
  }

  lemma ParseFractionalCpu(n: nat, fraction: string)
    requires fraction != "" && AllDigits(fraction)
    ensures ParseCpuMillicores(PrintNat(n) + "." + fraction) == Some((n as real + FractionValue(fraction)) * 1000.0)
  {
    hide ParseReal, ParseCpuMillicores, FractionValue;
    ParsePrintedFraction(n, fraction);
    var w := PrintNat(n);
    hide PrintNat;
    var s := w + "." + fraction;
    assert w[0] in w && s[0] == w[0];
    assert fraction[|fraction| - 1] in fraction && s[|s| - 1] == fraction[|fraction| - 1];
    UnitlessCpu(s);
  }

  /** Fractional cores parse back to the printed hundredths. */
  lemma ParsePrintedHundredths(n: nat, d1: nat, d2: nat)
    requires d1 < 10 && d2 < 10
    ensures ParseCpuMillicores(TrimEndMatches(TrimEndMatches(PrintNat(n) + "." + [Digit(d1), Digit(d2)], '0'), '.'))
         == Some(1000.0 * n as real + 100.0 * d1 as real + 10.0 * d2 as real)
  {
    hide TrimEndMatches, PrintNat, ParseCpuMillicores;
    TrimZeros(PrintNat(n), d1, d2);
    if d1 == 0 && d2 == 0 {
      ParsePrintedCpu(n);
      assert PrintInt(n) == PrintNat(n);
    } else {
      var f1, f2 := [Digit(d1)], [Digit(d1), Digit(d2)];
      assert f1[1..] == "" && f2[1..] == [Digit(d2)] && [Digit(d2)][1..] == "";
      assert FractionValue("") == 0.0;
      assert FractionValue(f1) == d1 as real / 10.0;
      assert FractionValue([Digit(d2)]) == d2 as real / 10.0;
      assert FractionValue(f2) == (d1 as real + d2 as real / 10.0) / 10.0;
      ParseFractionalCpu(n, if d2 == 0 then f1 else f2);
    }
  }

  lemma Hundredths(h: nat)
    ensures h == 100 * (h / 100) + 10 * (h / 10 % 10) + h % 10
  {
    var tens := h / 10;
    assert h == 10 * tens + h % 10;
    assert tens == 10 * (tens / 10) + tens % 10;
    assert tens / 10 == h / 100;
  }

  lemma Fixed2Shape(x: real, h: nat)
    requires x >= 0.0 && h == RoundHalfEven(x * 100.0)
    ensures Fixed2(x) == PrintNat(h / 100) + "." + [Digit(h / 10 % 10), Digit(h % 10)]
  {
    hide PrintNat, RoundHalfEven;
  }

  lemma ParseFixed2(x: real)
    requires x >= 0.0
    ensures ParseCpuMillicores(TrimEndMatches(TrimEndMatches(Fixed2(x), '0'), '.'))
      == Some(10.0 * RoundHalfEven(x * 100.0) as real)
  {
    hide TrimEndMatches, PrintNat, ParseCpuMillicores, RoundHalfEven;
    var h: nat := RoundHalfEven(x * 100.0);
    var n: nat, d1: nat, d2: nat := h / 100, h / 10 % 10, h % 10;
    Hundredths(h);
    ParsePrintedHundredths(n, d1, d2);
    Fixed2Shape(x, h);
    hide *;
  }

  /** The values whose printed integer does not fit the `i64` it is cast to. */
  predicate Saturates(value: real) {
    if value < 1000.0 then value < I64_MIN as real - 0.5
    else Whole(value / 1000.0) && (value / 1000.0).Floor > I64_MAX
  }

  function Tolerance(value: real): real {
    if value < 1000.0 then 0.5 else 5.0
  }

  lemma SmallMillicores(value: real)
    requires value < 1000.0
    ensures var i := ToI64(RoundHalfAway(value));
            && ParseCpuMillicores(FormatMillicores(value)) == Some(i as real)
            && (-0.5 <= i as real - value <= 0.5 <==> !Saturates(value))
  {
    ParsePrintedCpu(ToI64(RoundHalfAway(value)));
  }

  lemma LargeMillicores(cores: real) returns (read: real)
    requires cores >= 1.0
    ensures ParseCpuMillicores(FormatCores(cores)) == Some(read)
    ensures -5.0 <= read - 1000.0 * cores <= 5.0 <==> !(Whole(cores) && cores.Floor > I64_MAX)
  {
    hide ParseCpuMillicores, Fixed2, PrintInt, TrimEndMatches;
    if Whole(cores) {
      ParsePrintedCpu(ToI64(cores.Floor));
      read := 1000.0 * ToI64(cores.Floor) as real;
      assert 0.0 <= 1000.0 * cores - 1000.0 * cores.Floor as real < 1.0;
      if cores.Floor > I64_MAX {
        assert cores.Floor as real >= I64_MAX as real + 1.0;
      }
    } else {
      ParseFixed2(cores);
      read := 10.0 * RoundHalfEven(cores * 100.0) as real;
    }
  }

  /**
   * Printed millicores always parse back, and to within half a millicore below one core
   * and five above, exactly when the printed integer does not saturate.
   */
  lemma MillicoresRoundTrip(value: real)
    ensures var read := ParseCpuMillicores(FormatMillicores(value));
            && read.Some?
            && (-Tolerance(value) <= read.value - value <= Tolerance(value) <==> !Saturates(value))
  {
    hide ParseCpuMillicores, FormatCores;
    if value < 1000.0 {
      SmallMillicores(value);
    } else {
      var cores := value / 1000.0;
      var read := LargeMillicores(cores);
      assert 1000.0 * cores == value;
    }
  }
}

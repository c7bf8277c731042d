/** Which texts are CPU and memory quantities, and the amounts they stand for. */
module QuantityMeaning {
  import opened Numbers
  import opened Quantities
  import opened Strings
  import opened Wrappers

  // ── Numbers ──────────────────────────────────────────────────────────────

  /** Digits with at most one point among them, and at least one digit. */
  ghost predicate IsDecimal(s: string, whole: string, fraction: string) {
    && AllDigits(whole) && AllDigits(fraction) && whole + fraction != ""
    && (s == whole + "." + fraction || (s == whole && fraction == ""))
  }

  ghost predicate IsNumber(s: string, x: real, sign: string, whole: string, fraction: string) {
    && sign in ["", "+", "-"] && sign <= s && IsDecimal(s[|sign|..], whole, fraction)
    && var size := NatValue(whole) as real + FractionValue(fraction); x == if sign == "-" then -size else size
  }

  lemma UnsignedReads(s: string, whole: string, fraction: string)
    requires IsDecimal(s, whole, fraction)
    ensures ParseUnsigned(s) == Some(NatValue(whole) as real + FractionValue(fraction))
    ensures s != "" && s[0] != '-' && s[0] != '+'
  {
    assert '.' !in whole;
    assert whole != "" ==> whole[0] in whole && s[0] == whole[0];
    if s == whole + "." + fraction {
      BeforePointPresent(whole, fraction);
      assert s[|whole| + 1..] == fraction;
    } else {
      BeforePointAbsent(whole);
    }
  }

  lemma UnsignedReadsOnly(s: string) returns (whole: string, fraction: string)
    requires ParseUnsigned(s).Some?
    ensures IsDecimal(s, whole, fraction)
    ensures ParseUnsigned(s) == Some(NatValue(whole) as real + FractionValue(fraction))
  {
    whole := BeforePoint(s);
    fraction := if |whole| == |s| then "" else s[|whole| + 1..];
    assert |whole| < |s| ==> s == whole + "." + fraction;
    hide NatValue, FractionValue, BeforePoint;
  }

  lemma NumberIsRead(s: string, x: real, sign: string, whole: string, fraction: string)
    requires IsNumber(s, x, sign, whole, fraction)
    ensures ParseReal(s) == Some(x)
  {
    UnsignedReads(s[|sign|..], whole, fraction);
    hide ParseUnsigned, NatValue, FractionValue, IsDecimal;
    if sign == "" {
      assert s[0..] == s;
    } else {
      assert s[0] == sign[0];
    }
  }

  /** A text reads as a number exactly if it is one: an optional sign before digits with at most one point. */
  lemma NumberReads(s: string, x: real)
    ensures ParseReal(s) == Some(x) <==> exists sign, whole, fraction :: IsNumber(s, x, sign, whole, fraction)
  {
    if sign, whole, fraction :| IsNumber(s, x, sign, whole, fraction) {
      NumberIsRead(s, x, sign, whole, fraction);
    }
    if ParseReal(s) == Some(x) {
      var sign := if s != "" && (s[0] == '-' || s[0] == '+') then [s[0]] else "";
      var rest := s[|sign|..];
      assert sign == "" ==> rest == s;
      var whole, fraction := UnsignedReadsOnly(rest);
      hide ParseUnsigned, NatValue, FractionValue, IsDecimal;
      assert IsNumber(s, x, sign, whole, fraction);
    }
  }

  lemma NumberChars(s: string)
    requires ParseReal(s).Some?
    ensures s != "" && forall c :: c in s ==> IsDigit(c) || c in ".+-"
  {
    var x := ParseReal(s).value;
    NumberReads(s, x);
    var sign, whole, fraction :| IsNumber(s, x, sign, whole, fraction);
    var rest := s[|sign|..];
    assert s == sign + rest;
    assert forall c :: c in rest ==> c in whole || c == '.' || c in fraction;
  }

  // ── CPU ──────────────────────────────────────────────────────────────────

  /** The millicores in one of each unit: millicores, nanocores, microcores and whole cores. */
  function CpuFactor(unit: string): Option<real> {
    match unit
    case "m" => Some(1.0)
    case "n" => Some(0.000001)
    case "u" => Some(0.001)
    case "" => Some(1000.0)
    case _ => None
  }

  /** A number and its unit, with whitespace around them. */
  ghost predicate IsCpu(s: string, x: real, before: string, number: string, unit: string, after: string) {
    && s == before + (number + unit) + after && Blank(before) && Blank(after)
    && ParseReal(number).Some? && CpuFactor(unit).Some? && x == ParseReal(number).value * CpuFactor(unit).value
  }

  /** The unit at the end of trimmed text. */
  function CpuUnit(t: string): (unit: string)
    requires t != ""
    ensures |unit| <= |t| && CpuFactor(unit).Some? && t[|t| - |unit|..] == unit
  {
    if t[|t| - 1] == 'm' then "m" else if t[|t| - 1] == 'n' then "n" else if t[|t| - 1] == 'u' then "u" else ""
  }

  lemma CpuByUnit(s: string)
    requires Trim(s) != ""
    ensures var t := Trim(s);
      var unit := CpuUnit(t);
      ParseCpuMillicores(s) == Scale(ParseReal(t[..|t| - |unit|]), CpuFactor(unit).value)
  {
    hide ParseReal, Trim;
    var t := Trim(s);
    assert t[..|t| - 0] == t;
    var read := ParseReal(t[..|t| - |CpuUnit(t)|]);
    assert read.Some? ==> read.value * 1.0 == read.value;
  }

  lemma NumberEnds(number: string)
    requires ParseReal(number).Some?
    ensures number != "" && !IsWhitespace(number[0]) && !IsWhitespace(number[|number| - 1])
    ensures number[|number| - 1] !in ['m', 'n', 'u']
  {
    NumberChars(number);
    assert number[0] in number && number[|number| - 1] in number;
    hide ParseReal;
    NumberChar(number[0]);
    NumberChar(number[|number| - 1]);
    hide *;
  }

  lemma NumberChar(c: char)
    requires IsDigit(c) || c in ".+-"
    ensures !IsWhitespace(c) && c !in ['m', 'n', 'u']
  {
  }

  lemma UnitOfCpu(number: string, unit: string)
    requires ParseReal(number).Some? && CpuFactor(unit).Some?
    ensures var t := number + unit; t != "" && Trimmed(t) && CpuUnit(t) == unit && t[..|t| - |unit|] == number
  {
    NumberEnds(number);
    assert !IsWhitespace('m') && !IsWhitespace('n') && !IsWhitespace('u');
    hide ParseReal, IsWhitespace;
    var t := number + unit;
    assert t[0] == number[0];
    assert t[|t| - 1] == if unit == "" then number[|number| - 1] else unit[|unit| - 1];
  }

  lemma CpuReads(s: string, x: real, before: string, number: string, unit: string, after: string)
    requires IsCpu(s, x, before, number, unit, after)
    ensures ParseCpuMillicores(s) == Some(x)
  {
    UnitOfCpu(number, unit);
    TrimPadded(before, number + unit, after);
    CpuByUnit(s);
    hide ParseReal, Trim, Trimmed, CpuFactor, CpuUnit, ParseCpuMillicores;
  }

  /** A text reads as an amount of CPU exactly if it is a number with a unit, and as that amount. */
  lemma CpuReadsExactly(s: string, x: real)
    ensures ParseCpuMillicores(s) == Some(x) <==>
      exists before, number, unit, after :: IsCpu(s, x, before, number, unit, after)
  {
    if before, number, unit, after :| IsCpu(s, x, before, number, unit, after) {
      CpuReads(s, x, before, number, unit, after);
    }
    if ParseCpuMillicores(s) == Some(x) {
      var before, after := TrimSplits(s);
      var t := Trim(s);
      CpuByUnit(s);
      var unit := CpuUnit(t);
      var number := t[..|t| - |unit|];
      hide ParseReal, Trim, ParseCpuMillicores, CpuUnit, CpuFactor;
      assert number + unit == t;
      assert IsCpu(s, x, before, number, unit, after);
    }
  }

  // ── Memory ───────────────────────────────────────────────────────────────

  /** The bytes in one of each unit. */
  function MemoryFactor(unit: string): Option<real> {
    match unit
    case "" => Some(1.0)
    case "Ki" => Some(1024.0)
    case "Mi" => Some(1048576.0)
    case "Gi" => Some(1073741824.0)
    case "Ti" => Some(1099511627776.0)
    case "K" => Some(1000.0)
    case "k" => Some(1000.0)
    case "M" => Some(1000000.0)
    case "G" => Some(1000000000.0)
    case "T" => Some(1000000000000.0)
    case "m" => Some(0.001)
    case "u" => Some(0.000001)
    case "n" => Some(0.000000001)
    case _ => None
  }

  lemma UnitFactors(unit: string)
    ensures UnitFactor(unit) == MemoryFactor(unit)
  {
    assert Power(1024.0, 2) == 1048576.0 && Power(1024.0, 3) == 1073741824.0 && Power(1024.0, 4) == 1099511627776.0;
    assert Power(1000.0, 2) == 1000000.0 && Power(1000.0, 3) == 1000000000.0 && Power(1000.0, 4) == 1000000000000.0;
  }

  /** A number without a sign and its unit, with whitespace around them. */
  ghost predicate IsMemory(s: string, x: real, before: string, number: string, unit: string, after: string) {
    && s == before + (number + unit) + after && Blank(before) && Blank(after)
    && (forall c :: c in number ==> IsDigit(c) || c == '.')
    && ParseReal(number).Some? && MemoryFactor(unit).Some? && x == ParseReal(number).value * MemoryFactor(unit).value
  }

  lemma MemoryParts(s: string, x: real, before: string, number: string, unit: string, after: string)
    requires IsMemory(s, x, before, number, unit, after)
    ensures s == before + (number + unit) + after && Blank(before) && Blank(after)
    ensures forall c :: c in number ==> IsDigit(c) || c == '.'
    ensures ParseReal(number).Some? && MemoryFactor(unit).Some?
    ensures Scale(ParseReal(number), MemoryFactor(unit).value) == Some(x)
  {
    hide ParseReal, MemoryFactor;
    ScaleSome(ParseReal(number), MemoryFactor(unit).value, x);
  }

  lemma UnitEnds(unit: string)
    requires MemoryFactor(unit).Some?
    ensures unit != "" ==> !IsDigit(unit[0]) && unit[0] != '.' && !IsWhitespace(unit[|unit| - 1])
  {
  }

  lemma MemoryIsTrimmed(number: string, unit: string)
    requires ParseReal(number).Some? && MemoryFactor(unit).Some?
    ensures number + unit != "" && Trimmed(number + unit)
  {
    NumberEnds(number);
    UnitEnds(unit);
    hide ParseReal, MemoryFactor, IsWhitespace;
    var t := number + unit;
    assert t[0] == number[0] && t[|t| - 1] == if unit == "" then number[|number| - 1] else unit[|unit| - 1];
  }

  lemma MemoryOfTrimmed(s: string, number: string, unit: string)
    requires Trim(s) == number + unit && forall c :: c in number ==> IsDigit(c) || c == '.'
    requires number != "" && ParseReal(number).Some? && MemoryFactor(unit).Some?
    ensures ParseMemoryBytes(s) == Scale(ParseReal(number), MemoryFactor(unit).value)
  {
    hide Scale;
    var t := Trim(s);
    UnitEnds(unit);
    UnitFactors(unit);
    UnitStartOf(number, unit);
    hide ParseReal, Trim, MemoryFactor, UnitFactor, UnitStart, IsDigit;
    assert t[..|number|] == number && t[|number|..] == unit;
  }

  lemma ScaleSome(read: Option<real>, factor: real, x: real)
    requires read.Some? && x == read.value * factor
    ensures Scale(read, factor) == Some(x)
  {
  }

  lemma MemoryReads(s: string, x: real, before: string, number: string, unit: string, after: string)
    requires IsMemory(s, x, before, number, unit, after)
    ensures ParseMemoryBytes(s) == Some(x)
  {
    MemoryParts(s, x, before, number, unit, after);
    hide *;
    MemoryIsTrimmed(number, unit);
    TrimPadded(before, number + unit, after);
    NumberEnds(number);
    MemoryOfTrimmed(s, number, unit);
  }

  lemma {:induction false} NumberBeforeUnit(s: string)
    ensures forall i :: 0 <= i < UnitStart(s) ==> IsDigit(s[i]) || s[i] == '.'
  {
    if s == "" || !(IsDigit(s[0]) || s[0] == '.') {
    } else {
      NumberBeforeUnit(s[1..]);
      assert forall i :: 0 < i < |s| ==> s[i] == s[1..][i - 1];
    }
  }

  lemma MemoryByUnit(s: string) returns (number: string, unit: string)
    requires ParseMemoryBytes(s).Some?
    ensures Trim(s) == number + unit && (forall c :: c in number ==> IsDigit(c) || c == '.')
    ensures ParseReal(number).Some? && MemoryFactor(unit).Some?
    ensures ParseMemoryBytes(s).value == ParseReal(number).value * MemoryFactor(unit).value
  {
    var t := Trim(s);
    NumberBeforeUnit(t);
    hide ParseReal, Trim, UnitStart, UnitFactor, MemoryFactor, IsDigit;
    number, unit := t[..UnitStart(t)], t[UnitStart(t)..];
    UnitFactors(unit);
    assert t == number + unit;
  }

  /** A text reads as an amount of memory exactly if it is a number with a unit, and as that amount. */
  lemma MemoryReadsExactly(s: string, x: real)
    ensures ParseMemoryBytes(s) == Some(x) <==>
      exists before, number, unit, after :: IsMemory(s, x, before, number, unit, after)
  {
    if before, number, unit, after :| IsMemory(s, x, before, number, unit, after) {
      MemoryReads(s, x, before, number, unit, after);
    }
    if ParseMemoryBytes(s) == Some(x) {
      var before, after := TrimSplits(s);
      var number, unit := MemoryByUnit(s);
      hide ParseReal, Trim, ParseMemoryBytes, MemoryFactor, IsDigit;
      assert IsMemory(s, x, before, number, unit, after);
    }
  }

  // ── What an amount of CPU is shown as ────────────────────────────────────

  lemma WholeCores(cores: real)
    requires cores >= 1.0
    ensures cores.Floor as real == cores ==> Whole(cores)
    ensures Whole(cores) ==> var text := FormatCores(cores); text != "" && AllDigits(text)
  {
    hide Fixed2, TrimEndMatches, PrintNat;
    assert ToI64(cores.Floor) >= 0;
  }

  lemma FractionOfCores(cores: real)
    requires cores >= 1.0 && !Whole(cores)
    ensures var text := FormatCores(cores);
      text != "" && IsDigit(text[|text| - 1]) && ('.' in text ==> text[|text| - 1] != '0')
  {
    var h: nat := RoundHalfEven(cores * 100.0);
    Fixed2Shape(cores, h);
    var w, d1: nat, d2: nat := PrintNat(h / 100), h / 10 % 10, h % 10;
    assert w[|w| - 1] in w && '.' !in w;
    hide PrintNat, Fixed2, RoundHalfEven, TrimEndMatches;
    TrimZeros(w, d1, d2);
  }

  /** A whole number of cores has no point, and a fraction no zero at its end. */
  lemma CoresText(cores: real)
    requires cores >= 1.0
    ensures var text := FormatCores(cores);
      && text != "" && IsDigit(text[|text| - 1])
      && (cores.Floor as real == cores ==> '.' !in text) && ('.' in text ==> text[|text| - 1] != '0')
  {
    WholeCores(cores);
    if Whole(cores) {
      var text := FormatCores(cores);
      hide FormatCores, Whole;
      assert text[|text| - 1] in text;
    } else {
      FractionOfCores(cores);
    }
  }

  /** Less than a core is shown in millicores, from one core on in cores. */
  lemma MillicoresUnit(value: real)
    ensures var text := FormatMillicores(value);
      text != "" && if value < 1000.0 then text[|text| - 1] == 'm' else IsDigit(text[|text| - 1])
    ensures value >= 1000.0 ==> FormatMillicores(value) == FormatCores(value / 1000.0)
  {
    hide FormatCores, PrintInt, ToI64, RoundHalfAway;
    if value >= 1000.0 {
      CoresText(value / 1000.0);
    }
  }
}

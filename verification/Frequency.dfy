/**
 * Frequencies as text: the printer of the command line and the parser of its
 * arguments, with suffixes, surrounding space and decimal fractions.
 */
module Frequency {
  import opened Prelude
  import opened Text

  // ---- digits and numerals -----------------------------------------------------

  predicate IsDigit(c: char) {
    '0' <= c <= '9'
  }

  function DigitValue(c: char): nat
    requires IsDigit(c)
  {
    c as int - '0' as int
  }

  function DigitChar(d: nat): (c: char)
    requires d < 10
    ensures IsDigit(c) && DigitValue(c) == d
  {
    "0123456789"[d]
  }

  predicate AllDigits(s: string) {
    forall i :: 0 <= i < |s| ==> IsDigit(s[i])
  }

  function Pow10(n: nat): (r: nat)
    ensures r >= 1
  {
    if n == 0 then 1 else 10 * Pow10(n - 1)
  }

  /** The number a digit string denotes. */
  function Numeral(s: string): nat
    requires AllDigits(s)
  {
    if s == "" then 0 else Numeral(s[..|s| - 1]) * 10 + DigitValue(s[|s| - 1])
  }

  /** `str(n)`. */
  function Decimal(n: nat): (s: string)
    ensures |s| > 0 && AllDigits(s)
  {
    if n < 10 then [DigitChar(n)] else Decimal(n / 10) + [DigitChar(n % 10)]
  }

  /** `f"{n:0{width}d}"` for an `n` of at most `width` digits. */
  function ZeroPadded(n: nat, width: nat): (s: string)
    ensures |s| == width && AllDigits(s)
  {
    if width == 0 then "" else ZeroPadded(n / 10, width - 1) + [DigitChar(n % 10)]
  }

  /** `s.rstrip("0")`. */
  function StripZeros(s: string): string {
    if s != "" && s[|s| - 1] == '0' then StripZeros(s[..|s| - 1]) else s
  }

  // ---- the printer ------------------------------------------------------------------

  /** One of the printer's branches: whole units, and `width` digits of fraction unless it is zero. */
  function InUnits(whole: nat, frac: nat, width: nat, unit: string): string {
    if frac == 0 then Decimal(whole) + unit
    else StripZeros(Decimal(whole) + "." + ZeroPadded(frac, width)) + unit
  }

  function FormatHz(hz: int): string {
    if hz >= 1_000_000_000 then InUnits(hz / 1_000_000_000, hz % 1_000_000_000, 9, " GHz")
    else if hz >= 1_000_000 then InUnits(hz / 1_000_000, hz % 1_000_000, 6, " MHz")
    else if hz >= 1_000 then InUnits(hz / 1_000, hz % 1_000, 3, " kHz")
    else if hz >= 0 then Decimal(hz) + " Hz"
    else "-" + Decimal(-hz) + " Hz"
  }

  // ---- the parser -----------------------------------------------------------------------

  predicate InNumber(c: char) {
    IsDigit(c) || c == '.'
  }

  /** The length of the longest prefix matched by `[\d.]+`, greedily. */
  function NumberLength(s: string): (n: nat)
    ensures n <= |s| && (forall i :: 0 <= i < n ==> InNumber(s[i])) && (n < |s| ==> !InNumber(s[n]))
  {
    if s == "" || !InNumber(s[0]) then 0 else 1 + NumberLength(s[1..])
  }

  /** The first dot, or the length if there is none. */
  function DotIndex(s: string): (n: nat)
    ensures n <= |s| && (forall i :: 0 <= i < n ==> s[i] != '.') && (n < |s| ==> s[n] == '.')
  {
    if s == "" || s[0] == '.' then 0 else 1 + DotIndex(s[1..])
  }

  lemma PartsAreDigits(s: string)
    requires forall i :: 0 <= i < |s| ==> InNumber(s[i])
    ensures var dot := DotIndex(s);
      var whole, frac := s[..dot], if dot < |s| then s[dot + 1..] else "";
      DotIndex(frac) == |frac| ==> AllDigits(whole + frac)
  {
    var dot := DotIndex(s);
    var whole, frac := s[..dot], if dot < |s| then s[dot + 1..] else "";
    DigitsUnlessDot(whole);
    if DotIndex(frac) == |frac| {
      DigitsUnlessDot(frac);
    }
  }

  lemma DigitsUnlessDot(s: string)
    requires forall i :: 0 <= i < |s| ==> InNumber(s[i]) && s[i] != '.'
    ensures AllDigits(s)
  {
  }

  /** `float(s)` for a string of digits and dots, exactly; None for ValueError. */
  function Float(s: string): Option<real>
    requires forall i :: 0 <= i < |s| ==> InNumber(s[i])
  {
    var dot := DotIndex(s);
    var whole, frac := s[..dot], if dot < |s| then s[dot + 1..] else "";
    if DotIndex(frac) < |frac| || whole + frac == "" then None
    else
      PartsAreDigits(s);
      Some(Quotient(Numeral(whole + frac), Pow10(|frac|)))
  }

  /** Exact quotient and product; floating point is the subject of `FloatRoundTrip`. */
  function Quotient(n: nat, d: nat): real
    requires d > 0
  {
    n as real / d as real
  }

  function Product(value: real, multiplier: nat): real {
    value * multiplier as real
  }

  /** Python's `round`: to the nearest integer, ties to even. */
  function Round(x: real): int {
    var f := x.Floor;
    var d := x - f as real;
    if d < 0.5 || (d == 0.5 && f % 2 == 0) then f else f + 1
  }

  const FREQUENCY_SUFFIXES: map<string, nat> := map[
    "ghz" := 1_000_000_000, "mhz" := 1_000_000, "khz" := 1_000, "hz" := 1,
    "g" := 1_000_000_000, "m" := 1_000_000, "k" := 1_000]

  const TIME_SUFFIXES: map<string, nat> := map["s" := 1_000_000, "ms" := 1_000, "us" := 1]

  datatype ParseError = ValueError

  /** Number and multiplier of an argument: number, optional space, optional suffix in any case. */
  function Split(raw: string, suffixes: map<string, nat>): Option<(real, nat)> {
    SplitTrimmed(DropSpaceEnd(DropSpace(raw)), suffixes)
  }

  function SplitTrimmed(s: string, suffixes: map<string, nat>): Option<(real, nat)> {
    var n := NumberLength(s);
    var suffix := Lower(DropSpace(s[n..]));
    if n == 0 || (suffix != "" && suffix !in suffixes) then None
    else
      match Float(s[..n])
      case None => None
      case Some(value) => Some((value, if suffix == "" then 1 else suffixes[suffix]))
  }

  function Parse(raw: string, suffixes: map<string, nat>): Result<int, ParseError> {
    match Split(raw, suffixes)
    case None => Err(ValueError)
    case Some((value, multiplier)) => Ok(Round(Product(value, multiplier)))
  }

  function ParseFrequency(raw: string): Result<int, ParseError> {
    Parse(raw, FREQUENCY_SUFFIXES)
  }

  function ParseTime(raw: string): Result<int, ParseError> {
    Parse(raw, TIME_SUFFIXES)
  }

  // ---- facts about numerals ------------------------------------------------------------------

  lemma {:induction false} NumeralAppend(a: string, b: string)
    requires AllDigits(a) && AllDigits(b)
    ensures AllDigits(a + b) && Numeral(a + b) == Numeral(a) * Pow10(|b|) + Numeral(b)
  {
    if b == "" {
      assert a + b == a;
    } else {
      var init, last := b[..|b| - 1], b[|b| - 1];
      NumeralAppend(a, init);
      assert (a + b)[..|a + b| - 1] == a + init;
      assert Numeral(a + b) == Numeral(a + init) * 10 + DigitValue(last);
      OneMoreZero(Numeral(a), |init|);
    }
  }

  lemma {:induction false} DecimalDenotes(n: nat)
    ensures Numeral(Decimal(n)) == n
  {
    if n < 10 {
      assert Decimal(n)[..0] == "";
    } else {
      DecimalDenotes(n / 10);
      assert Decimal(n)[..|Decimal(n)| - 1] == Decimal(n / 10);
    }
  }

  lemma {:induction false} ZeroPaddedDenotes(n: nat, width: nat)
    requires n < Pow10(width)
    ensures Numeral(ZeroPadded(n, width)) == n
  {
    if width > 0 {
      ZeroPaddedDenotes(n / 10, width - 1);
      assert ZeroPadded(n, width)[..width - 1] == ZeroPadded(n / 10, width - 1);
    }
  }

  lemma OneMoreZero(k: nat, n: nat)
    ensures k * Pow10(n) * 10 == k * Pow10(n + 1)
  {
  }

  /** Stripping zeros from a non-zero fraction leaves digits that denote the same fraction. */
  lemma {:induction false} StripFraction(head: string, frac: string) returns (kept: string)
    requires AllDigits(frac) && Numeral(frac) > 0
    ensures kept != "" && AllDigits(kept) && |kept| <= |frac| && StripZeros(head + frac) == head + kept
    ensures kept[|kept| - 1] != '0'
    ensures Numeral(frac) == Numeral(kept) * Pow10(|frac| - |kept|)
  {
    var init, last := frac[..|frac| - 1], frac[|frac| - 1];
    if last == '0' {
      assert (head + frac)[..|head + frac| - 1] == head + init;
      kept := StripFraction(head, init);
      OneMoreZero(Numeral(kept), |init| - |kept|);
    } else {
      kept := frac;
    }
  }

  // ---- facts about the parser's parts -----------------------------------------------------------

  lemma {:induction false} NumberLengthOf(number: string, rest: string)
    requires forall i :: 0 <= i < |number| ==> InNumber(number[i])
    requires rest == "" || !InNumber(rest[0])
    ensures NumberLength(number + rest) == |number|
  {
    if number == "" {
      assert number + rest == rest;
    } else {
      assert (number + rest)[1..] == number[1..] + rest;
      NumberLengthOf(number[1..], rest);
    }
  }

  lemma {:induction false} DotIndexOf(whole: string, rest: string)
    requires AllDigits(whole) && (rest == "" || rest[0] == '.')
    ensures DotIndex(whole + rest) == |whole|
  {
    if whole == "" {
      assert whole + rest == rest;
    } else {
      assert (whole + rest)[1..] == whole[1..] + rest;
      DotIndexOf(whole[1..], rest);
    }
  }

  lemma FloatOfWhole(whole: string)
    requires AllDigits(whole) && whole != ""
    ensures Float(whole) == Some(Numeral(whole) as real)
  {
    DotIndexOf(whole, "");
    assert whole + "" == whole && whole[..|whole|] == whole;
  }

  lemma FloatOfFraction(whole: string, frac: string)
    requires AllDigits(whole) && AllDigits(frac) && whole + frac != ""
    ensures (forall i :: 0 <= i < |whole + "." + frac| ==> InNumber((whole + "." + frac)[i]))
    ensures Float(whole + "." + frac) == Some(Quotient(Numeral(whole + frac), Pow10(|frac|)))
  {
    var s := whole + "." + frac;
    assert s == whole + ("." + frac);
    DotIndexOf(whole, "." + frac);
    assert s[..|whole|] == whole && s[|whole| + 1..] == frac;
    DotIndexOf(frac, "");
    assert frac + "" == frac;
  }

  /** What `float` accepts among digits and dots: at least one digit and at most one dot. */
  lemma FloatAccepts(s: string)
    requires forall i :: 0 <= i < |s| ==> InNumber(s[i])
    ensures Float(s).Some? <==>
      exists whole: string, frac: string :: IsDecimal(s, whole, frac)
  {
    if Float(s).Some? {
      FloatHasParts(s);
    }
    forall whole: string, frac: string | IsDecimal(s, whole, frac) ensures Float(s).Some? {
      if s == whole + "." + frac {
        FloatOfFraction(whole, frac);
      } else {
        FloatOfWhole(whole);
      }
    }
  }

  lemma FloatHasParts(s: string)
    requires (forall i :: 0 <= i < |s| ==> InNumber(s[i])) && Float(s).Some?
    ensures exists whole: string, frac: string :: IsDecimal(s, whole, frac)
  {
    var dot := DotIndex(s);
    var whole, frac := s[..dot], if dot < |s| then s[dot + 1..] else "";
    PartsAreDigits(s);
    assert s == if dot < |s| then whole + "." + frac else whole;
    assert IsDecimal(s, whole, frac);
  }

  predicate IsDecimal(s: string, whole: string, frac: string) {
    && AllDigits(whole) && AllDigits(frac) && whole + frac != ""
    && (s == whole + "." + frac || (frac == "" && s == whole))
  }

  /** Number, space, suffix: the pieces the regular expression finds. */
  lemma SplitPieces(number: string, gap: string, suffix: string, suffixes: map<string, nat>)
    requires number != "" && forall i :: 0 <= i < |number| ==> InNumber(number[i])
    requires forall i :: 0 <= i < |gap| ==> IsSpace(gap[i])
    requires suffix != "" && !InNumber(suffix[0]) && !IsSpace(suffix[0]) && !IsSpace(suffix[|suffix| - 1])
    requires Lower(suffix) in suffixes
    ensures var s := number + gap + suffix;
      DropSpaceEnd(DropSpace(s)) == s && SplitTrimmed(s, suffixes) ==
      match Float(number)
      case None => None
      case Some(v) => Some((v, suffixes[Lower(suffix)]))
  {
    var s := number + gap + suffix;
    assert s[0] == number[0] && s[|s| - 1] == suffix[|suffix| - 1];
    assert s == number + (gap + suffix);
    NumberLengthOf(number, gap + suffix);
    assert s[..|number|] == number && s[|number|..] == gap + suffix;
    DropGap(gap, suffix);
    assert Lower(suffix) != "" by {
      assert |Lower(suffix)| == |suffix|;
    }
  }

  lemma {:induction false} DropGap(gap: string, rest: string)
    requires forall i :: 0 <= i < |gap| ==> IsSpace(gap[i])
    requires rest != "" && !IsSpace(rest[0])
    ensures DropSpace(gap + rest) == rest
  {
    if gap == "" {
      assert gap + rest == rest;
    } else {
      assert (gap + rest)[1..] == gap[1..] + rest;
      DropGap(gap[1..], rest);
    }
  }

  /** `round`: the nearest integer, and of two equally near the even one. */
  lemma RoundIs(x: real, n: int)
    ensures n == Round(x) <==>
      -0.5 < x - n as real < 0.5 || ((x - n as real == 0.5 || x - n as real == -0.5) && n % 2 == 0)
  {
    assert x.Floor as real <= x < x.Floor as real + 1.0;
    if -0.5 <= x - n as real <= 0.5 {
      assert x.Floor == n || x.Floor == n - 1;
    }
  }

  // ---- printer and parser undo each other -----------------------------------------------------------

  predicate IsUnit(unit: string, width: nat) {
    (unit == " GHz" && width == 9) || (unit == " MHz" && width == 6) || (unit == " kHz" && width == 3) || (unit == " Hz" && width == 0)
  }

  lemma UnitSuffix(unit: string, width: nat)
    requires IsUnit(unit, width)
    ensures unit == " " + unit[1..] && unit[1..] != "" && !InNumber(unit[1]) && !IsSpace(unit[1]) && !IsSpace(unit[|unit| - 1])
    ensures Lower(unit[1..]) in FREQUENCY_SUFFIXES && FREQUENCY_SUFFIXES[Lower(unit[1..])] == Pow10(width)
  {
    PowersOfTen();
    assert Lower("GHz") == "ghz" && Lower("MHz") == "mhz" && Lower("kHz") == "khz" && Lower("Hz") == "hz";
  }

  lemma PowersOfTen()
    ensures Pow10(0) == 1 && Pow10(3) == 1_000 && Pow10(6) == 1_000_000 && Pow10(9) == 1_000_000_000
  {
    assert Pow10(3) == 1000;
    assert Pow10(6) == 1000 * Pow10(3) by { assert Pow10(6) == 10 * Pow10(5) && Pow10(5) == 10 * Pow10(4); }
    assert Pow10(9) == 1000 * Pow10(6) by { assert Pow10(9) == 10 * Pow10(8) && Pow10(8) == 10 * Pow10(7); }
  }

  lemma {:induction false} Pow10Sum(a: nat, b: nat)
    ensures Pow10(a + b) == Pow10(a) * Pow10(b)
  {
    if a > 0 {
      Pow10Sum(a - 1, b);
      assert 10 * (Pow10(a - 1) * Pow10(b)) == (10 * Pow10(a - 1)) * Pow10(b);
    }
  }

  lemma ProductOfNats(a: nat, b: nat, total: nat)
    requires total == a * b
    ensures Product(a as real, b) == total as real
  {
  }

  /** A quotient times the divisor it came from, and then some. */
  lemma ScaleBack(v: nat, d: nat, e: nat, f: nat, total: nat)
    requires d > 0 && f == d * e && total == v * e
    ensures Product(Quotient(v, d), f) == total as real
  {
  }

  lemma NonNegativeQuotient(v: nat, d: nat)
    requires d > 0
    ensures Quotient(v, d) >= 0.0
  {
  }

  lemma FractionValue(n: nat, w: nat, kept: nat, a: nat, b: nat, total: nat)
    requires n == w * Pow10(a) + kept && total == w * Pow10(a + b) + kept * Pow10(b)
    ensures Product(Quotient(n, Pow10(a)), Pow10(a + b)) == total as real
  {
    Pow10Sum(a, b);
    ScaleBack(n, Pow10(a), Pow10(b), Pow10(a + b), total);
  }

  /** The value read from `whole.kept`, scaled to the unit, is the number the printer was given. */
  lemma ReadBack(whole: nat, kept: string, frac: nat, width: nat, total: nat) returns (value: real)
    requires AllDigits(kept) && |kept| <= width && frac == Numeral(kept) * Pow10(width - |kept|)
    requires total == whole * Pow10(width) + frac
    ensures Float(Decimal(whole) + "." + kept) == Some(value)
    ensures Product(value, Pow10(width)) == total as real && value >= 0.0
  {
    DecimalDenotes(whole);
    FloatOfFraction(Decimal(whole), kept);
    NumeralAppend(Decimal(whole), kept);
    var n := Numeral(Decimal(whole) + kept);
    FractionValue(n, whole, Numeral(kept), |kept|, width - |kept|, total);
    NonNegativeQuotient(n, Pow10(|kept|));
    value := Quotient(n, Pow10(|kept|));
  }

  lemma UnitAttached(number: string, unit: string)
    requires unit != "" && unit == " " + unit[1..]
    ensures number + " " + unit[1..] == number + unit
  {
  }

  lemma WholeUnits(whole: nat, width: nat, unit: string, total: nat)
    requires IsUnit(unit, width) && total == whole * Pow10(width)
    ensures Split(Decimal(whole) + unit, FREQUENCY_SUFFIXES) == Some((whole as real, Pow10(width)))
    ensures Product(whole as real, Pow10(width)) == total as real
  {
    UnitSuffix(unit, width);
    DecimalDenotes(whole);
    FloatOfWhole(Decimal(whole));
    SplitPieces(Decimal(whole), " ", unit[1..], FREQUENCY_SUFFIXES);
    UnitAttached(Decimal(whole), unit);
    ProductOfNats(whole, Pow10(width), total);
  }

  lemma FractionUnits(whole: nat, kept: string, width: nat, unit: string, value: real)
    requires IsUnit(unit, width) && AllDigits(kept) && Float(Decimal(whole) + "." + kept) == Some(value)
    ensures Split(Decimal(whole) + "." + kept + unit, FREQUENCY_SUFFIXES) == Some((value, Pow10(width)))
  {
    UnitSuffix(unit, width);
    var number := Decimal(whole) + "." + kept;
    FloatOfFraction(Decimal(whole), kept);
    SplitPieces(number, " ", unit[1..], FREQUENCY_SUFFIXES);
    UnitAttached(number, unit);
  }

  /** The parser recovers from each of the printer's forms a value and a multiplier whose product is exact. */
  lemma UnitsRoundTrip(whole: nat, frac: nat, width: nat, unit: string, total: nat) returns (value: real)
    requires IsUnit(unit, width) && frac < Pow10(width) && total == whole * Pow10(width) + frac
    ensures Split(InUnits(whole, frac, width, unit), FREQUENCY_SUFFIXES) == Some((value, Pow10(width)))
    ensures Product(value, Pow10(width)) == total as real && value >= 0.0
  {
    if frac == 0 {
      value := whole as real;
      WholeUnits(whole, width, unit, total);
    } else {
      ZeroPaddedDenotes(frac, width);
      var kept := StripFraction(Decimal(whole) + ".", ZeroPadded(frac, width));
      value := ReadBack(whole, kept, frac, width, total);
      FractionUnits(whole, kept, width, unit, value);
    }
  }

  /** What the parser multiplies: for every frequency the exact product is the frequency itself. */
  lemma FormattedFactors(hz: nat) returns (value: real, multiplier: nat)
    ensures Split(FormatHz(hz), FREQUENCY_SUFFIXES) == Some((value, multiplier))
    ensures Product(value, multiplier) == hz as real && value >= 0.0
  {
    PowersOfTen();
    if hz >= 1_000_000_000 {
      value := UnitsRoundTrip(hz / 1_000_000_000, hz % 1_000_000_000, 9, " GHz", hz);
      multiplier := Pow10(9);
    } else if hz >= 1_000_000 {
      value := UnitsRoundTrip(hz / 1_000_000, hz % 1_000_000, 6, " MHz", hz);
      multiplier := Pow10(6);
    } else if hz >= 1_000 {
      value := UnitsRoundTrip(hz / 1_000, hz % 1_000, 3, " kHz", hz);
      multiplier := Pow10(3);
    } else {
      value := UnitsRoundTrip(hz, 0, 0, " Hz", hz);
      multiplier := Pow10(0);
    }
  }

  /** The form of a printed frequency: whole units, a fraction without trailing zeros, and a unit that fits. */
  predicate PrintedAs(text: string, hz: nat, whole: nat, kept: string, width: nat, unit: string) {
    && IsUnit(unit, width) && AllDigits(kept) && |kept| <= width
    && text == Decimal(whole) + (if kept == "" then "" else "." + kept) + unit
    && (kept != "" ==> kept[|kept| - 1] != '0')
    && hz == whole * Pow10(width) + Numeral(kept) * Pow10(width - |kept|)
    && (width > 0 ==> whole >= 1) && (width < 9 ==> whole < 1000)
  }

  lemma UnitsPrinted(whole: nat, frac: nat, width: nat, unit: string, hz: nat) returns (kept: string)
    requires IsUnit(unit, width) && frac < Pow10(width) && hz == whole * Pow10(width) + frac
    requires (width > 0 ==> whole >= 1) && (width < 9 ==> whole < 1000)
    ensures PrintedAs(InUnits(whole, frac, width, unit), hz, whole, kept, width, unit)
  {
    kept := "";
    if frac == 0 {
      assert Decimal(whole) + "" + unit == Decimal(whole) + unit;
    } else {
      kept := FractionPrinted(whole, frac, width);
    }
  }

  lemma FractionPrinted(whole: nat, frac: nat, width: nat) returns (kept: string)
    requires 0 < frac < Pow10(width)
    ensures kept != "" && AllDigits(kept) && |kept| <= width && kept[|kept| - 1] != '0'
    ensures StripZeros(Decimal(whole) + "." + ZeroPadded(frac, width)) == Decimal(whole) + ("." + kept)
    ensures frac == Numeral(kept) * Pow10(width - |kept|)
  {
    ZeroPaddedDenotes(frac, width);
    kept := StripFraction(Decimal(whole) + ".", ZeroPadded(frac, width));
    assert Decimal(whole) + "." + kept == Decimal(whole) + ("." + kept);
  }

  /** Every frequency is printed in the largest unit of which it holds at least one, without superfluous zeros. */
  lemma PrintedForm(hz: nat) returns (whole: nat, kept: string, width: nat, unit: string)
    ensures PrintedAs(FormatHz(hz), hz, whole, kept, width, unit)
  {
    PowersOfTen();
    if hz >= 1_000_000_000 {
      whole, width, unit := hz / 1_000_000_000, 9, " GHz";
      kept := UnitsPrinted(whole, hz % 1_000_000_000, 9, unit, hz);
    } else if hz >= 1_000_000 {
      whole, width, unit := hz / 1_000_000, 6, " MHz";
      kept := UnitsPrinted(whole, hz % 1_000_000, 6, unit, hz);
    } else if hz >= 1_000 {
      whole, width, unit := hz / 1_000, 3, " kHz";
      kept := UnitsPrinted(whole, hz % 1_000, 3, unit, hz);
    } else {
      whole, width, unit := hz, 0, " Hz";
      kept := UnitsPrinted(whole, 0, 0, unit, hz);
    }
  }

  // ---- what the parser accepts ---------------------------------------------------------------------

  predicate AllSpace(s: string) {
    forall i :: 0 <= i < |s| ==> IsSpace(s[i])
  }

  /** The text in pieces: white space, a number, white space, a suffix or none, white space. */
  datatype Pieces = Pieces(lead: string, number: string, gap: string, suffix: string, trail: string)

  predicate Composes(raw: string, p: Pieces, suffixes: map<string, nat>) {
    && raw == p.lead + (p.number + p.gap + p.suffix) + p.trail
    && AllSpace(p.lead) && AllSpace(p.gap) && AllSpace(p.trail)
    && (forall i :: 0 <= i < |p.number| ==> InNumber(p.number[i])) && Float(p.number).Some?
    && if p.suffix == "" then p.gap == "" else Lower(p.suffix) in suffixes
  }

  function Meaning(p: Pieces, suffixes: map<string, nat>): (real, nat)
    requires (forall i :: 0 <= i < |p.number| ==> InNumber(p.number[i])) && Float(p.number).Some?
    requires p.suffix != "" ==> Lower(p.suffix) in suffixes
  {
    (Float(p.number).value, if p.suffix == "" then 1 else suffixes[Lower(p.suffix)])
  }

  lemma {:induction false} DropTrail(body: string, trail: string)
    requires AllSpace(trail) && body != "" && !IsSpace(body[|body| - 1])
    ensures DropSpaceEnd(body + trail) == body
  {
    if trail == "" {
      assert body + trail == body;
    } else {
      assert (body + trail)[..|body + trail| - 1] == body + trail[..|trail| - 1];
      DropTrail(body, trail[..|trail| - 1]);
    }
  }

  lemma StripsTo(lead: string, body: string, trail: string)
    requires AllSpace(lead) && AllSpace(trail) && body != "" && !IsSpace(body[0]) && !IsSpace(body[|body| - 1])
    ensures DropSpaceEnd(DropSpace(lead + body + trail)) == body
  {
    assert lead + body + trail == lead + (body + trail);
    DropGap(lead, body + trail);
    DropTrail(body, trail);
  }

  lemma {:induction false} SpaceDropped(s: string) returns (lead: string)
    ensures AllSpace(lead) && s == lead + DropSpace(s) && (DropSpace(s) != "" ==> !IsSpace(DropSpace(s)[0]))
  {
    lead := "";
    if s != "" && IsSpace(s[0]) {
      var rest := SpaceDropped(s[1..]);
      lead := [s[0]] + rest;
    }
  }

  lemma {:induction false} SpaceDroppedAtEnd(s: string) returns (trail: string)
    ensures AllSpace(trail) && s == DropSpaceEnd(s) + trail
    ensures var t := DropSpaceEnd(s); t != "" ==> !IsSpace(t[|t| - 1])
  {
    trail := "";
    if s != "" && IsSpace(s[|s| - 1]) {
      var rest := SpaceDroppedAtEnd(s[..|s| - 1]);
      trail := rest + [s[|s| - 1]];
    }
  }

  lemma PiecesParse(raw: string, p: Pieces, suffixes: map<string, nat>)
    requires suffixes == FREQUENCY_SUFFIXES || suffixes == TIME_SUFFIXES
    requires Composes(raw, p, suffixes)
    ensures Split(raw, suffixes) == Some(Meaning(p, suffixes))
  {
    var body := p.number + p.gap + p.suffix;
    BodyParse(p, body, suffixes);
    StripsTo(p.lead, body, p.trail);
  }

  lemma BodyParse(p: Pieces, body: string, suffixes: map<string, nat>)
    requires suffixes == FREQUENCY_SUFFIXES || suffixes == TIME_SUFFIXES
    requires body == p.number + p.gap + p.suffix && AllSpace(p.gap)
    requires (forall i :: 0 <= i < |p.number| ==> InNumber(p.number[i])) && Float(p.number).Some?
    requires if p.suffix == "" then p.gap == "" else Lower(p.suffix) in suffixes
    ensures body != "" && !IsSpace(body[0]) && !IsSpace(body[|body| - 1])
    ensures SplitTrimmed(body, suffixes) == Some(Meaning(p, suffixes))
  {
    if p.suffix == "" {
      assert body == p.number;
      BareNumber(p.number, suffixes);
    } else {
      SuffixedNumber(p.number, p.gap, p.suffix, suffixes);
    }
  }

  lemma SuffixedNumber(number: string, gap: string, suffix: string, suffixes: map<string, nat>)
    requires suffixes == FREQUENCY_SUFFIXES || suffixes == TIME_SUFFIXES
    requires (forall i :: 0 <= i < |number| ==> InNumber(number[i])) && Float(number).Some?
    requires AllSpace(gap) && Lower(suffix) in suffixes
    ensures var body := number + gap + suffix;
      && body != "" && !IsSpace(body[0]) && !IsSpace(body[|body| - 1])
      && SplitTrimmed(body, suffixes) == Some((Float(number).value, suffixes[Lower(suffix)]))
  {
    BareNumber(number, suffixes);
    SuffixIsWord(suffix, suffixes);
    SplitPieces(number, gap, suffix, suffixes);
  }

  lemma BareNumber(number: string, suffixes: map<string, nat>)
    requires (forall i :: 0 <= i < |number| ==> InNumber(number[i])) && Float(number).Some?
    ensures number != "" && !IsSpace(number[0]) && !IsSpace(number[|number| - 1])
    ensures SplitTrimmed(number, suffixes) == Some((Float(number).value, 1))
  {
    NumberLengthOf(number, "");
    assert number + "" == number && number[..|number|] == number;
  }

  lemma ParsedPieces(raw: string, suffixes: map<string, nat>) returns (p: Pieces)
    requires Split(raw, suffixes).Some?
    ensures Composes(raw, p, suffixes)
  {
    var lead, trail := SpaceAround(raw);
    var number, gap, suffix := TrimmedPieces(DropSpaceEnd(DropSpace(raw)), suffixes);
    p := Pieces(lead, number, gap, suffix, trail);
  }

  lemma SpaceAround(raw: string) returns (lead: string, trail: string)
    ensures AllSpace(lead) && AllSpace(trail) && raw == lead + DropSpaceEnd(DropSpace(raw)) + trail
    ensures var s := DropSpaceEnd(DropSpace(raw)); s != "" ==> !IsSpace(s[|s| - 1])
  {
    lead := SpaceDropped(raw);
    trail := SpaceDroppedAtEnd(DropSpace(raw));
    assert lead + (DropSpaceEnd(DropSpace(raw)) + trail) == lead + DropSpaceEnd(DropSpace(raw)) + trail;
  }

  lemma TrimmedPieces(s: string, suffixes: map<string, nat>) returns (number: string, gap: string, suffix: string)
    requires SplitTrimmed(s, suffixes).Some? && (s != "" ==> !IsSpace(s[|s| - 1]))
    ensures s == number + gap + suffix && AllSpace(gap)
    ensures (forall i :: 0 <= i < |number| ==> InNumber(number[i])) && Float(number).Some?
    ensures if suffix == "" then gap == "" else Lower(suffix) in suffixes
  {
    var n := NumberLength(s);
    number, suffix := s[..n], DropSpace(s[n..]);
    gap := GapBefore(number, s[n..]);
    assert s == number + s[n..];
    assert |Lower(suffix)| == |suffix|;
  }

  lemma GapBefore(number: string, rest: string) returns (gap: string)
    requires rest != "" ==> !IsSpace(rest[|rest| - 1])
    ensures number + rest == number + gap + DropSpace(rest) && AllSpace(gap)
    ensures DropSpace(rest) == "" ==> gap == ""
  {
    gap := SpaceDropped(rest);
    assert number + rest == number + (gap + DropSpace(rest));
    if rest != "" {
      WordRemains(rest);
    }
  }

  lemma {:induction false} WordRemains(s: string)
    requires s != "" && !IsSpace(s[|s| - 1])
    ensures DropSpace(s) != ""
  {
    if IsSpace(s[0]) {
      WordRemains(s[1..]);
    }
  }

  /**
   * What the parser accepts, without reference to how it proceeds: exactly
   * the texts made of a number and an optional suffix of the table, in any
   * case, with white space around and between; and what it makes of them.
   */
  lemma ParseAccepts(raw: string, suffixes: map<string, nat>)
    requires suffixes == FREQUENCY_SUFFIXES || suffixes == TIME_SUFFIXES
    ensures Parse(raw, suffixes).Ok? <==> exists p :: Composes(raw, p, suffixes)
    ensures forall p :: Composes(raw, p, suffixes) ==>
      var (value, multiplier) := Meaning(p, suffixes); Parse(raw, suffixes) == Ok(Round(Product(value, multiplier)))
  {
    if Split(raw, suffixes).Some? {
      var p := ParsedPieces(raw, suffixes);
    }
    forall p | Composes(raw, p, suffixes)
      ensures Split(raw, suffixes) == Some(Meaning(p, suffixes))
    {
      PiecesParse(raw, p, suffixes);
    }
  }

  lemma NegativeRejected(hz: int)
    requires hz < 0
    ensures FormatHz(hz) == "-" + Decimal(-hz) + " Hz"
    ensures ParseFrequency(FormatHz(hz)) == Err(ValueError)
  {
    var s := FormatHz(hz);
    assert s[0] == '-' && s[|s| - 1] == 'z';
    assert DropSpaceEnd(DropSpace(s)) == s;
    assert NumberLength(s) == 0;
  }

  /** In exact arithmetic the parser undoes the printer on every frequency, and on nothing below zero. */
  lemma FrequencyRoundTrip(hz: int)
    ensures ParseFrequency(FormatHz(hz)) == Ok(hz) <==> hz >= 0
  {
    if hz >= 0 {
      var value, multiplier := FormattedFactors(hz);
    } else {
      NegativeRejected(hz);
    }
  }

  /** `x` approximates `exact` as a correctly rounded double does. */
  predicate Near(x: real, exact: real) {
    var slack := if exact >= 0.0 then exact else -exact;
    -slack <= (x - exact) * TWO53 <= slack
  }

  /**
   * In floating point too: up to 2^50 Hz, if the conversion of the digits and
   * the product are each off by a relative error of at most 2^-53, rounding
   * still gives back the frequency that was printed.
   */
  lemma FloatRoundTrip(hz: nat, value: real, multiplier: nat, parsed: real, product: real)
    requires hz <= 1125899906842624  // 2^50
    requires Split(FormatHz(hz), FREQUENCY_SUFFIXES) == Some((value, multiplier))
    requires Near(parsed, value) && Near(product, Product(parsed, multiplier))
    ensures Round(product) == hz
  {
    var v, m := FormattedFactors(hz);
    TwoSmallErrors(hz as real, value, multiplier, parsed, product);
  }

  const TWO53: real := 9007199254740992.0
  const TWO50: real := 1125899906842624.0

  lemma TwoSmallErrors(h: real, value: real, m: nat, parsed: real, product: real)
    requires value >= 0.0 && Product(value, m) == h <= TWO50
    requires Near(parsed, value) && Near(product, Product(parsed, m))
    ensures -0.5 < product - h < 0.5
  {
    AddErrors(h, Product(parsed, m), product);
  }

  /** Linear from here on: twice an error of 2^-53 on at most 2^50 is less than a half. */
  lemma AddErrors(h: real, p: real, product: real)
    requires 0.0 <= h <= TWO50 && Near(p, h) && Near(product, p)
    ensures -0.5 < product - h < 0.5
  {
    assert 0.0 <= p <= 2.0 * h;
  }

  /** Whole numbers with any suffix of the table, any space between and any letter case: in hertz, and in microseconds. */
  lemma WholeNumberWithSuffix(n: nat, gap: string, suffix: string)
    requires AllSpace(gap)
    ensures Lower(suffix) in FREQUENCY_SUFFIXES ==>
      ParseFrequency(Decimal(n) + gap + suffix) == Ok(n * FREQUENCY_SUFFIXES[Lower(suffix)])
    ensures Lower(suffix) in TIME_SUFFIXES ==>
      ParseTime(Decimal(n) + gap + suffix) == Ok(n * TIME_SUFFIXES[Lower(suffix)])
  {
    if Lower(suffix) in FREQUENCY_SUFFIXES {
      WholeWithSuffix(n, gap, suffix, FREQUENCY_SUFFIXES);
    }
    if Lower(suffix) in TIME_SUFFIXES {
      WholeWithSuffix(n, gap, suffix, TIME_SUFFIXES);
    }
  }

  /**
   * In floating point the same holds up to 2^50, if the conversion of the
   * digits and the product are each off by a relative error of at most 2^-53.
   */
  lemma WholeNumberInFloats(raw: string, suffixes: map<string, nat>, n: nat, m: nat, parsed: real, product: real)
    requires Split(raw, suffixes) == Some((n as real, m)) && n * m <= 1125899906842624  // 2^50
    requires Near(parsed, n as real) && Near(product, Product(parsed, m))
    ensures Parse(raw, suffixes) == Ok(Round(product))
  {
    WholeParse(raw, suffixes, n, m);
    FloatProduct(n, m, n * m, parsed, product);
  }

  lemma FloatProduct(n: nat, m: nat, total: nat, parsed: real, product: real)
    requires total == n * m <= 1125899906842624
    requires Near(parsed, n as real) && Near(product, Product(parsed, m))
    ensures Round(product) == total
  {
    ProductOfNats(n, m, total);
    TwoSmallErrors(total as real, n as real, m, parsed, product);
  }

  lemma WholeSplit(n: nat, gap: string, suffix: string, suffixes: map<string, nat>)
    requires suffixes == FREQUENCY_SUFFIXES || suffixes == TIME_SUFFIXES
    requires AllSpace(gap) && Lower(suffix) in suffixes
    ensures Split(Decimal(n) + gap + suffix, suffixes) == Some((n as real, suffixes[Lower(suffix)]))
  {
    SuffixIsWord(suffix, suffixes);
    DecimalDenotes(n);
    FloatOfWhole(Decimal(n));
    SplitPieces(Decimal(n), gap, suffix, suffixes);
  }

  lemma WholeWithSuffix(n: nat, gap: string, suffix: string, suffixes: map<string, nat>)
    requires suffixes == FREQUENCY_SUFFIXES || suffixes == TIME_SUFFIXES
    requires AllSpace(gap) && Lower(suffix) in suffixes
    ensures Parse(Decimal(n) + gap + suffix, suffixes) == Ok(n * suffixes[Lower(suffix)])
  {
    WholeSplit(n, gap, suffix, suffixes);
    WholeParse(Decimal(n) + gap + suffix, suffixes, n, suffixes[Lower(suffix)]);
  }

  /** What the suffixes stand for, in hertz; the short ones mean the long ones. */
  predicate FrequencySuffix(suffix: string, factor: nat) {
    || (suffix in {"g", "ghz"} && factor == 1_000_000_000)
    || (suffix in {"m", "mhz"} && factor == 1_000_000)
    || (suffix in {"k", "khz"} && factor == 1_000)
    || (suffix == "hz" && factor == 1)
  }

  /** And in microseconds. */
  predicate TimeSuffix(suffix: string, factor: nat) {
    (suffix == "s" && factor == 1_000_000) || (suffix == "ms" && factor == 1_000) || (suffix == "us" && factor == 1)
  }

  lemma SuffixTables(suffix: string, factor: nat)
    ensures FrequencySuffix(suffix, factor) <==> suffix in FREQUENCY_SUFFIXES && FREQUENCY_SUFFIXES[suffix] == factor
    ensures TimeSuffix(suffix, factor) <==> suffix in TIME_SUFFIXES && TIME_SUFFIXES[suffix] == factor
  {
  }

  /** Whole numbers of every unit, short or long, in any letter case; no suffix means hertz and microseconds. */
  lemma SuffixMeaning(n: nat, gap: string, suffix: string, factor: nat)
    requires AllSpace(gap)
    ensures FrequencySuffix(Lower(suffix), factor) ==> ParseFrequency(Decimal(n) + gap + suffix) == Ok(n * factor)
    ensures TimeSuffix(Lower(suffix), factor) ==> ParseTime(Decimal(n) + gap + suffix) == Ok(n * factor)
    ensures ParseFrequency(Decimal(n)) == Ok(n) && ParseTime(Decimal(n)) == Ok(n)
  {
    SuffixTables(Lower(suffix), factor);
    WholeNumberWithSuffix(n, gap, suffix);
    WholeNumberAlone(n, FREQUENCY_SUFFIXES);
    WholeNumberAlone(n, TIME_SUFFIXES);
  }

  lemma WholeNumberAlone(n: nat, suffixes: map<string, nat>)
    requires suffixes == FREQUENCY_SUFFIXES || suffixes == TIME_SUFFIXES
    ensures Parse(Decimal(n), suffixes) == Ok(n)
  {
    DecimalDenotes(n);
    FloatOfWhole(Decimal(n));
    var p := Pieces("", Decimal(n), "", "", "");
    assert Composes(Decimal(n), p, suffixes);
    PiecesParse(Decimal(n), p, suffixes);
    WholeParse(Decimal(n), suffixes, n, 1);
  }

  lemma WholeParse(raw: string, suffixes: map<string, nat>, n: nat, multiplier: nat)
    requires Split(raw, suffixes) == Some((n as real, multiplier))
    ensures Parse(raw, suffixes) == Ok(n * multiplier)
  {
    ProductOfNats(n, multiplier, n * multiplier);
  }

  lemma SuffixIsWord(suffix: string, suffixes: map<string, nat>)
    requires suffixes == FREQUENCY_SUFFIXES || suffixes == TIME_SUFFIXES
    requires Lower(suffix) in suffixes
    ensures suffix != "" && !InNumber(suffix[0]) && !IsSpace(suffix[0]) && !IsSpace(suffix[|suffix| - 1])
  {
    var low := Lower(suffix);
    assert |low| == |suffix|;
    assert low != "";
    assert forall i :: 0 <= i < |low| ==> 'a' <= low[i] <= 'z';
    assert low[0] == LowerChar(suffix[0]) && low[|low| - 1] == LowerChar(suffix[|suffix| - 1]);
  }
}

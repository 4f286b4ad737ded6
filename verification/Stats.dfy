/**
 * Trace statistics over a frequency range, in exact arithmetic: averages by
 * unit, the 99% occupied bandwidth, crest factor and flatness.
 */
module Stats {
  import opened Prelude

  // ---- the mathematical library ----------------------------------------------------

  /** Products as a named function, so that equal factors give equal products. */
  function Times(x: real, y: real): real {
    x * y
  }

  function Divide(x: real, y: real): real
    requires y != 0.0
  {
    x / y
  }

  function Plus(x: real, y: real): real {
    x + y
  }

  datatype Math = Math(exp10: real -> real, log10: real -> real, sqrt: real -> real)

  /** `10 ** x` and `log10` as inverse, increasing and multiplicative; `sqrt` as a square root. */
  ghost predicate Sound(m: Math) {
    && (forall x :: m.exp10(x) > 0.0)
    && (forall x, y :: x < y ==> m.exp10(x) < m.exp10(y))
    && (forall x :: m.log10(m.exp10(x)) == x)
    && (forall y :: y > 0.0 ==> m.exp10(m.log10(y)) == y)
    && (forall x, y :: m.exp10(Plus(x, y)) == Times(m.exp10(x), m.exp10(y)))
    && (forall x :: x >= 0.0 ==> m.sqrt(x) >= 0.0 && Times(m.sqrt(x), m.sqrt(x)) == x)
  }

  lemma TimesPositive(x: real, y: real)
    requires x > 0.0 && y > 0.0
    ensures Times(x, y) > 0.0
  {
  }

  lemma DivideTimes(x: real, y: real)
    requires y > 0.0
    ensures Times(Divide(x, y), y) == x
    ensures x > 0.0 ==> Divide(x, y) > 0.0
  {
  }

  lemma LogQuotient(m: Math, x: real, y: real)
    requires Sound(m) && x > 0.0 && y > 0.0
    ensures Divide(x, y) > 0.0 && m.log10(Divide(x, y)) == m.log10(x) - m.log10(y)
  {
    DivideTimes(x, y);
  }

  lemma LogOfOne(m: Math)
    requires Sound(m)
    ensures m.log10(1.0) == 0.0
  {
    assert Times(1.0, 1.0) == 1.0;
  }

  lemma SqrtPositive(m: Math, x: real)
    requires Sound(m) && x > 0.0
    ensures m.sqrt(x) > 0.0 && m.log10(m.sqrt(x)) * 2.0 == m.log10(x)
  {
    var r := m.sqrt(x);
    assert r >= 0.0 && Times(r, r) == x;
    assert Times(0.0, 0.0) == 0.0;
  }

  /** A square root lies between bounds whose squares bound the radicand. */
  lemma SqrtBetween(m: Math, x: real, lo: real, hi: real)
    requires Sound(m) && 0.0 <= lo && 0.0 <= hi && Times(lo, lo) <= x <= Times(hi, hi) && x >= 0.0
    ensures lo <= m.sqrt(x) <= hi
  {
    var r := m.sqrt(x);
    assert Times(r, r) == x;
    if r < lo {
      SquareMonotone(r, lo);
    }
    if hi < r {
      SquareMonotone(hi, r);
    }
  }

  lemma SquareMonotone(a: real, b: real)
    requires 0.0 <= a < b
    ensures Times(a, a) < Times(b, b)
  {
    assert b * b - a * a == (b - a) * (b + a);
    TimesPositive(b - a, b + a);
  }

  // ---- sums and extremes ---------------------------------------------------------------

  function Sum(s: seq<real>): real {
    if s == [] then 0.0 else Sum(s[..|s| - 1]) + s[|s| - 1]
  }

  function Prefix(s: seq<real>, k: nat): real
    requires k <= |s|
  {
    Sum(s[..k])
  }

  function Mean(s: seq<real>): real
    requires s != []
  {
    Divide(Sum(s), |s| as real)
  }

  predicate Within(s: seq<real>, lo: real, hi: real) {
    forall i :: 0 <= i < |s| ==> lo <= s[i] <= hi
  }

  lemma {:induction false} SumWithin(s: seq<real>, lo: real, hi: real)
    requires Within(s, lo, hi)
    ensures lo * |s| as real <= Sum(s) <= hi * |s| as real
  {
    if s != [] {
      var init := s[..|s| - 1];
      SumWithin(init, lo, hi);
      assert |s| as real == |init| as real + 1.0;
      assert lo * |s| as real == lo * |init| as real + lo && hi * |s| as real == hi * |init| as real + hi;
    }
  }

  lemma MeanWithin(s: seq<real>, lo: real, hi: real)
    requires s != [] && Within(s, lo, hi)
    ensures lo <= Mean(s) <= hi
  {
    SumWithin(s, lo, hi);
  }

  predicate IsMinimum(s: seq<real>, x: real) {
    x in s && forall i :: 0 <= i < |s| ==> x <= s[i]
  }

  predicate IsMaximum(s: seq<real>, x: real) {
    x in s && forall i :: 0 <= i < |s| ==> s[i] <= x
  }

  /** `max(s)`. */
  function MaxOf(s: seq<real>): (x: real)
    requires s != []
    ensures IsMaximum(s, x)
  {
    if |s| == 1 then s[0]
    else
      var x := MaxOf(s[..|s| - 1]);
      assert forall y :: y in s[..|s| - 1] ==> y in s;
      if x < s[|s| - 1] then s[|s| - 1] else x
  }

  // ---- units ---------------------------------------------------------------------------------

  datatype Unit = DBm | DBmV | DBuV | V | Vpp | W | Raw

  predicate IsDb(u: Unit) {
    u.DBm? || u.DBmV? || u.DBuV?
  }

  predicate IsVoltage(u: Unit) {
    u.V? || u.Vpp?
  }

  /** `_linear_power` of one value. */
  function Linear(m: Math, v: real, u: Unit): real {
    if IsDb(u) then m.exp10(v / 10.0) else if IsVoltage(u) then Times(v, v) else v
  }

  function LinearAll(m: Math, s: seq<real>, u: Unit): (p: seq<real>)
    ensures |p| == |s|
  {
    seq(|s|, i requires 0 <= i < |s| => Linear(m, s[i], u))
  }

  /** The squares of the factor-20 linear voltages, as `_average` forms them. */
  function VoltageSquares(m: Math, s: seq<real>): (p: seq<real>)
    ensures |p| == |s|
  {
    seq(|s|, i requires 0 <= i < |s| => Times(m.exp10(s[i] / 20.0), m.exp10(s[i] / 20.0)))
  }

  function Average(m: Math, s: seq<real>, u: Unit): real
    requires s != []
  {
    match u
    case DBm => 10.0 * m.log10(Mean(LinearAll(m, s, u)))
    case DBmV => 20.0 * m.log10(m.sqrt(Mean(VoltageSquares(m, s))))
    case DBuV => 20.0 * m.log10(m.sqrt(Mean(VoltageSquares(m, s))))
    case V => m.sqrt(Mean(LinearAll(m, s, u)))
    case Vpp => m.sqrt(Mean(LinearAll(m, s, u)))
    case _ => Mean(s)
  }

  function ChannelPower(m: Math, s: seq<real>, u: Unit): real {
    if IsDb(u) then 10.0 * m.log10(Sum(LinearAll(m, s, u)))
    else if IsVoltage(u) then m.sqrt(Sum(LinearAll(m, s, u)))
    else Sum(s)
  }

  /** None stands for the ValueError of a non-positive average. */
  function Papr(m: Math, s: seq<real>, u: Unit): Option<real>
    requires s != []
  {
    var p := LinearAll(m, s, u);
    if Mean(p) <= 0.0 then None else Some(10.0 * m.log10(Divide(MaxOf(p), Mean(p))))
  }

  /** None stands for the ValueError of a non-positive minimum, or of the logarithm of zero. */
  function Flatness(m: Math, vmin: real, vmax: real, u: Unit): Option<real> {
    if Linear(m, vmin, u) <= 0.0 || Linear(m, vmax, u) <= 0.0 then None
    else Some(10.0 * m.log10(Divide(Linear(m, vmax, u), Linear(m, vmin, u))))
  }

  // ---- average, crest factor and flatness ---------------------------------------------------------

  /** Values whose linear form is a genuine magnitude: any dB value, and positive otherwise. */
  predicate PositiveLinear(s: seq<real>, u: Unit) {
    IsDb(u) || forall i :: 0 <= i < |s| ==> s[i] > 0.0
  }

  lemma LinearMonotone(m: Math, u: Unit, x: real, y: real)
    requires Sound(m) && x <= y && (IsVoltage(u) ==> x >= 0.0)
    ensures Linear(m, x, u) <= Linear(m, y, u)
    ensures IsDb(u) ==> 0.0 < Linear(m, x, u) && m.log10(Linear(m, x, u)) == x / 10.0
  {
    if x < y {
      if IsVoltage(u) {
        SquareMonotone(x, y);
      } else if IsDb(u) {
        assert x / 10.0 < y / 10.0;
      }
    }
  }

  lemma LinearWithin(m: Math, s: seq<real>, u: Unit, lo: real, hi: real)
    requires Sound(m) && Within(s, lo, hi) && (IsVoltage(u) ==> lo >= 0.0)
    ensures Within(LinearAll(m, s, u), Linear(m, lo, u), Linear(m, hi, u))
  {
    forall i | 0 <= i < |s| ensures Linear(m, lo, u) <= Linear(m, s[i], u) <= Linear(m, hi, u) {
      LinearMonotone(m, u, lo, s[i]);
      LinearMonotone(m, u, s[i], hi);
    }
  }

  /** Squaring a factor-20 voltage gives the factor-10 power. */
  lemma VoltageSquaresArePowers(m: Math, s: seq<real>, u: Unit)
    requires IsDb(u) && forall v :: VoltageSquareIsPower(m, v)
    ensures VoltageSquares(m, s) == LinearAll(m, s, u)
  {
    forall i | 0 <= i < |s| ensures VoltageSquares(m, s)[i] == LinearAll(m, s, u)[i] {
      assert VoltageSquareIsPower(m, s[i]);
    }
  }

  predicate VoltageSquareIsPower(m: Math, v: real) {
    Times(m.exp10(v / 20.0), m.exp10(v / 20.0)) == m.exp10(v / 10.0)
  }

  /** All three dB units average the power and return to dB. */
  lemma DbAverage(m: Math, s: seq<real>, u: Unit)
    requires Sound(m) && s != [] && IsDb(u)
    ensures Mean(LinearAll(m, s, u)) > 0.0
    ensures Average(m, s, u) == 10.0 * m.log10(Mean(LinearAll(m, s, u)))
  {
    var p := LinearAll(m, s, u);
    PositiveMean(p);
    if !u.DBm? {
      forall v ensures VoltageSquareIsPower(m, v) {
      }
      VoltageSquaresArePowers(m, s, u);
      SqrtPositive(m, Mean(p));
    }
  }

  lemma {:induction false} PositiveSum(s: seq<real>)
    requires s != [] && forall i :: 0 <= i < |s| ==> s[i] > 0.0
    ensures Sum(s) > 0.0
  {
    if |s| > 1 {
      PositiveSum(s[..|s| - 1]);
    }
  }

  lemma PositiveMean(s: seq<real>)
    requires s != [] && forall i :: 0 <= i < |s| ==> s[i] > 0.0
    ensures Mean(s) > 0.0
  {
    PositiveSum(s);
    DivideTimes(Sum(s), |s| as real);
  }

  /** The average lies between the extremes, for every unit; voltages must not be negative. */
  lemma AverageBetweenExtremes(m: Math, s: seq<real>, u: Unit, lo: real, hi: real)
    requires Sound(m) && s != [] && Within(s, lo, hi) && (IsVoltage(u) ==> lo >= 0.0)
    ensures lo <= Average(m, s, u) <= hi
  {
    if IsDb(u) {
      LinearWithin(m, s, u, lo, hi);
      MeanWithin(LinearAll(m, s, u), Linear(m, lo, u), Linear(m, hi, u));
      DbAverage(m, s, u);
    } else if IsVoltage(u) {
      assert lo <= s[0] <= hi;
      LinearWithin(m, s, u, lo, hi);
      MeanWithin(LinearAll(m, s, u), Linear(m, lo, u), Linear(m, hi, u));
      SqrtBetween(m, Mean(LinearAll(m, s, u)), lo, hi);
    } else {
      MeanWithin(s, lo, hi);
    }
  }

  /** For dB units flatness is the span of the readings. */
  lemma DbFlatnessIsSpan(m: Math, vmin: real, vmax: real, u: Unit)
    requires Sound(m) && IsDb(u)
    ensures Flatness(m, vmin, vmax, u) == Some(vmax - vmin)
  {
    LogQuotient(m, Linear(m, vmax, u), Linear(m, vmin, u));
  }

  /** For dB units the channel power is the average plus the number of points in dB. */
  lemma DbChannelPowerIsAveragePlusCount(m: Math, s: seq<real>, u: Unit)
    requires Sound(m) && s != [] && IsDb(u)
    ensures ChannelPower(m, s, u) == Average(m, s, u) + 10.0 * m.log10(|s| as real)
  {
    var p := LinearAll(m, s, u);
    DbAverage(m, s, u);
    DivideTimes(Sum(p), |s| as real);
  }

  lemma PositiveValues(m: Math, s: seq<real>, u: Unit)
    requires Sound(m) && PositiveLinear(s, u)
    ensures forall i :: 0 <= i < |s| ==> LinearAll(m, s, u)[i] > 0.0
  {
    forall i | 0 <= i < |s| ensures LinearAll(m, s, u)[i] > 0.0 {
      if IsVoltage(u) {
        TimesPositive(s[i], s[i]);
      }
    }
  }

  /** The extremes of the readings are those of their linear forms. */
  lemma LinearExtremes(m: Math, s: seq<real>, u: Unit, vmin: real, vmax: real)
    requires Sound(m) && s != [] && PositiveLinear(s, u) && IsMinimum(s, vmin) && IsMaximum(s, vmax)
    ensures Within(LinearAll(m, s, u), Linear(m, vmin, u), Linear(m, vmax, u))
    ensures Linear(m, vmin, u) > 0.0 && MaxOf(LinearAll(m, s, u)) == Linear(m, vmax, u)
  {
    var p := LinearAll(m, s, u);
    var i :| 0 <= i < |s| && s[i] == vmin;
    var j :| 0 <= j < |s| && s[j] == vmax;
    PositiveValues(m, s, u);
    assert p[i] == Linear(m, vmin, u) && p[j] == Linear(m, vmax, u);
    LinearWithin(m, s, u, vmin, vmax);
  }

  /** Neither ratio raises, and the crest factor lies between zero and the flatness. */
  lemma PaprBelowFlatness(m: Math, s: seq<real>, u: Unit, vmin: real, vmax: real)
    requires Sound(m) && s != [] && PositiveLinear(s, u) && IsMinimum(s, vmin) && IsMaximum(s, vmax)
    ensures Papr(m, s, u).Some? && Flatness(m, vmin, vmax, u).Some?
    ensures 0.0 <= Papr(m, s, u).value <= Flatness(m, vmin, vmax, u).value
  {
    var p := LinearAll(m, s, u);
    PositiveValues(m, s, u);
    PositiveMean(p);
    LinearExtremes(m, s, u, vmin, vmax);
    var lo, hi, mean := Linear(m, vmin, u), Linear(m, vmax, u), Mean(p);
    MeanWithin(p, lo, hi);
    LogQuotient(m, hi, mean);
    LogQuotient(m, hi, lo);
  }

  // ---- averages and powers combine ------------------------------------------------------------------

  lemma SumConcat(a: seq<real>, b: seq<real>)
    ensures Sum(a + b) == Sum(a) + Sum(b)
  {
    SumSplit(a + b, |a|);
    assert (a + b)[..|a|] == a && (a + b)[|a|..] == b;
  }

  lemma SumOfOne(v: real)
    ensures Sum([v]) == v
  {
    assert [v][..0] == [];
  }

  lemma {:induction false} SumNonNegative(s: seq<real>)
    requires forall i :: 0 <= i < |s| ==> s[i] >= 0.0
    ensures Sum(s) >= 0.0
  {
    if s != [] {
      SumNonNegative(s[..|s| - 1]);
    }
  }

  lemma LinearConcat(m: Math, a: seq<real>, b: seq<real>, u: Unit)
    ensures LinearAll(m, a + b, u) == LinearAll(m, a, u) + LinearAll(m, b, u)
    ensures Sum(LinearAll(m, a + b, u)) == Sum(LinearAll(m, a, u)) + Sum(LinearAll(m, b, u))
  {
    assert LinearAll(m, a + b, u) == LinearAll(m, a, u) + LinearAll(m, b, u);
    SumConcat(LinearAll(m, a, u), LinearAll(m, b, u));
  }

  lemma VoltageSum(m: Math, s: seq<real>, u: Unit)
    requires IsVoltage(u)
    ensures Sum(LinearAll(m, s, u)) >= 0.0
  {
    forall i | 0 <= i < |s| ensures LinearAll(m, s, u)[i] >= 0.0 {
    }
    SumNonNegative(LinearAll(m, s, u));
  }

  /** Voltages add up as the root of the sum of their squares. */
  lemma VoltagePowersAdd(m: Math, a: seq<real>, b: seq<real>, v: real, u: Unit)
    requires Sound(m) && IsVoltage(u)
    ensures ChannelPower(m, a, u) >= 0.0
    ensures var all, x, y := ChannelPower(m, a + b, u), ChannelPower(m, a, u), ChannelPower(m, b, u);
      Times(all, all) == Times(x, x) + Times(y, y)
    ensures var one := ChannelPower(m, [v], u); Times(one, one) == v * v
  {
    VoltageSum(m, a, u);
    VoltageSum(m, b, u);
    VoltageSum(m, a + b, u);
    VoltageSum(m, [v], u);
    LinearConcat(m, a, b, u);
    RootOf(m, Sum(LinearAll(m, a, u)));
    RootOf(m, Sum(LinearAll(m, b, u)));
    RootOf(m, Sum(LinearAll(m, a + b, u)));
    RootOf(m, Sum(LinearAll(m, [v], u)));
    assert LinearAll(m, [v], u) == [Times(v, v)];
    SumOfOne(Times(v, v));
  }

  /** Powers and values without a unit add up as they are. */
  lemma PlainPowersAdd(m: Math, a: seq<real>, b: seq<real>, v: real, u: Unit)
    requires u.W? || u.Raw?
    ensures ChannelPower(m, a + b, u) == ChannelPower(m, a, u) + ChannelPower(m, b, u)
    ensures ChannelPower(m, [v], u) == v
  {
    SumConcat(a, b);
    SumOfOne(v);
  }

  /** The average is the value whose power, at every point, makes up the total. */
  lemma AverageMakesTotal(m: Math, s: seq<real>, u: Unit)
    requires Sound(m) && s != []
    ensures Times(Linear(m, Average(m, s, u), u), |s| as real) == Sum(LinearAll(m, s, u))
  {
    var p := LinearAll(m, s, u);
    DivideTimes(Sum(p), |s| as real);
    if IsDb(u) {
      DbAverage(m, s, u);
    } else if IsVoltage(u) {
      VoltageSum(m, s, u);
      RootOf(m, Mean(p));
    } else {
      assert p == s;
    }
  }

  /** Averages combine by the power they stand for, weighted with the number of points. */
  lemma AveragesCombine(m: Math, a: seq<real>, b: seq<real>, u: Unit)
    requires Sound(m) && a != [] && b != []
    ensures Times(Linear(m, Average(m, a + b, u), u), |a + b| as real)
      == Times(Linear(m, Average(m, a, u), u), |a| as real) + Times(Linear(m, Average(m, b, u), u), |b| as real)
  {
    AverageMakesTotal(m, a, u);
    AverageMakesTotal(m, b, u);
    AverageMakesTotal(m, a + b, u);
    LinearConcat(m, a, b, u);
  }

  /** The average of one reading is the reading, of a voltage its magnitude. */
  lemma AverageOfOne(m: Math, v: real, u: Unit)
    requires Sound(m)
    ensures Average(m, [v], u) == if IsVoltage(u) && v < 0.0 then -v else v
  {
    if IsVoltage(u) && v < 0.0 {
      SquareOfNegated(m, v, u);
      AverageBetweenExtremes(m, [-v], u, -v, -v);
    } else {
      AverageBetweenExtremes(m, [v], u, v, v);
    }
  }

  lemma SquareOfNegated(m: Math, v: real, u: Unit)
    requires IsVoltage(u)
    ensures Average(m, [v], u) == Average(m, [-v], u)
  {
    assert Times(-v, -v) == Times(v, v);
    assert LinearAll(m, [v], u) == LinearAll(m, [-v], u);
  }

  /** Crest factor and flatness say by how many dB the peak exceeds the average and the minimum: in dB units a difference ... */
  lemma DbRatios(m: Math, s: seq<real>, u: Unit, vmin: real, vmax: real)
    requires Sound(m) && IsDb(u) && s != [] && IsMinimum(s, vmin) && IsMaximum(s, vmax)
    ensures Papr(m, s, u) == Some(vmax - Average(m, s, u)) && Flatness(m, vmin, vmax, u) == Some(vmax - vmin)
  {
    DbFlatnessIsSpan(m, vmin, vmax, u);
    DbAverage(m, s, u);
    LinearExtremes(m, s, u, vmin, vmax);
    LogQuotient(m, Linear(m, vmax, u), Mean(LinearAll(m, s, u)));
  }

  lemma RatioRecovered(m: Math, x: real, y: real)
    requires Sound(m) && x > 0.0 && y > 0.0
    ensures Times(m.exp10(10.0 * m.log10(Divide(x, y)) / 10.0), y) == x
  {
    DivideTimes(x, y);
  }

  lemma FlatnessRatio(m: Math, vmin: real, vmax: real, u: Unit)
    requires Sound(m) && Flatness(m, vmin, vmax, u).Some?
    ensures Times(m.exp10(Flatness(m, vmin, vmax, u).value / 10.0), Linear(m, vmin, u)) == Linear(m, vmax, u)
  {
    RatioRecovered(m, Linear(m, vmax, u), Linear(m, vmin, u));
  }

  lemma PaprRatio(m: Math, s: seq<real>, u: Unit, peak: real)
    requires Sound(m) && s != [] && Papr(m, s, u).Some? && peak == MaxOf(LinearAll(m, s, u))
    ensures Times(m.exp10(Papr(m, s, u).value / 10.0), Mean(LinearAll(m, s, u))) == peak
  {
    PeakAboveMean(LinearAll(m, s, u));
    RatioRecovered(m, peak, Mean(LinearAll(m, s, u)));
  }

  lemma PeakAboveMean(p: seq<real>)
    requires p != []
    ensures Mean(p) <= MaxOf(p)
  {
    var n := |p| as real;
    var lo := MinOf(p);
    MeanWithin(p, lo, MaxOf(p));
  }

  function MinOf(s: seq<real>): (x: real)
    requires s != []
    ensures forall i :: 0 <= i < |s| ==> x <= s[i]
  {
    if |s| == 1 then s[0]
    else
      var x := MinOf(s[..|s| - 1]);
      assert forall i :: 0 <= i < |s| - 1 ==> s[i] == s[..|s| - 1][i];
      if s[|s| - 1] < x then s[|s| - 1] else x
  }

  /** ... of powers and values without a unit a ratio ... */
  lemma PlainRatios(m: Math, s: seq<real>, u: Unit, vmin: real, vmax: real)
    requires Sound(m) && (u.W? || u.Raw?) && s != [] && IsMinimum(s, vmin) && IsMaximum(s, vmax)
    ensures Papr(m, s, u).Some? <==> Average(m, s, u) > 0.0
    ensures Flatness(m, vmin, vmax, u).Some? <==> vmin > 0.0
    ensures Papr(m, s, u).Some? ==> Times(m.exp10(Papr(m, s, u).value / 10.0), Average(m, s, u)) == vmax
    ensures Flatness(m, vmin, vmax, u).Some? ==> Times(m.exp10(Flatness(m, vmin, vmax, u).value / 10.0), vmin) == vmax
  {
    PlainPeak(m, s, u, vmax);
    if Papr(m, s, u).Some? {
      PaprRatio(m, s, u, vmax);
    }
    if Flatness(m, vmin, vmax, u).Some? {
      FlatnessRatio(m, vmin, vmax, u);
    }
  }

  lemma PlainPeak(m: Math, s: seq<real>, u: Unit, vmax: real)
    requires (u.W? || u.Raw?) && s != [] && IsMaximum(s, vmax)
    ensures LinearAll(m, s, u) == s && MaxOf(LinearAll(m, s, u)) == vmax
  {
    assert LinearAll(m, s, u) == s;
  }

  /** ... and of voltages a ratio of squares, the peak being the reading of larger magnitude. */
  lemma VoltageRatios(m: Math, s: seq<real>, u: Unit, vmin: real, vmax: real)
    requires Sound(m) && IsVoltage(u) && s != [] && IsMinimum(s, vmin) && IsMaximum(s, vmax)
    ensures Papr(m, s, u).Some? ==>
      var avg, peak := Average(m, s, u), Dominant(vmin, vmax);
      Times(m.exp10(Papr(m, s, u).value / 10.0), Times(avg, avg)) == Times(peak, peak)
    ensures Flatness(m, vmin, vmax, u).Some? ==>
      Times(m.exp10(Flatness(m, vmin, vmax, u).value / 10.0), Times(vmin, vmin)) == Times(vmax, vmax)
  {
    PeakOfVoltages(m, s, u, vmin, vmax);
    RootOf(m, Mean(LinearAll(m, s, u)));
    if Papr(m, s, u).Some? {
      PaprRatio(m, s, u, Times(Dominant(vmin, vmax), Dominant(vmin, vmax)));
    }
    if Flatness(m, vmin, vmax, u).Some? {
      FlatnessRatio(m, vmin, vmax, u);
    }
  }

  // ---- voltages of either sign ---------------------------------------------------------------------

  /** Of two ordered numbers the larger has the larger square iff it is not outweighed by the smaller. */
  lemma SquareOrder(x: real, y: real)
    requires x <= y
    ensures Times(x, x) <= Times(y, y) <==> x + y >= 0.0 || x == y
  {
    assert Times(y, y) - Times(x, x) == Times(y - x, y + x);
    if x < y && x + y > 0.0 {
      TimesPositive(y - x, y + x);
    } else if x < y && x + y < 0.0 {
      TimesPositive(y - x, -(y + x));
      assert Times(y - x, -(y + x)) == -Times(y - x, y + x);
    }
  }

  lemma SquarePositive(x: real)
    ensures Times(x, x) > 0.0 <==> x != 0.0
  {
    if x > 0.0 {
      TimesPositive(x, x);
    } else if x < 0.0 {
      TimesPositive(-x, -x);
      assert Times(-x, -x) == Times(x, x);
    }
  }

  /** The extreme that is not outweighed: the larger magnitude of the two. */
  function Dominant(vmin: real, vmax: real): real {
    if vmin + vmax >= 0.0 then vmax else vmin
  }

  lemma SquareBelowDominant(v: real, vmin: real, vmax: real)
    requires vmin <= v <= vmax
    ensures var d := Dominant(vmin, vmax); Times(v, v) <= Times(d, d)
  {
    SquareOrder(v, vmax);
    SquareOrder(vmin, v);
    SquareOrder(vmin, vmax);
  }

  /** The peak power of voltages is the square of the dominant extreme, and no mean square exceeds it. */
  lemma PeakOfVoltages(m: Math, s: seq<real>, u: Unit, vmin: real, vmax: real)
    requires IsVoltage(u) && s != [] && IsMinimum(s, vmin) && IsMaximum(s, vmax)
    ensures var p, d := LinearAll(m, s, u), Dominant(vmin, vmax);
      MaxOf(p) == Times(d, d) && 0.0 <= Mean(p) <= Times(d, d)
  {
    var p, d := LinearAll(m, s, u), Dominant(vmin, vmax);
    forall i | 0 <= i < |s| ensures 0.0 <= p[i] <= Times(d, d) {
      SquareBelowDominant(s[i], vmin, vmax);
    }
    MeanWithin(p, 0.0, Times(d, d));
    var k :| 0 <= k < |s| && s[k] == d;
    assert p[k] == Times(d, d);
  }

  /** Flatness exists iff neither extreme is zero, and is not negative iff the maximum is not outweighed by the minimum. */
  lemma VoltageFlatness(m: Math, u: Unit, vmin: real, vmax: real)
    requires Sound(m) && IsVoltage(u) && vmin <= vmax
    ensures Flatness(m, vmin, vmax, u).Some? <==> vmin != 0.0 && vmax != 0.0
    ensures Flatness(m, vmin, vmax, u).Some? ==>
      (Flatness(m, vmin, vmax, u).value >= 0.0 <==> vmin + vmax >= 0.0 || vmin == vmax)
  {
    SquarePositive(vmin);
    SquarePositive(vmax);
    if vmin != 0.0 && vmax != 0.0 {
      LogQuotient(m, Times(vmax, vmax), Times(vmin, vmin));
      SquareOrder(vmin, vmax);
    }
  }

  /**
   * The crest factor exists iff some power does and is never negative.  It
   * stays below the flatness iff the flatness is not negative and the mean
   * square reaches the square of the minimum.
   */
  lemma VoltagePapr(m: Math, s: seq<real>, u: Unit, vmin: real, vmax: real)
    requires Sound(m) && IsVoltage(u) && s != [] && IsMinimum(s, vmin) && IsMaximum(s, vmax)
    ensures Papr(m, s, u).Some? <==> Mean(LinearAll(m, s, u)) > 0.0
    ensures Papr(m, s, u).Some? ==> Papr(m, s, u).value >= 0.0
    ensures Papr(m, s, u).Some? && Flatness(m, vmin, vmax, u).Some? ==>
      (Papr(m, s, u).value <= Flatness(m, vmin, vmax, u).value
       <==> (vmin + vmax >= 0.0 || vmin == vmax) && Times(vmin, vmin) <= Mean(LinearAll(m, s, u)))
  {
    var p, d := LinearAll(m, s, u), Dominant(vmin, vmax);
    PeakOfVoltages(m, s, u, vmin, vmax);
    VoltageFlatness(m, u, vmin, vmax);
    SquareOrder(vmin, vmax);
    if Mean(p) > 0.0 {
      LogQuotient(m, MaxOf(p), Mean(p));
      if vmin != 0.0 && vmax != 0.0 {
        SquarePositive(vmin);
        SquarePositive(vmax);
        LogQuotient(m, Times(vmax, vmax), Times(vmin, vmin));
      }
    }
  }

  /** The average is never below the minimum; it is at most the maximum iff that is not negative and its square reaches the mean square. */
  lemma VoltageAverage(m: Math, s: seq<real>, u: Unit, vmin: real, vmax: real)
    requires Sound(m) && IsVoltage(u) && s != [] && IsMinimum(s, vmin) && IsMaximum(s, vmax)
    ensures vmin <= Average(m, s, u)
    ensures Average(m, s, u) <= vmax <==> vmax >= 0.0 && Mean(LinearAll(m, s, u)) <= Times(vmax, vmax)
  {
    PeakOfVoltages(m, s, u, vmin, vmax);
    RootOf(m, Mean(LinearAll(m, s, u)));
    RootOrder(Average(m, s, u), vmax);
    if vmin >= 0.0 {
      AverageBetweenExtremes(m, s, u, vmin, vmax);
    }
  }

  lemma RootOf(m: Math, x: real)
    requires Sound(m) && x >= 0.0
    ensures m.sqrt(x) >= 0.0 && Times(m.sqrt(x), m.sqrt(x)) == x
  {
  }

  lemma RootOrder(r: real, y: real)
    requires r >= 0.0
    ensures r <= y <==> y >= 0.0 && Times(r, r) <= Times(y, y)
  {
    if r <= y {
      SquareOrder(r, y);
    } else if y >= 0.0 {
      SquareMonotone(y, r);
    }
  }

  /** As a guard on the extremes alone: they bound every average iff the maximum is not outweighed by the minimum. */
  lemma VoltageAverageBounded(m: Math, u: Unit, vmin: real, vmax: real)
    requires Sound(m) && IsVoltage(u) && vmin <= vmax
    ensures (forall s :: s != [] && IsMinimum(s, vmin) && IsMaximum(s, vmax) ==> vmin <= Average(m, s, u) <= vmax)
      <==> vmin + vmax >= 0.0
  {
    if vmin + vmax >= 0.0 {
      forall s | s != [] && IsMinimum(s, vmin) && IsMaximum(s, vmax) ensures vmin <= Average(m, s, u) <= vmax {
        PeakOfVoltages(m, s, u, vmin, vmax);
        VoltageAverage(m, s, u, vmin, vmax);
      }
    } else {
      var s := [vmin, vmax];
      assert IsMinimum(s, vmin) && IsMaximum(s, vmax) by { assert s[0] == vmin && s[1] == vmax; }
      VoltageAverage(m, s, u, vmin, vmax);
      MeanOfTwo(m, u, vmin, vmax);
      SquareOrder(vmin, vmax);
      assert !(Average(m, s, u) <= vmax);
    }
  }

  lemma MeanOfTwo(m: Math, u: Unit, x: real, y: real)
    requires IsVoltage(u)
    ensures Mean(LinearAll(m, [x, y], u)) * 2.0 == Times(x, x) + Times(y, y)
  {
    var p := LinearAll(m, [x, y], u);
    assert p == [Times(x, x), Times(y, y)];
    assert p[..1] == [Times(x, x)] && [Times(x, x)][..0] == [];
    assert Sum([Times(x, x)]) == Sum([]) + Times(x, x);
    DivideTimes(Sum(p), 2.0);
  }

  /** A witness: readings -2 V and 1 V have a flatness below zero, and a crest factor above it. */
  lemma NegativeVoltageBreaksOrder(m: Math)
    requires Sound(m)
    ensures Flatness(m, -2.0, 1.0, V).Some? && Flatness(m, -2.0, 1.0, V).value < 0.0
    ensures Papr(m, [-2.0, 1.0], V).Some? && Papr(m, [-2.0, 1.0], V).value > Flatness(m, -2.0, 1.0, V).value
  {
    var s := [-2.0, 1.0];
    assert Times(-2.0, -2.0) == 4.0 && Times(1.0, 1.0) == 1.0;
    LogQuotient(m, 1.0, 4.0);
    LogOfOne(m);
    var p := LinearAll(m, s, V);
    assert p == [4.0, 1.0];
    assert p[..1] == [4.0] && [4.0][..0] == [];
    assert Sum([4.0]) == Sum([]) + 4.0;
    assert Sum(p) == 5.0 && Mean(p) == 2.5;
    LogQuotient(m, 4.0, 2.5);
    assert MaxOf(p) == 4.0;
  }

  // ---- occupied bandwidth -----------------------------------------------------------------------------

  /** Half of what may fall outside the band, as a share of the total, and what must be reached at the other end. */
  function LowTarget(total: real): real {
    0.005 * total
  }

  function HighTarget(total: real): real {
    (1.0 - 0.005) * total
  }

  /** The first index from `i` on at which the running total reaches `target`. */
  function Reach(p: seq<real>, target: real, i: nat): (k: nat)
    requires i <= |p|
    ensures i <= k <= |p|
    decreases |p| - i
  {
    if i == |p| || Prefix(p, i + 1) >= target then i else Reach(p, target, i + 1)
  }

  lemma {:induction false} ReachIsLeast(p: seq<real>, target: real, i: nat)
    requires i <= |p|
    ensures var k := Reach(p, target, i);
      && (k < |p| ==> Prefix(p, k + 1) >= target)
      && (forall j :: i < j <= k ==> Prefix(p, j) < target)
    decreases |p| - i
  {
    if i < |p| && Prefix(p, i + 1) < target {
      ReachIsLeast(p, target, i + 1);
    }
  }

  function LowEdge(p: seq<real>): nat {
    Reach(p, LowTarget(Sum(p)), 0)
  }

  function HighEdge(p: seq<real>): nat {
    Reach(p, HighTarget(Sum(p)), 0)
  }

  lemma {:induction false} SumSplit(p: seq<real>, k: nat)
    requires k <= |p|
    ensures Sum(p) == Sum(p[..k]) + Sum(p[k..])
    decreases |p|
  {
    if k == |p| {
      assert p[..k] == p;
    } else {
      var init := p[..|p| - 1];
      SumSplit(init, k);
      assert init[..k] == p[..k] && p[k..][..|p[k..]| - 1] == init[k..];
    }
  }

  /** The reported bandwidth: zero without power, else the distance between the edges. */
  function Bandwidth(freqs: seq<int>, p: seq<real>): int
    requires |freqs| == |p|
  {
    if Sum(p) <= 0.0 then 0
    else
      EdgesAreLeast(p);
      freqs[HighEdge(p)] - freqs[LowEdge(p)]
  }

  method OccupiedBandwidth(freqs: seq<int>, power: seq<real>) returns (width: int)
    requires |freqs| == |power| > 0
    ensures width == Bandwidth(freqs, power)
  {
    var total := Sum(power);
    if total <= 0.0 {
      return 0;
    }
    EdgesAreLeast(power);
    var loTarget, hiTarget := LowTarget(total), HighTarget(total);
    var cumulative := 0.0;
    var loFreq, hiFreq := freqs[0], freqs[|freqs| - 1];
    var loFound, done := false, false;
    var i := 0;
    assert power[..|power|] == power;
    while i < |power| && !done
      invariant 0 <= i <= |power|
      invariant cumulative == Sum(power[..i])
      invariant done ==> i > 0 && i - 1 == HighEdge(power) && hiFreq == freqs[i - 1] && loFound
      invariant !done ==> HighEdge(power) == Reach(power, hiTarget, i) && hiFreq == freqs[|freqs| - 1]
      invariant if loFound then LowEdge(power) < i && loFreq == freqs[LowEdge(power)] else LowEdge(power) == Reach(power, loTarget, i)
      invariant !done && i == |power| ==> cumulative < hiTarget
      decreases |power| - i
    {
      assert power[..i + 1][..i] == power[..i];
      cumulative := cumulative + power[i];
      if !loFound && cumulative >= loTarget {
        loFreq := freqs[i];
        loFound := true;
      }
      if cumulative >= hiTarget {
        hiFreq := freqs[i];
        done := true;
      }
      i := i + 1;
    }
    return hiFreq - loFreq;
  }

  lemma EdgesAreLeast(p: seq<real>)
    requires Sum(p) > 0.0
    ensures LowEdge(p) <= HighEdge(p) < |p|
    ensures Prefix(p, LowEdge(p) + 1) >= LowTarget(Sum(p))
    ensures forall j :: 0 <= j <= LowEdge(p) ==> Prefix(p, j) < LowTarget(Sum(p))
    ensures Prefix(p, HighEdge(p) + 1) >= HighTarget(Sum(p))
    ensures forall j :: 0 <= j <= HighEdge(p) ==> Prefix(p, j) < HighTarget(Sum(p))
  {
    EdgeIsLeast(p, LowTarget(Sum(p)));
    EdgeIsLeast(p, HighTarget(Sum(p)));
    assert Prefix(p, HighEdge(p) + 1) >= LowTarget(Sum(p));
  }

  /** A positive target that the total meets is first reached at some point. */
  lemma EdgeIsLeast(p: seq<real>, target: real)
    requires 0.0 < target <= Sum(p)
    ensures var k := Reach(p, target, 0);
      k < |p| && Prefix(p, k + 1) >= target && (forall j :: 0 <= j <= k ==> Prefix(p, j) < target)
  {
    ReachIsLeast(p, target, 0);
    assert p[..|p|] == p && Prefix(p, |p|) == Sum(p);
    assert Prefix(p, 0) == 0.0;
  }

  /**
   * With positive total power both edges are found, the low one not above the
   * high one; less than 0.5% of the power lies below the band, at most 0.5%
   * above it, so the band holds more than 99%.
   */
  lemma BandHoldsPower(p: seq<real>)
    requires Sum(p) > 0.0
    ensures LowEdge(p) <= HighEdge(p) < |p|
    ensures Sum(p[..LowEdge(p)]) < 0.005 * Sum(p)
    ensures Sum(p[HighEdge(p) + 1..]) <= 0.005 * Sum(p)
    ensures Sum(p[LowEdge(p)..HighEdge(p) + 1]) > 0.99 * Sum(p)
  {
    EdgeBounds(p);
    BandBetween(p, LowEdge(p), HighEdge(p) + 1);
  }

  lemma BandBetween(p: seq<real>, i: nat, j: nat)
    requires i <= j <= |p| && Sum(p[..i]) < LowTarget(Sum(p)) && Sum(p[..j]) >= HighTarget(Sum(p))
    ensures Sum(p[..i]) < 0.005 * Sum(p) && Sum(p[j..]) <= 0.005 * Sum(p) && Sum(p[i..j]) > 0.99 * Sum(p)
  {
    SumInThree(p, i, j);
  }

  lemma EdgeBounds(p: seq<real>)
    requires Sum(p) > 0.0
    ensures LowEdge(p) <= HighEdge(p) < |p|
    ensures Sum(p[..LowEdge(p)]) < LowTarget(Sum(p)) && Sum(p[..HighEdge(p) + 1]) >= HighTarget(Sum(p))
  {
    EdgesAreLeast(p);
    assert Prefix(p, LowEdge(p)) == Sum(p[..LowEdge(p)]);
  }

  lemma SumInThree(p: seq<real>, i: nat, j: nat)
    requires i <= j <= |p|
    ensures Sum(p[..j]) == Sum(p[..i]) + Sum(p[i..j]) && Sum(p) == Sum(p[..j]) + Sum(p[j..])
  {
    SumSplit(p, j);
    SumSplit(p[..j], i);
    assert p[..j][..i] == p[..i] && p[..j][i..] == p[i..j];
  }

  /**
   * What the reported bandwidth is: without power zero; otherwise the distance
   * between the first point up to which 0.5% of the power has come, and the
   * first up to which 99.5% has.
   */
  lemma BandwidthIs(freqs: seq<int>, p: seq<real>)
    requires |freqs| == |p|
    ensures Sum(p) <= 0.0 ==> Bandwidth(freqs, p) == 0
    ensures Sum(p) > 0.0 ==> exists lo: nat, hi: nat ::
      && FirstToReach(p, 0.005 * Sum(p), lo) && FirstToReach(p, 0.995 * Sum(p), hi)
      && Bandwidth(freqs, p) == freqs[hi] - freqs[lo]
  {
    if Sum(p) > 0.0 {
      EdgesAreLeast(p);
      var low, high := 0.005 * Sum(p), 0.995 * Sum(p);
      assert low == LowTarget(Sum(p)) && high == HighTarget(Sum(p));
      FirstReached(p, low, LowEdge(p));
      FirstReached(p, high, HighEdge(p));
      assert Bandwidth(freqs, p) == freqs[HighEdge(p)] - freqs[LowEdge(p)];
    }
  }

  /** Up to and with point `k` the target is reached, and up to no earlier one. */
  ghost predicate FirstToReach(p: seq<real>, target: real, k: nat) {
    k < |p| && Sum(p[..k + 1]) >= target && forall j :: 0 <= j <= k ==> Sum(p[..j]) < target
  }

  lemma FirstReached(p: seq<real>, target: real, k: nat)
    requires k < |p| && Prefix(p, k + 1) >= target && forall j :: 0 <= j <= k ==> Prefix(p, j) < target
    ensures FirstToReach(p, target, k)
  {
    forall j | 0 <= j <= k ensures Sum(p[..j]) < target {
      assert Prefix(p, j) < target;
    }
  }

  predicate Ascending(freqs: seq<int>) {
    forall i, j :: 0 <= i <= j < |freqs| ==> freqs[i] <= freqs[j]
  }

  /** For ascending frequencies the bandwidth is between zero and the whole span. */
  lemma BandwidthWithinSpan(freqs: seq<int>, p: seq<real>)
    requires |freqs| == |p| > 0 && Ascending(freqs)
    ensures 0 <= Bandwidth(freqs, p) <= freqs[|freqs| - 1] - freqs[0]
  {
    if Sum(p) > 0.0 {
      EdgesAreLeast(p);
    }
  }

  function Scaled(p: seq<real>, c: real): (q: seq<real>)
    ensures |q| == |p|
  {
    seq(|p|, i requires 0 <= i < |p| => Times(p[i], c))
  }

  lemma {:induction false} SumScaled(p: seq<real>, c: real)
    ensures Sum(Scaled(p, c)) == Times(Sum(p), c)
  {
    if p != [] {
      var init, last := p[..|p| - 1], p[|p| - 1];
      SumScaled(init, c);
      assert Scaled(p, c)[..|p| - 1] == Scaled(init, c);
      assert (Sum(init) + last) * c == Sum(init) * c + last * c;
    }
  }

  lemma {:induction false} ReachScaled(p: seq<real>, target: real, c: real, i: nat)
    requires c > 0.0 && i <= |p|
    ensures Reach(Scaled(p, c), Times(target, c), i) == Reach(p, target, i)
    decreases |p| - i
  {
    if i < |p| {
      assert Scaled(p, c)[..i + 1] == Scaled(p[..i + 1], c);
      SumScaled(p[..i + 1], c);
      ReachScaled(p, target, c, i + 1);
    }
  }

  /** Scaling all powers by a positive factor moves neither edge. */
  lemma EdgesScaleFree(p: seq<real>, c: real)
    requires c > 0.0
    ensures LowEdge(Scaled(p, c)) == LowEdge(p) && HighEdge(Scaled(p, c)) == HighEdge(p)
    ensures Sum(Scaled(p, c)) > 0.0 <==> Sum(p) > 0.0
  {
    SumScaled(p, c);
    var total := Sum(p);
    assert LowTarget(Times(total, c)) == Times(LowTarget(total), c);
    assert HighTarget(Times(total, c)) == Times(HighTarget(total), c);
    ReachScaled(p, LowTarget(total), c, 0);
    ReachScaled(p, HighTarget(total), c, 0);
    assert Times(0.0, c) == 0.0;
  }

  function Offset(s: seq<real>, d: real): (t: seq<real>)
    ensures |t| == |s|
  {
    seq(|s|, i requires 0 <= i < |s| => s[i] + d)
  }

  predicate OffsetScales(m: Math, x: real, d: real) {
    m.exp10((x + d) / 10.0) == Times(m.exp10(x / 10.0), m.exp10(d / 10.0))
  }

  /** In a dB unit a common offset of all readings leaves the occupied bandwidth unchanged. */
  lemma BandwidthIgnoresOffset(m: Math, freqs: seq<int>, s: seq<real>, u: Unit, d: real)
    requires Sound(m) && IsDb(u) && |freqs| == |s|
    ensures Bandwidth(freqs, LinearAll(m, Offset(s, d), u)) == Bandwidth(freqs, LinearAll(m, s, u))
  {
    forall x ensures OffsetScales(m, x, d) {
    }
    LinearOfOffset(m, s, u, d);
    EdgesScaleFree(LinearAll(m, s, u), m.exp10(d / 10.0));
  }

  lemma LinearOfOffset(m: Math, s: seq<real>, u: Unit, d: real)
    requires IsDb(u) && forall x :: OffsetScales(m, x, d)
    ensures LinearAll(m, Offset(s, d), u) == Scaled(LinearAll(m, s, u), m.exp10(d / 10.0))
  {
    forall i | 0 <= i < |s|
      ensures LinearAll(m, Offset(s, d), u)[i] == Scaled(LinearAll(m, s, u), m.exp10(d / 10.0))[i]
    {
      assert OffsetScales(m, s[i], d);
    }
  }

  // ---- the report ---------------------------------------------------------------------------------------

  datatype Report = Report(average: real, median: real, minimum: real, minFreq: int, maximum: real, maxFreq: int,
                           channelPower: real, occupiedBandwidth: int, papr: real, flatness: real)

  datatype StatsError = ValueError

  predicate InRange(f: int, start: int, stop: int) {
    start <= f <= stop
  }

  /** The indices below `n` whose frequency is in range, ascending. */
  function Kept(freqs: seq<int>, start: int, stop: int, n: nat): (at: seq<nat>)
    requires n <= |freqs|
    ensures forall k :: 0 <= k < |at| ==> at[k] < n
  {
    if n == 0 then []
    else Kept(freqs, start, stop, n - 1) + if InRange(freqs[n - 1], start, stop) then [n - 1] else []
  }

  lemma {:induction false} KeptIsRange(freqs: seq<int>, start: int, stop: int, n: nat)
    requires n <= |freqs|
    ensures var at := Kept(freqs, start, stop, n);
      && (forall j, k :: 0 <= j < k < |at| ==> at[j] < at[k])
      && (forall i: nat :: i in at <==> i < n && start <= freqs[i] <= stop)
  {
    if n > 0 {
      KeptIsRange(freqs, start, stop, n - 1);
    }
  }

  function Pick<T>(s: seq<T>, at: seq<nat>): (t: seq<T>)
    requires forall k :: 0 <= k < |at| ==> at[k] < |s|
    ensures |t| == |at|
  {
    seq(|at|, k requires 0 <= k < |at| => s[at[k]])
  }

  function InRangeFreqs(freqs: seq<int>, start: int, stop: int): seq<int> {
    Pick(freqs, Kept(freqs, start, stop, |freqs|))
  }

  function InRangeValues(freqs: seq<int>, values: seq<real>, start: int, stop: int): seq<real>
    requires |freqs| == |values|
  {
    Pick(values, Kept(freqs, start, stop, |freqs|))
  }

  /** The points in range, in order. */
  method Filter(freqs: seq<int>, values: seq<real>, start: int, stop: int) returns (outF: seq<int>, outV: seq<real>)
    requires |freqs| == |values|
    ensures outF == InRangeFreqs(freqs, start, stop) && outV == InRangeValues(freqs, values, start, stop)
    ensures var at := Kept(freqs, start, stop, |freqs|);
      && |outF| == |outV| == |at|
      && forall k :: 0 <= k < |at| ==> outF[k] == freqs[at[k]] && outV[k] == values[at[k]]
  {
    outF, outV := [], [];
    for i := 0 to |freqs|
      invariant outF == Pick(freqs, Kept(freqs, start, stop, i)) && outV == Pick(values, Kept(freqs, start, stop, i))
    {
      if InRange(freqs[i], start, stop) {
        outF, outV := outF + [freqs[i]], outV + [values[i]];
      }
    }
  }

  /** `f` is where the in-range values first take their least value `v` (or greatest, with `sign` -1). */
  ghost predicate FirstExtreme(freqs: seq<int>, values: seq<real>, start: int, stop: int, v: real, f: int, sign: real)
    requires |freqs| == |values|
  {
    exists i :: 0 <= i < |freqs| && InRange(freqs[i], start, stop) && freqs[i] == f && values[i] == v
      && (forall j :: 0 <= j < |freqs| && InRange(freqs[j], start, stop) ==> sign * v <= sign * values[j])
      && (forall j :: 0 <= j < i && InRange(freqs[j], start, stop) ==> values[j] != v)
  }

  // ---- sorting and the median ---------------------------------------------------------------------------

  predicate Sorted(s: seq<real>) {
    forall i, j :: 0 <= i <= j < |s| ==> s[i] <= s[j]
  }

  /** `sorted(s)`: each value goes before the first larger one. */
  function Insert(s: seq<real>, x: real): seq<real> {
    if s == [] then [x]
    else if s[|s| - 1] <= x then s + [x]
    else Insert(s[..|s| - 1], x) + [s[|s| - 1]]
  }

  function Sort(s: seq<real>): (t: seq<real>) {
    if s == [] then [] else Insert(Sort(s[..|s| - 1]), s[|s| - 1])
  }

  function Median(s: seq<real>): real
    requires s != []
  {
    SortIsPermutation(s);
    var t, n := Sort(s), |s|;
    if n % 2 == 1 then t[n / 2] else (t[n / 2 - 1] + t[n / 2]) / 2.0
  }

  predicate AtMost(s: seq<real>, hi: real) {
    forall i :: 0 <= i < |s| ==> s[i] <= hi
  }

  lemma {:induction false} InsertAtMost(s: seq<real>, x: real, hi: real)
    requires AtMost(s, hi) && x <= hi
    ensures AtMost(Insert(s, x), hi)
  {
    if s != [] && s[|s| - 1] > x {
      InsertAtMost(s[..|s| - 1], x, hi);
    }
  }

  lemma {:induction false} InsertKeepsSorted(s: seq<real>, x: real)
    requires Sorted(s)
    ensures Sorted(Insert(s, x))
  {
    if s != [] && s[|s| - 1] > x {
      var init, last := s[..|s| - 1], s[|s| - 1];
      InsertKeepsSorted(init, x);
      InsertAtMost(init, x, last);
    }
  }

  lemma {:induction false} InsertAdds(s: seq<real>, x: real)
    ensures multiset(Insert(s, x)) == multiset(s) + multiset{x}
  {
    if s != [] && s[|s| - 1] > x {
      InsertAdds(s[..|s| - 1], x);
      assert s == s[..|s| - 1] + [s[|s| - 1]];
    }
  }

  lemma {:induction false} SortIsPermutation(s: seq<real>)
    ensures Sorted(Sort(s)) && multiset(Sort(s)) == multiset(s) && |Sort(s)| == |s|
  {
    if s != [] {
      SortIsPermutation(s[..|s| - 1]);
      InsertKeepsSorted(Sort(s[..|s| - 1]), s[|s| - 1]);
      InsertAdds(Sort(s[..|s| - 1]), s[|s| - 1]);
      assert s == s[..|s| - 1] + [s[|s| - 1]];
    }
    assert |multiset(Sort(s))| == |multiset(s)|;
  }

  /** The median lies between the extremes, and no more than half of the sorted values lie on either side of it. */
  lemma MedianSplitsValues(s: seq<real>)
    requires s != []
    ensures var t := Sort(s);
      && multiset(t) == multiset(s) && |t| == |s|
      && (forall i :: 0 <= i < |t| && t[i] < Median(s) ==> i < |t| / 2)
      && (forall i :: 0 <= i < |t| && t[i] > Median(s) ==> i >= (|t| + 1) / 2)
    ensures forall lo, hi :: Within(s, lo, hi) ==> lo <= Median(s) <= hi
  {
    SortIsPermutation(s);
    forall lo, hi | Within(s, lo, hi) ensures lo <= Median(s) <= hi {
      SortedWithin(s, lo, hi);
    }
  }

  lemma LastRemoved(s: seq<real>)
    requires s != [] && Sorted(s)
    ensures Sorted(s[..|s| - 1]) && multiset(s[..|s| - 1]) == multiset(s) - multiset{s[|s| - 1]}
  {
    assert s == s[..|s| - 1] + [s[|s| - 1]];
  }

  lemma SameLast(s: seq<real>, t: seq<real>)
    requires s != [] && t != [] && Sorted(s) && Sorted(t) && multiset(s) == multiset(t)
    ensures s[|s| - 1] == t[|t| - 1]
  {
    var x, y := s[|s| - 1], t[|t| - 1];
    assert x in multiset(s) && y in multiset(t);
    assert x in t && y in s;
  }

  /** Sorted sequences with the same elements are the same. */
  lemma {:induction false} SortedUnique(s: seq<real>, t: seq<real>)
    requires Sorted(s) && Sorted(t) && multiset(s) == multiset(t)
    ensures s == t
  {
    assert |s| == |multiset(s)| && |t| == |multiset(t)|;
    if s != [] {
      SameLast(s, t);
      LastRemoved(s);
      LastRemoved(t);
      SortedUnique(s[..|s| - 1], t[..|t| - 1]);
      assert s == s[..|s| - 1] + [s[|s| - 1]] && t == t[..|t| - 1] + [t[|t| - 1]];
    }
  }

  /** The median, by any sorted arrangement of the values: the middle one, or half the sum of the middle two. */
  lemma MedianOfSorted(s: seq<real>, t: seq<real>)
    requires s != [] && Sorted(t) && multiset(t) == multiset(s)
    ensures |t| == |s| && 2.0 * Median(s) == t[(|s| - 1) / 2] + t[|s| / 2]
  {
    SortIsPermutation(s);
    SortedUnique(t, Sort(s));
    assert if |s| % 2 == 1 then (|s| - 1) / 2 == |s| / 2 else (|s| - 1) / 2 == |s| / 2 - 1;
  }

  lemma SortedWithin(s: seq<real>, lo: real, hi: real)
    requires Within(s, lo, hi)
    ensures Within(Sort(s), lo, hi)
  {
    SortIsPermutation(s);
    var t := Sort(s);
    forall i | 0 <= i < |t| ensures lo <= t[i] <= hi {
      assert t[i] in multiset(t);
      assert t[i] in s;
    }
  }

  // ---- the report, assembled --------------------------------------------------------------------------------

  /** The loop that tracks both extremes and the frequency at which each is first taken. */
  method Extremes(freqs: seq<int>, vals: seq<real>) returns (vmin: real, fmin: int, vmax: real, fmax: int, ghost i: nat, ghost j: nat)
    requires |freqs| == |vals| > 0
    ensures i < |vals| && vmin == vals[i] && fmin == freqs[i] && IsMinimum(vals, vmin)
    ensures forall k :: 0 <= k < i ==> vals[k] > vmin
    ensures j < |vals| && vmax == vals[j] && fmax == freqs[j] && IsMaximum(vals, vmax)
    ensures forall k :: 0 <= k < j ==> vals[k] < vmax
  {
    vmin, fmin, vmax, fmax, i, j := vals[0], freqs[0], vals[0], freqs[0], 0, 0;
    for n := 0 to |vals|
      invariant i < |vals| && vmin == vals[i] && fmin == freqs[i]
      invariant j < |vals| && vmax == vals[j] && fmax == freqs[j]
      invariant forall k :: 0 <= k < n ==> vmin <= vals[k] <= vmax
      invariant (forall k :: 0 <= k < i ==> vals[k] > vmin) && (forall k :: 0 <= k < j ==> vals[k] < vmax)
      invariant n == 0 ==> i == 0 && j == 0
      invariant n > 0 ==> i < n && j < n
    {
      if vals[n] < vmin {
        vmin, fmin, i := vals[n], freqs[n], n;
      }
      if vals[n] > vmax {
        vmax, fmax, j := vals[n], freqs[n], n;
      }
    }
  }

  /** Whether the report exists for these in-range values; otherwise ValueError. */
  ghost predicate Reportable(m: Math, vals: seq<real>, u: Unit) {
    && vals != [] && Mean(LinearAll(m, vals, u)) > 0.0
    && exists lo, hi :: IsMinimum(vals, lo) && IsMaximum(vals, hi) && Linear(m, lo, u) > 0.0 && Linear(m, hi, u) > 0.0
  }

  lemma ReportableIfRatiosExist(m: Math, vals: seq<real>, u: Unit, lo: real, hi: real)
    requires vals != [] && IsMinimum(vals, lo) && IsMaximum(vals, hi)
    ensures Reportable(m, vals, u) <==> Papr(m, vals, u).Some? && Flatness(m, lo, hi, u).Some?
  {
  }

  method ComputeStats(m: Math, freqs: seq<int>, values: seq<real>, u: Unit, start: int, stop: int)
    returns (r: Result<Report, StatsError>)
    ensures freqs == [] || |freqs| != |values| ==> r == Err(ValueError)
    ensures freqs != [] && |freqs| == |values| ==>
      var vals := InRangeValues(freqs, values, start, stop);
      r.Ok? <==> Reportable(m, vals, u)
    ensures r.Ok? ==>
      && |freqs| == |values|
      && var fs, vals := InRangeFreqs(freqs, start, stop), InRangeValues(freqs, values, start, stop);
      && vals != []
      && r.value.occupiedBandwidth == Bandwidth(fs, LinearAll(m, vals, u))
      && r.value.average == Average(m, vals, u) && r.value.median == Median(vals)
      && r.value.channelPower == ChannelPower(m, vals, u)
      && Some(r.value.papr) == Papr(m, vals, u)
      && Some(r.value.flatness) == Flatness(m, r.value.minimum, r.value.maximum, u)
      && IsMinimum(vals, r.value.minimum) && IsMaximum(vals, r.value.maximum)
      && FirstExtreme(freqs, values, start, stop, r.value.minimum, r.value.minFreq, 1.0)
      && FirstExtreme(freqs, values, start, stop, r.value.maximum, r.value.maxFreq, -1.0)
  {
    if freqs == [] || |freqs| != |values| {
      return Err(ValueError);
    }
    var fs, vals := Filter(freqs, values, start, stop);
    if fs == [] {
      return Err(ValueError);
    }
    var vmin, fmin, vmax, fmax, i, j := Extremes(fs, vals);
    ExtremeInSource(freqs, values, start, stop, i, 1.0);
    ExtremeInSource(freqs, values, start, stop, j, -1.0);
    ReportableIfRatiosExist(m, vals, u, vmin, vmax);
    var width := OccupiedBandwidth(fs, LinearAll(m, vals, u));
    var papr := Papr(m, vals, u);
    if papr.None? {
      return Err(ValueError);
    }
    var flatness := Flatness(m, vmin, vmax, u);
    if flatness.None? {
      return Err(ValueError);
    }
    r := Ok(Report(Average(m, vals, u), Median(vals), vmin, fmin, vmax, fmax,
                   ChannelPower(m, vals, u), width, papr.value, flatness.value));
  }

  /** The first extreme among the selected values is the first extreme in range among all of them. */
  lemma ExtremeInSource(freqs: seq<int>, values: seq<real>, start: int, stop: int, i: nat, sign: real)
    requires |freqs| == |values| && i < |InRangeValues(freqs, values, start, stop)|
    requires var vs := InRangeValues(freqs, values, start, stop);
      && (forall k :: 0 <= k < |vs| ==> sign * vs[i] <= sign * vs[k])
      && (forall k :: 0 <= k < i ==> vs[k] != vs[i])
    ensures FirstExtreme(freqs, values, start, stop, InRangeValues(freqs, values, start, stop)[i],
                         InRangeFreqs(freqs, start, stop)[i], sign)
  {
    var at := Kept(freqs, start, stop, |freqs|);
    KeptIsRange(freqs, start, stop, |freqs|);
    var vs := InRangeValues(freqs, values, start, stop);
    assert at[i] in at;
    forall j: nat | j < |freqs| && InRange(freqs[j], start, stop)
      ensures sign * vs[i] <= sign * values[j] && (j < at[i] ==> values[j] != vs[i])
    {
      assert j in at;
      var k :| 0 <= k < |at| && at[k] == j;
      assert vs[k] == values[j];
      if i < k {
        assert at[i] < at[k];
      }
    }
  }
}

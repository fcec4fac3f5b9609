/** Quality classification and observation filtering for one pixel's time
    series (ccd/qa.py): decoding bit-packed QA codes, label masks, counts and
    ratios, the saturation / thermal / median-green filters, the duplicate-date
    mask and the three filtering procedures built from them.

    Observations are band-major: `observations[b][i]` is band `b` at
    observation `i`; rows 0..5 are the optical bands, the thermal and green
    rows are named by `Params`.
 */
module Qa {
  import opened BoolMasks

  /** The configuration values the source takes from `ccd.app.params`. */
  datatype Params = Params(
    qaFill: nat, qaClear: nat, qaWater: nat, qaShadow: nat, qaSnow: nat, qaCloud: nat,
    thermalIdx: nat, greenIdx: nat, medianGreenFilter: int)

  datatype QaError = UnsupportedQa(packedint: nat)

  datatype Result<T> = Ok(value: T) | Err(error: QaError)

  /** Scaled reflectance bounds: a band value is unsaturated strictly inside (0, 10000). */
  const SaturationMax: int := 10000
  /** Default thermal bounds in scaled degrees Celsius, (-93.2C, 70.7C) unscaled. */
  const ThermalMinCelsius: int := -9320
  const ThermalMaxCelsius: int := 7070

  /** The six QA offsets in the order the decoder tests them:
      fill > cloud > shadow > snow > water > clear. */
  function Priority(p: Params): (order: seq<nat>)
    ensures |order| == 6
  {
    [p.qaFill, p.qaCloud, p.qaShadow, p.qaSnow, p.qaWater, p.qaClear]
  }

  predicate DistinctOffsets(p: Params)
  {
    forall i, j :: 0 <= i < j < 6 ==> Priority(p)[i] != Priority(p)[j]
  }

  // ---------------------------------------------------------------------------
  // Bit tests

  function Pow2(k: nat): (r: nat)
    ensures r >= 1
  {
    if k == 0 then 1 else 2 * Pow2(k - 1)
  }

  /** Bitwise `a & b` on non-negative integers. */
  function BitAnd(a: nat, b: nat): (r: nat)
    ensures r <= a && r <= b
    decreases a
  {
    if a == 0 || b == 0 then 0
    else 2 * BitAnd(a / 2, b / 2) + (if a % 2 == 1 && b % 2 == 1 then 1 else 0)
  }

  lemma DivTwice(x: nat, q: nat)
    requires q >= 1
    ensures x / (2 * q) == (x / 2) / q
  {
    var d, r := (x / 2) / q, (x / 2) % q;
    assert x / 2 == q * d + r;
    assert x == (2 * q) * d + (2 * r + x % 2);
    assert 0 <= 2 * r + x % 2 < 2 * q;
    DivUnique(x, 2 * q, d, 2 * r + x % 2);
  }

  lemma DivUnique(x: nat, q: nat, d: nat, r: nat)
    requires q >= 1 && r < q && x == q * d + r
    ensures x / q == d
  {
    var d', r' := x / q, x % q;
    MulMonotone(q, d', d + 1);
    MulMonotone(q, d, d' + 1);
  }

  /** Multiplying by a positive factor preserves the order. */
  lemma MulMonotone(q: nat, a: nat, b: nat)
    ensures q >= 1 && a >= b ==> q * a >= q * b
  {
  }

  /** `x & (1 << k)` is either 0 or `1 << k`, according to bit `k` of `x`. */
  lemma {:induction false} BitAndPow2(x: nat, k: nat)
    ensures BitAnd(x, Pow2(k)) == Pow2(k) * ((x / Pow2(k)) % 2)
  {
    var big := Pow2(k);
    if k == 0 {
      BitAndOne(x);
    } else if x == 0 {
      assert BitAnd(x, big) == 0;
      assert x / big == 0;
    } else {
      var half := Pow2(k - 1);
      assert big == 2 * half;
      var bit := (x / big) % 2;
      calc {
        BitAnd(x, big);
        { BitAndEven(x, big); assert big / 2 == half; }
        2 * BitAnd(x / 2, half);
        { BitAndPow2(x / 2, k - 1); }
        2 * (half * (((x / 2) / half) % 2));
        { DivTwice(x, half); }
        2 * (half * bit);
        { DoubleProduct(half, bit); }
        big * bit;
      }
    }
  }

  lemma BitAndOne(x: nat)
    ensures BitAnd(x, 1) == x % 2
  {
    if x > 0 {
      assert BitAnd(x / 2, 0) == 0;
    }
  }

  lemma BitAndEven(x: nat, b: nat)
    requires x > 0 && b > 0 && b % 2 == 0
    ensures BitAnd(x, b) == 2 * BitAnd(x / 2, b / 2)
  {
  }

  lemma DoubleProduct(a: nat, b: nat)
    ensures 2 * (a * b) == (2 * a) * b
  {
  }

  /** checkbit: `(packedint & (1 << offset)) > 0`, which is exactly bit `offset` of `packedint`. */
  function CheckBit(packedint: nat, offset: nat): (isSet: bool)
    ensures isSet <==> (packedint / Pow2(offset)) % 2 == 1
  {
    BitAndPow2(packedint, offset);
    BitAnd(packedint, Pow2(offset)) > 0
  }

  lemma {:induction false} Pow2Add(a: nat, b: nat)
    ensures Pow2(a + b) == Pow2(a) * Pow2(b)
  {
    if a > 0 {
      Pow2Add(a - 1, b);
    }
  }

  /** The code `1 << o` has bit `j` set exactly when `j == o`. */
  lemma CheckBitPow2(o: nat, j: nat)
    ensures CheckBit(Pow2(o), j) <==> j == o
  {
    if j <= o {
      Pow2Add(j, o - j);
      DivUnique(Pow2(o), Pow2(j), Pow2(o - j), 0);
    } else {
      Pow2Add(o, j - o);
      assert Pow2(o) < Pow2(j);
      DivUnique(Pow2(o), Pow2(j), 0, Pow2(o));
    }
  }

  // ---------------------------------------------------------------------------
  // Decoding

  /** qabitval: the first offset, in priority order, whose bit is set; an
      error when none of the six configured bits is set. */
  function QaBitVal(packedint: nat, p: Params): (r: Result<nat>)
    ensures r.Ok? <==> exists k :: 0 <= k < 6 && CheckBit(packedint, Priority(p)[k])
    ensures r.Ok? ==> exists k :: 0 <= k < 6 && r.value == Priority(p)[k] && CheckBit(packedint, r.value)
                                   && forall j :: 0 <= j < k ==> !CheckBit(packedint, Priority(p)[j])
    ensures CheckBit(packedint, p.qaFill) ==> r == Ok(p.qaFill)
    ensures r.Err? ==> r.error == UnsupportedQa(packedint)
  {
    var order := Priority(p);
    assert order[0] == p.qaFill && order[1] == p.qaCloud && order[2] == p.qaShadow
        && order[3] == p.qaSnow && order[4] == p.qaWater && order[5] == p.qaClear;
    if CheckBit(packedint, p.qaFill) then Ok(p.qaFill)
    else if CheckBit(packedint, p.qaCloud) then Ok(p.qaCloud)
    else if CheckBit(packedint, p.qaShadow) then Ok(p.qaShadow)
    else if CheckBit(packedint, p.qaSnow) then Ok(p.qaSnow)
    else if CheckBit(packedint, p.qaWater) then Ok(p.qaWater)
    else if CheckBit(packedint, p.qaClear) then Ok(p.qaClear)
    else Err(UnsupportedQa(packedint))
  }

  /** A code with exactly one configured bit set decodes to the label owning
      that bit, whatever unconfigured bits it also carries. */
  lemma OneConfiguredBitCode(c: nat, p: Params, k: nat)
    requires k < 6 && CheckBit(c, Priority(p)[k])
    requires forall j :: 0 <= j < 6 && j != k ==> !CheckBit(c, Priority(p)[j])
    ensures QaBitVal(c, p) == Ok(Priority(p)[k])
  {
  }

  /** The code `1 << o` of a configured offset decodes to that offset. */
  lemma SingleBitCode(p: Params, k: nat)
    requires DistinctOffsets(p) && k < 6
    ensures QaBitVal(Pow2(Priority(p)[k]), p) == Ok(Priority(p)[k])
  {
    var o := Priority(p)[k];
    forall j | 0 <= j < 6
      ensures CheckBit(Pow2(o), Priority(p)[j]) <==> j == k
    {
      CheckBitPow2(o, Priority(p)[j]);
    }
    OneConfiguredBitCode(Pow2(o), p, k);
  }

  /** unpackqa: decode every code, failing on the first code that does not decode. */
  function UnpackQa(quality: seq<nat>, p: Params): (r: Result<seq<nat>>)
    ensures r.Ok? <==> forall i :: 0 <= i < |quality| ==> QaBitVal(quality[i], p).Ok?
    ensures r.Ok? ==> |r.value| == |quality|
    ensures r.Ok? ==> forall i :: 0 <= i < |quality| ==> r.value[i] == QaBitVal(quality[i], p).value
    ensures r.Err? ==> exists i :: 0 <= i < |quality| && QaBitVal(quality[i], p).Err?
                                   && r.error == UnsupportedQa(quality[i])
                                   && forall j :: 0 <= j < i ==> QaBitVal(quality[j], p).Ok?
  {
    if |quality| == 0 then Ok([])
    else
      match QaBitVal(quality[0], p)
      case Err(e) => Err(e)
      case Ok(v) =>
        match UnpackQa(quality[1..], p)
        case Err(e) => Err(e)
        case Ok(vs) => Ok([v] + vs)
  }

  // ---------------------------------------------------------------------------
  // Label masks, counts and ratios (over decoded quality values)

  /** mask_snow, mask_clear, mask_water, mask_fill: `quality == label`. */
  function MaskLabel(quality: seq<nat>, offset: nat): (m: seq<bool>)
    ensures |m| == |quality|
    ensures forall i :: 0 <= i < |m| ==> (m[i] <==> quality[i] == offset)
  {
    seq(|quality|, i requires 0 <= i < |quality| => quality[i] == offset)
  }

  function MaskClearOrWater(quality: seq<nat>, p: Params): (m: seq<bool>)
    ensures |m| == |quality|
    ensures forall i :: 0 <= i < |m| ==> (m[i] <==> quality[i] == p.qaClear || quality[i] == p.qaWater)
  {
    Or(MaskLabel(quality, p.qaClear), MaskLabel(quality, p.qaWater))
  }

  /** count_clear_or_water sums the clear mask and the water mask separately;
      with distinct offsets that is the size of the clear-or-water mask. */
  function CountClearOrWater(quality: seq<nat>, p: Params): (c: nat)
    ensures p.qaClear != p.qaWater ==> c == Count(MaskClearOrWater(quality, p))
  {
    var clear, water := MaskLabel(quality, p.qaClear), MaskLabel(quality, p.qaWater);
    assert p.qaClear != p.qaWater ==> Count(Or(clear, water)) == Count(clear) + Count(water) by {
      if p.qaClear != p.qaWater {
        CountOrDisjoint(clear, water);
      }
    }
    Count(clear) + Count(water)
  }

  function CountFill(quality: seq<nat>, p: Params): (c: nat)
    ensures c <= |quality|
    ensures c == 0 <==> forall i :: 0 <= i < |quality| ==> quality[i] != p.qaFill
  {
    Count(MaskLabel(quality, p.qaFill))
  }

  function CountSnow(quality: seq<nat>, p: Params): (c: nat)
    ensures c <= |quality|
    ensures c == 0 <==> forall i :: 0 <= i < |quality| ==> quality[i] != p.qaSnow
  {
    Count(MaskLabel(quality, p.qaSnow))
  }

  /** count_total: the non-fill observations. */
  function CountTotal(quality: seq<nat>, p: Params): (c: nat)
    ensures c == |quality| - CountFill(quality, p)
  {
    CountNot(MaskLabel(quality, p.qaFill));
    Count(Not(MaskLabel(quality, p.qaFill)))
  }

  /** With distinct offsets, no observation is both clear-or-water and fill. */
  lemma ClearOrWaterWithinTotal(quality: seq<nat>, p: Params)
    requires DistinctOffsets(p)
    ensures CountClearOrWater(quality, p) <= CountTotal(quality, p)
  {
    assert Priority(p)[5] != Priority(p)[4] && Priority(p)[0] != Priority(p)[5] && Priority(p)[0] != Priority(p)[4];
    CountMonotone(MaskClearOrWater(quality, p), Not(MaskLabel(quality, p.qaFill)));
  }

  /** x / y >= t exactly when x >= t * y, for a positive denominator. */
  lemma RatioAtLeast(x: real, y: real, t: real)
    requires y > 0.0
    ensures x / y >= t <==> x >= t * y
  {
    var q := x / y;
    assert q * y == x;
    if q >= t {
      assert q * y >= t * y;
    } else {
      assert q * y < t * y;
    }
  }

  /** Bounds of a ratio of a non-negative numerator over a positive denominator. */
  lemma RatioBounds(x: real, y: real)
    requires x >= 0.0 && y > 0.0
    ensures x / y >= 0.0
    ensures x / y == 0.0 <==> x == 0.0
    ensures x <= y ==> x / y <= 1.0
    ensures x < y ==> x / y < 1.0
  {
    var q := x / y;
    assert q * y == x;
  }

  /** ratio_clear: clear-or-water over non-fill observations; the source divides
      by zero on an all-fill series, which this model excludes. */
  function RatioClear(quality: seq<nat>, p: Params): (r: real)
    requires CountTotal(quality, p) > 0
    ensures 0.0 <= r
    ensures r == 0.0 <==> CountClearOrWater(quality, p) == 0
    ensures DistinctOffsets(p) ==> r <= 1.0
  {
    var c, t := CountClearOrWater(quality, p), CountTotal(quality, p);
    assert DistinctOffsets(p) ==> c <= t by {
      if DistinctOffsets(p) {
        ClearOrWaterWithinTotal(quality, p);
      }
    }
    RatioBounds(c as real, t as real);
    c as real / t as real
  }

  /** The smoothed denominator of ratio_snow: clear-or-water + snow + 0.01. */
  function SnowDenominator(quality: seq<nat>, p: Params): (d: real)
    ensures d >= 0.01 && d > CountSnow(quality, p) as real
  {
    CountClearOrWater(quality, p) as real + CountSnow(quality, p) as real + 0.01
  }

  /** ratio_snow: snow over clear-or-water plus snow, smoothed by 0.01 so that it
      is always defined. */
  function RatioSnow(quality: seq<nat>, p: Params): (r: real)
    ensures 0.0 <= r < 1.0
    ensures r == 0.0 <==> CountSnow(quality, p) == 0
  {
    var s := CountSnow(quality, p) as real;
    RatioBounds(s, SnowDenominator(quality, p));
    s / SnowDenominator(quality, p)
  }

  /** enough_clear: ratio_clear >= threshold, i.e. enough clear-or-water observations among the non-fill ones. */
  function EnoughClear(quality: seq<nat>, threshold: real, p: Params): (b: bool)
    requires CountTotal(quality, p) > 0
    ensures b <==> CountClearOrWater(quality, p) as real >= threshold * CountTotal(quality, p) as real
  {
    RatioAtLeast(CountClearOrWater(quality, p) as real, CountTotal(quality, p) as real, threshold);
    RatioClear(quality, p) >= threshold
  }

  /** enough_snow: ratio_snow >= threshold. */
  function EnoughSnow(quality: seq<nat>, threshold: real, p: Params): (b: bool)
    ensures b <==> CountSnow(quality, p) as real >= threshold * SnowDenominator(quality, p)
  {
    RatioAtLeast(CountSnow(quality, p) as real, SnowDenominator(quality, p), threshold);
    RatioSnow(quality, p) >= threshold
  }

  // ---------------------------------------------------------------------------
  // Range filters

  /** filter_median_green: green values below median(green) + filter_range;
      the median is computed by `calcMedian` (ccd.math_utils.calc_median). */
  function FilterMedianGreen(green: seq<int>, filterRange: int, calcMedian: seq<int> -> real): (m: seq<bool>)
    ensures |m| == |green|
    ensures forall i :: 0 <= i < |m| ==> (m[i] <==> green[i] as real < calcMedian(green) + filterRange as real)
  {
    var limit := calcMedian(green) + filterRange as real;
    seq(|green|, i requires 0 <= i < |green| => green[i] as real < limit)
  }

  /** The positions whose value is at most `m`. */
  function AtMost(v: seq<int>, m: real): (r: seq<bool>)
    ensures |r| == |v|
    ensures forall i :: 0 <= i < |r| ==> (r[i] <==> v[i] as real <= m)
  {
    seq(|v|, i requires 0 <= i < |v| => v[i] as real <= m)
  }

  /** When the median really has at least half of the values at or below it
      and the range is positive, the median-green filter keeps at least half. */
  lemma MedianGreenKeepsHalf(green: seq<int>, filterRange: int, calcMedian: seq<int> -> real)
    requires filterRange > 0
    requires 2 * Count(AtMost(green, calcMedian(green))) >= |green|
    ensures 2 * Count(FilterMedianGreen(green, filterRange, calcMedian)) >= |green|
  {
    CountMonotone(AtMost(green, calcMedian(green)), FilterMedianGreen(green, filterRange, calcMedian));
  }

  /** One band row strictly inside (0, 10000). */
  function RowUnsaturated(row: seq<int>): (m: seq<bool>)
    ensures |m| == |row|
    ensures forall i :: 0 <= i < |m| ==> (m[i] <==> 0 < row[i] < SaturationMax)
  {
    seq(|row|, i requires 0 <= i < |row| => 0 < row[i] && row[i] < SaturationMax)
  }

  /** The observation matrix has the six optical rows plus the thermal row
      named by `p`, each holding `n` observations. */
  predicate WellShaped(observations: seq<seq<int>>, n: nat, p: Params)
  {
    && |observations| >= 6
    && p.thermalIdx < |observations|
    && forall b :: 0 <= b < |observations| ==> |observations[b]| == n
  }

  /** filter_saturated: every one of rows 0..5 strictly inside (0, 10000). */
  function FilterSaturated(observations: seq<seq<int>>, n: nat): (m: seq<bool>)
    requires |observations| >= 6 && forall b :: 0 <= b < 6 ==> |observations[b]| == n
    ensures |m| == n
    ensures forall i :: 0 <= i < n ==>
              (m[i] <==> forall b :: 0 <= b < 6 ==> 0 < observations[b][i] < SaturationMax)
  {
    var m := And(And(And(And(And(RowUnsaturated(observations[1]), RowUnsaturated(observations[2])),
                                 RowUnsaturated(observations[3])), RowUnsaturated(observations[4])),
                     RowUnsaturated(observations[5])), RowUnsaturated(observations[0]));
    assert forall i :: 0 <= i < n ==>
             (m[i] <==> forall b :: 0 <= b < 6 ==> RowUnsaturated(observations[b])[i]);
    m
  }

  /** filter_thermal_celsius: thermal strictly inside (minCelsius, maxCelsius). */
  function FilterThermalCelsius(thermal: seq<int>, minCelsius: int, maxCelsius: int): (m: seq<bool>)
    ensures |m| == |thermal|
    ensures forall i :: 0 <= i < |m| ==> (m[i] <==> minCelsius < thermal[i] < maxCelsius)
  {
    seq(|thermal|, i requires 0 <= i < |thermal| => minCelsius < thermal[i] && thermal[i] < maxCelsius)
  }

  // ---------------------------------------------------------------------------
  // Duplicate dates

  /** The mask mask_duplicate_values produces: true at the first occurrence of each value. */
  function FirstOccurrences(v: seq<int>): (m: seq<bool>)
    ensures |m| == |v|
    ensures forall i, j :: 0 <= i < j < |m| && m[i] && m[j] ==> v[i] != v[j]
  {
    seq(|v|, i requires 0 <= i < |v| => v[i] !in v[..i])
  }

  function Values(v: seq<int>): (vals: set<int>)
  {
    set x | x in v
  }

  /** The duplicate mask keeps one position per distinct value. */
  lemma {:induction false} FirstOccurrencesCount(v: seq<int>)
    ensures Count(FirstOccurrences(v)) == |Values(v)|
  {
    if |v| > 0 {
      var n := |v| - 1;
      FirstOccurrencesCount(v[..n]);
      FirstOccurrencesSnoc(v);
      ValuesSnoc(v);
    }
  }

  lemma FirstOccurrencesSnoc(v: seq<int>)
    requires |v| > 0
    ensures Count(FirstOccurrences(v)) == Count(FirstOccurrences(v[..|v| - 1])) + (if v[|v| - 1] in v[..|v| - 1] then 0 else 1)
  {
    var n := |v| - 1;
    assert FirstOccurrences(v)[..n] == FirstOccurrences(v[..n]);
  }

  lemma ValuesSnoc(v: seq<int>)
    requires |v| > 0
    ensures |Values(v)| == |Values(v[..|v| - 1])| + (if v[|v| - 1] in v[..|v| - 1] then 0 else 1)
  {
    var n := |v| - 1;
    assert v == v[..n] + [v[n]];
    assert Values(v) == Values(v[..n]) + {v[n]};
  }

  /** mask_duplicate_values: an all-false mask with the first occurrence of every value switched on. */
  method MaskDuplicateValues(vector: seq<int>) returns (mask: seq<bool>)
    ensures |mask| == |vector|
    ensures forall i :: 0 <= i < |vector| ==> (mask[i] <==> forall j :: 0 <= j < i ==> vector[j] != vector[i])
    ensures mask == FirstOccurrences(vector)
  {
    var a := new bool[|vector|](_ => false);
    var seen: set<int> := {};
    for i := 0 to |vector|
      invariant seen == Values(vector[..i])
      invariant forall p :: 0 <= p < i ==> a[p] == (vector[p] !in vector[..p])
      invariant forall p :: i <= p < a.Length ==> !a[p]
    {
      assert vector[..i + 1] == vector[..i] + [vector[i]];
      if vector[i] !in seen {
        a[i] := true;
        seen := seen + {vector[i]};
      }
    }
    mask := a[..];
  }

  /** What `mask[mask] = mask_duplicate_values(dates[mask])` leaves: a selected
      position stays selected only when no earlier selected position has its date. */
  function KeepFirstDates(base: seq<bool>, dates: seq<int>): (r: seq<bool>)
    requires |base| == |dates|
    ensures |r| == |base|
    ensures forall i :: 0 <= i < |r| && r[i] ==> base[i]
    ensures forall i, j :: 0 <= i < j < |r| && r[i] && r[j] ==> dates[i] != dates[j]
  {
    seq(|base|, i requires 0 <= i < |base| => base[i] && forall j :: 0 <= j < i && base[j] ==> dates[j] != dates[i])
  }

  /** Every date that occurs at a selected position is kept, at or before that position. */
  lemma {:induction false} KeepFirstDatesCovers(base: seq<bool>, dates: seq<int>, i: nat)
    requires |base| == |dates| && i < |base| && base[i]
    ensures exists k :: 0 <= k <= i && KeepFirstDates(base, dates)[k] && dates[k] == dates[i]
    decreases i
  {
    if !KeepFirstDates(base, dates)[i] {
      var j :| 0 <= j < i && base[j] && dates[j] == dates[i];
      KeepFirstDatesCovers(base, dates, j);
    }
  }

  /** A selection whose dates are already distinct is left as it is. */
  lemma KeepFirstDatesOfDistinct(base: seq<bool>, dates: seq<int>)
    requires |base| == |dates|
    requires forall i, j :: 0 <= i < j < |base| && base[i] && base[j] ==> dates[i] != dates[j]
    ensures KeepFirstDates(base, dates) == base
  {
  }

  /** Deduplicating twice is deduplicating once. */
  lemma KeepFirstDatesIdempotent(base: seq<bool>, dates: seq<int>)
    requires |base| == |dates|
    ensures KeepFirstDates(KeepFirstDates(base, dates), dates) == KeepFirstDates(base, dates)
  {
    KeepFirstDatesOfDistinct(KeepFirstDates(base, dates), dates);
  }

  /** The numpy idiom computes KeepFirstDates: dedupe the selected dates, then
      write the result back through the selection. */
  lemma KeepFirstDatesIsScatter(base: seq<bool>, dates: seq<int>)
    requires |base| == |dates|
    ensures Scatter(base, FirstOccurrences(Select(dates, base))) == KeepFirstDates(base, dates)
  {
    var sel := Select(dates, base);
    var r := Scatter(base, FirstOccurrences(sel));
    forall i | 0 <= i < |base|
      ensures r[i] == KeepFirstDates(base, dates)[i]
    {
      ScatterAt(base, FirstOccurrences(sel), i);
      if base[i] {
        var k := Count(base[..i]);
        SelectAt(dates, base, i);
        SelectContains(dates[..i], base[..i], dates[i]);
        if exists j :: 0 <= j < i && base[j] && dates[j] == dates[i] {
          var j :| 0 <= j < i && base[j] && dates[j] == dates[i];
          assert base[..i][j] && dates[..i][j] == dates[i];
        }
      }
    }
  }

  /** Lines 362-364 (and 391-393, 422-423): `mask[mask] = mask_duplicate_values(dates[mask])`. */
  method DedupeSelected(mask: array<bool>, dates: seq<int>)
    requires mask.Length == |dates|
    modifies mask
    ensures mask[..] == KeepFirstDates(old(mask[..]), dates)
  {
    ghost var base := mask[..];
    var dateMask := MaskDuplicateValues(Select(dates, mask[..]));
    AssignSelected(mask, dateMask);
    KeepFirstDatesIsScatter(base, dates);
  }

  // ---------------------------------------------------------------------------
  // Procedures

  /** clear-or-water, thermal in the default range and unsaturated. */
  function StandardBase(observations: seq<seq<int>>, quality: seq<nat>, p: Params): (m: seq<bool>)
    requires WellShaped(observations, |quality|, p)
    ensures |m| == |quality|
    ensures forall i :: 0 <= i < |m| ==>
              (m[i] <==> && (quality[i] == p.qaClear || quality[i] == p.qaWater)
                         && ThermalMinCelsius < observations[p.thermalIdx][i] < ThermalMaxCelsius
                         && forall b :: 0 <= b < 6 ==> 0 < observations[b][i] < SaturationMax)
  {
    And(And(MaskClearOrWater(quality, p),
            FilterThermalCelsius(observations[p.thermalIdx], ThermalMinCelsius, ThermalMaxCelsius)),
        FilterSaturated(observations, |quality|))
  }

  /** The standard base, or snow whatever its thermal and saturation values. */
  function SnowBase(observations: seq<seq<int>>, quality: seq<nat>, p: Params): (m: seq<bool>)
    requires WellShaped(observations, |quality|, p)
    ensures |m| == |quality|
    ensures forall i :: 0 <= i < |m| ==> (m[i] <==> StandardBase(observations, quality, p)[i] || quality[i] == p.qaSnow)
  {
    Or(StandardBase(observations, quality, p), MaskLabel(quality, p.qaSnow))
  }

  /** standard_procedure_filter. */
  method StandardProcedureFilter(observations: seq<seq<int>>, quality: seq<nat>, dates: seq<int>, p: Params)
    returns (mask: seq<bool>)
    requires |dates| == |quality| && WellShaped(observations, |quality|, p)
    ensures mask == KeepFirstDates(StandardBase(observations, quality, p), dates)
    ensures forall i :: 0 <= i < |mask| && mask[i] ==>
              && (quality[i] == p.qaClear || quality[i] == p.qaWater)
              && ThermalMinCelsius < observations[p.thermalIdx][i] < ThermalMaxCelsius
              && forall b :: 0 <= b < 6 ==> 0 < observations[b][i] < SaturationMax
  {
    var base := StandardBase(observations, quality, p);
    var a := new bool[|base|](i requires 0 <= i < |base| => base[i]);
    assert a[..] == base;
    DedupeSelected(a, dates);
    mask := a[..];
  }

  /** snow_procedure_filter. */
  method SnowProcedureFilter(observations: seq<seq<int>>, quality: seq<nat>, dates: seq<int>, p: Params)
    returns (mask: seq<bool>)
    requires |dates| == |quality| && WellShaped(observations, |quality|, p)
    ensures mask == KeepFirstDates(SnowBase(observations, quality, p), dates)
    ensures forall i :: 0 <= i < |mask| && mask[i] ==>
              StandardBase(observations, quality, p)[i] || quality[i] == p.qaSnow
  {
    var base := SnowBase(observations, quality, p);
    var a := new bool[|base|](i requires 0 <= i < |base| => base[i]);
    assert a[..] == base;
    DedupeSelected(a, dates);
    mask := a[..];
  }

  /** The standard mask further restricted to green below the median of the
      standard-masked green values plus the filter range. */
  function InsufficientClearBase(observations: seq<seq<int>>, quality: seq<nat>, dates: seq<int>,
                                 p: Params, calcMedian: seq<int> -> real): (m: seq<bool>)
    requires |dates| == |quality| && WellShaped(observations, |quality|, p) && p.greenIdx < |observations|
    ensures |m| == |quality|
    ensures forall i :: 0 <= i < |m| && m[i] ==> KeepFirstDates(StandardBase(observations, quality, p), dates)[i]
  {
    var standard := KeepFirstDates(StandardBase(observations, quality, p), dates);
    var green := observations[p.greenIdx];
    var limit := calcMedian(Select(green, standard)) + p.medianGreenFilter as real;
    And(standard, seq(|green|, i requires 0 <= i < |green| => green[i] as real < limit))
  }

  /** insufficient_clear_filter. Line 417 passes `thermal_idx` where
      standard_procedure_filter expects `dates`; the model passes `dates`. */
  method InsufficientClearFilter(observations: seq<seq<int>>, quality: seq<nat>, dates: seq<int>,
                                 p: Params, calcMedian: seq<int> -> real)
    returns (mask: seq<bool>)
    requires |dates| == |quality| && WellShaped(observations, |quality|, p) && p.greenIdx < |observations|
    ensures mask == InsufficientClearBase(observations, quality, dates, p, calcMedian)
    ensures forall i :: 0 <= i < |mask| && mask[i] ==>
              && KeepFirstDates(StandardBase(observations, quality, p), dates)[i]
              && observations[p.greenIdx][i] as real
                 < calcMedian(Select(observations[p.greenIdx], KeepFirstDates(StandardBase(observations, quality, p), dates)))
                   + p.medianGreenFilter as real
  {
    var standard := StandardProcedureFilter(observations, quality, dates, p);
    var green := observations[p.greenIdx];
    var greenMask := FilterMedianGreen(Select(green, standard), p.medianGreenFilter, calcMedian);
    var a := new bool[|standard|](i requires 0 <= i < |standard| => standard[i]);
    assert a[..] == standard;
    // standard_mask[standard_mask] &= green_mask
    var selected := Select(standard, standard);
    AssignSelected(a, And(selected, greenMask));
    ghost var restricted := a[..];
    forall i | 0 <= i < |standard|
      ensures restricted[i] == InsufficientClearBase(observations, quality, dates, p, calcMedian)[i]
    {
      ScatterAt(standard, And(selected, greenMask), i);
      if standard[i] {
        SelectAt(standard, standard, i);
        SelectAt(green, standard, i);
      }
    }
    DedupeSelected(a, dates);
    KeepFirstDatesOfDistinct(restricted, dates);
    mask := a[..];
  }
}

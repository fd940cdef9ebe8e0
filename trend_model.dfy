/**
 * Longitudinal trend detection over a patient's health records (`detect_trends`).
 *
 * Two series are gathered from the records in order, heart rate and systolic
 * pressure, skipping readings that are missing or zero. A series of at least
 * three points whose least-squares slope over x = 0, 1, ..., n-1 exceeds 1
 * yields its message; heart rate is reported before blood pressure.
 *
 * The slope is the exact closed form of the least-squares fit over integers,
 * slope = (n Σxy − Σx Σy) / (n Σx² − (Σx)²), in place of a floating-point fit.
 */
module TrendModel {
  import opened Wrappers
  import opened Schemes

  /** The two vitals a trend is looked for in. */
  datatype Channel = HeartRate | Systolic

  /** The least number of retained points a series needs before its slope is tested. */
  const MinPoints: nat := 3

  const HeartRateTrendMessage: string := "Increasing heart rate trend detected"
  const BloodPressureTrendMessage: string := "Worsening blood pressure trend"

  /** The reading a record holds for a channel. */
  function Reading(r: HealthRecord, c: Channel): Option<int> {
    match c
    case HeartRate => r.vitals.heartRate
    case Systolic => r.vitals.systolic
  }

  /** The series of a channel: its truthy readings, in record order. */
  function Series(rs: seq<HealthRecord>, c: Channel): (ys: seq<int>)
    ensures |ys| <= |rs|
    ensures forall k :: 0 <= k < |ys| ==> ys[k] != 0
  {
    if rs == [] then []
    else
      var last := Reading(rs[|rs| - 1], c);
      Series(rs[..|rs| - 1], c) + (if TruthyInt(last) then [last.value] else [])
  }

  // ---- Least-squares slope over x = 0 .. n-1 ----

  /** Σ x for x in 0 .. n-1. */
  function SumX(n: nat): int {
    if n == 0 then 0 else SumX(n - 1) + (n - 1)
  }

  /** Σ x² for x in 0 .. n-1. */
  function SumXX(n: nat): int {
    if n == 0 then 0 else SumXX(n - 1) + (n - 1) * (n - 1)
  }

  /** Σ y over the series. */
  function SumY(ys: seq<int>): int {
    if ys == [] then 0 else SumY(ys[..|ys| - 1]) + ys[|ys| - 1]
  }

  /** Σ x·y over the series, the x of each point being its position. */
  function SumXY(ys: seq<int>): int {
    if ys == [] then 0 else SumXY(ys[..|ys| - 1]) + (|ys| - 1) * ys[|ys| - 1]
  }

  /** n Σxy − Σx Σy. */
  function SlopeNumerator(ys: seq<int>): int {
    |ys| * SumXY(ys) - SumX(|ys|) * SumY(ys)
  }

  /** n Σx² − (Σx)². */
  function SlopeDenominator(n: nat): int {
    n * SumXX(n) - SumX(n) * SumX(n)
  }

  /** The slope of the least-squares line through (k, ys[k]). */
  function Slope(ys: seq<int>): (r: real)
    requires |ys| >= 2
    ensures r > 1.0 <==> SlopeNumerator(ys) > SlopeDenominator(|ys|)
  {
    DenominatorPositive(|ys|);
    QuotientAboveOne(SlopeNumerator(ys), SlopeDenominator(|ys|));
    SlopeNumerator(ys) as real / SlopeDenominator(|ys|) as real
  }

  /** A series shows a rising trend: enough points, and a slope above 1. */
  predicate Rising(ys: seq<int>) {
    |ys| >= MinPoints && Slope(ys) > 1.0
  }

  /** The trend messages for a list of records: heart rate first, then blood pressure. */
  function Trends(rs: seq<HealthRecord>): (ms: seq<string>)
    ensures |ms| <= 2
    ensures |ms| == 2 ==> ms == [HeartRateTrendMessage, BloodPressureTrendMessage]
  {
    (if Rising(Series(rs, HeartRate)) then [HeartRateTrendMessage] else [])
    + (if Rising(Series(rs, Systolic)) then [BloodPressureTrendMessage] else [])
  }

  /**
   * `detect_trends`: one pass over the records builds both series, then each
   * series long enough has its slope tested.
   */
  method DetectTrends(records: seq<HealthRecord>) returns (trends: seq<string>)
    ensures trends == Trends(records)
    ensures |trends| <= 2
  {
    var heartRates: seq<int> := [];
    var systolicBp: seq<int> := [];

    for i := 0 to |records|
      invariant heartRates == Series(records[..i], HeartRate)
      invariant systolicBp == Series(records[..i], Systolic)
    {
      assert records[..i + 1][..i] == records[..i];
      var r := records[i];
      if TruthyInt(r.vitals.heartRate) {
        heartRates := heartRates + [r.vitals.heartRate.value];
      }
      if TruthyInt(r.vitals.systolic) {
        systolicBp := systolicBp + [r.vitals.systolic.value];
      }
    }
    assert records[..|records|] == records;

    trends := [];

    if |heartRates| >= MinPoints {
      var slope := Slope(heartRates);
      if slope > 1.0 {
        trends := trends + [HeartRateTrendMessage];
      }
    }

    if |systolicBp| >= MinPoints {
      var slope := Slope(systolicBp);
      if slope > 1.0 {
        trends := trends + [BloodPressureTrendMessage];
      }
    }
  }

  // ---- The slope ----

  lemma {:induction false} SumXClosedForm(n: nat)
    ensures 2 * SumX(n) == n * (n - 1)
  {
    if n > 0 {
      SumXClosedForm(n - 1);
    }
  }

  /** Adding a point to the fit grows the denominator by Σx² + n². */
  lemma DenominatorStep(n: nat)
    ensures SlopeDenominator(n + 1) == SlopeDenominator(n) + SumXX(n) + n * n
  {
    SumXClosedForm(n);
    var s1, s2 := SumX(n), SumXX(n);
    assert SumX(n + 1) == s1 + n;
    assert SumXX(n + 1) == s2 + n * n;
    calc {
      SlopeDenominator(n + 1);
      (n + 1) * (s2 + n * n) - (s1 + n) * (s1 + n);
      n * s2 + s2 + n * n * n + n * n - s1 * s1 - 2 * n * s1 - n * n;
      { assert 2 * n * s1 == n * (2 * s1) == n * (n * (n - 1)); }
      n * s2 - s1 * s1 + s2 + n * n;
    }
  }

  /** With two or more points the denominator is positive, so the slope is defined. */
  lemma {:induction false} DenominatorPositive(n: nat)
    ensures n >= 2 ==> SlopeDenominator(n) > 0
    ensures SlopeDenominator(n) >= 0
  {
    if n == 0 {
    } else {
      DenominatorPositive(n - 1);
      DenominatorStep(n - 1);
      SumXXNonNegative(n - 1);
    }
  }

  lemma {:induction false} SumXXNonNegative(n: nat)
    ensures SumXX(n) >= 0
  {
    if n > 0 {
      SumXXNonNegative(n - 1);
    }
  }

  /** The slope exceeds 1 exactly when the numerator exceeds the denominator. */
  lemma SlopeAboveOneIff(ys: seq<int>)
    requires |ys| >= 2
    ensures Slope(ys) > 1.0 <==> SlopeNumerator(ys) > SlopeDenominator(|ys|)
  {
    DenominatorPositive(|ys|);
    QuotientAboveOne(SlopeNumerator(ys), SlopeDenominator(|ys|));
  }

  lemma QuotientAboveOne(num: int, den: int)
    requires den > 0
    ensures num as real / den as real > 1.0 <==> num > den
  {
    var n, d := num as real, den as real;
    var q := n / d;
    QuotientTimesDivisor(n, d);
    ProductAboveDivisor(q, d);
  }

  lemma QuotientTimesDivisor(n: real, d: real)
    requires d > 0.0
    ensures (n / d) * d == n
  {
  }

  lemma ProductAboveDivisor(q: real, d: real)
    requires d > 0.0
    ensures q > 1.0 <==> q * d > d
  {
    if q > 1.0 {
      assert q * d - d == (q - 1.0) * d;
    } else {
      assert d - q * d == (1.0 - q) * d;
    }
  }

  /** The points of the line a + b·x at x = 0 .. n-1. */
  function Line(a: int, b: int, n: nat): (ys: seq<int>)
    ensures |ys| == n
  {
    seq(n, x => a + b * x)
  }

  lemma LineSumsStep(a: int, b: int, m: int, s1: int, s2: int, sy: int, sxy: int)
    requires sy == m * a + b * s1
    requires sxy == a * s1 + b * s2
    ensures sy + (a + b * m) == (m + 1) * a + b * (s1 + m)
    ensures sxy + m * (a + b * m) == a * (s1 + m) + b * (s2 + m * m)
  {
    assert m * (a + b * m) == a * m + b * (m * m);
    assert b * s1 + b * m == b * (s1 + m);
    assert a * s1 + a * m == a * (s1 + m);
    assert b * s2 + b * (m * m) == b * (s2 + m * m);
  }

  lemma {:induction false} LineSums(a: int, b: int, n: nat)
    ensures SumY(Line(a, b, n)) == n * a + b * SumX(n)
    ensures SumXY(Line(a, b, n)) == a * SumX(n) + b * SumXX(n)
  {
    if n > 0 {
      var m := n - 1;
      LineSums(a, b, m);
      var ys := Line(a, b, n);
      assert ys[..m] == Line(a, b, m);
      assert ys[m] == a + b * m;
      LineSumsStep(a, b, m, SumX(m), SumXX(m), SumY(Line(a, b, m)), SumXY(Line(a, b, m)));
    }
  }

  lemma NumeratorOfLine(n: int, a: int, b: int, s1: int, s2: int)
    ensures n * (a * s1 + b * s2) - s1 * (n * a + b * s1) == b * (n * s2 - s1 * s1)
  {
    assert n * (a * s1 + b * s2) == n * a * s1 + n * b * s2;
    assert s1 * (n * a + b * s1) == s1 * n * a + s1 * b * s1;
    assert b * (n * s2 - s1 * s1) == b * n * s2 - b * s1 * s1;
  }

  lemma QuotientOfMultiple(b: int, den: int)
    requires den > 0
    ensures (b * den) as real / den as real == b as real
  {
    assert (b * den) as real == b as real * den as real;
  }

  /** On the points of a line the fit recovers the line's slope exactly. */
  lemma LineSlope(a: int, b: int, n: nat)
    ensures SlopeNumerator(Line(a, b, n)) == b * SlopeDenominator(n)
    ensures n >= 2 ==> Slope(Line(a, b, n)) == b as real
  {
    LineSums(a, b, n);
    NumeratorOfLine(n, a, b, SumX(n), SumXX(n));
    if n >= 2 {
      DenominatorPositive(n);
      QuotientOfMultiple(b, SlopeDenominator(n));
    }
  }

  /** A line of three or more points is a rising trend exactly when its slope b exceeds 1. */
  lemma LineRisingIff(a: int, b: int, n: nat)
    requires n >= MinPoints
    ensures Rising(Line(a, b, n)) <==> b > 1
  {
    LineSlope(a, b, n);
  }

  /** A constant series has slope 0 and never shows a rising trend. */
  lemma ConstantSeriesNeverRises(ys: seq<int>, c: int)
    requires forall k :: 0 <= k < |ys| ==> ys[k] == c
    ensures !Rising(ys)
  {
    assert ys == Line(c, 0, |ys|);
    if |ys| >= MinPoints {
      LineRisingIff(c, 0, |ys|);
    }
  }

  // ---- The series ----

  /** Gathering a series distributes over concatenation, so record order is kept. */
  lemma {:induction false} SeriesAppend(xs: seq<HealthRecord>, zs: seq<HealthRecord>, c: Channel)
    ensures Series(xs + zs, c) == Series(xs, c) + Series(zs, c)
  {
    if zs == [] {
      assert xs + zs == xs;
    } else {
      var all := xs + zs;
      assert all[..|all| - 1] == xs + zs[..|zs| - 1];
      assert all[|all| - 1] == zs[|zs| - 1];
      SeriesAppend(xs, zs[..|zs| - 1], c);
    }
  }

  /** A value is in a series exactly when some record holds it as a non-zero reading. */
  lemma {:induction false} SeriesMembership(rs: seq<HealthRecord>, c: Channel, y: int)
    ensures y in Series(rs, c)
        <==> (exists k :: 0 <= k < |rs| && Reading(rs[k], c) == Some(y) && y != 0)
  {
    if rs != [] {
      var init := rs[..|rs| - 1];
      SeriesMembership(init, c, y);
      if y in Series(init, c) {
        var k :| 0 <= k < |init| && Reading(init[k], c) == Some(y) && y != 0;
        assert rs[k] == init[k];
      }
      if exists k :: 0 <= k < |rs| && Reading(rs[k], c) == Some(y) && y != 0 {
        var k :| 0 <= k < |rs| && Reading(rs[k], c) == Some(y) && y != 0;
        if k < |init| {
          assert init[k] == rs[k];
        }
      }
    }
  }

  /** A series depends only on its channel's readings, record by record. */
  lemma {:induction false} SeriesDependsOnlyOnReadings(rs: seq<HealthRecord>, qs: seq<HealthRecord>, c: Channel)
    requires |rs| == |qs|
    requires forall k :: 0 <= k < |rs| ==> Reading(rs[k], c) == Reading(qs[k], c)
    ensures Series(rs, c) == Series(qs, c)
  {
    if rs != [] {
      SeriesDependsOnlyOnReadings(rs[..|rs| - 1], qs[..|qs| - 1], c);
    }
  }

  /** Records whose reading is missing or zero contribute nothing. */
  lemma {:induction false} SkippedReadingsContributeNothing(rs: seq<HealthRecord>, c: Channel)
    requires forall k :: 0 <= k < |rs| ==> !TruthyInt(Reading(rs[k], c))
    ensures Series(rs, c) == []
  {
    if rs != [] {
      SkippedReadingsContributeNothing(rs[..|rs| - 1], c);
    }
  }

  /** Records all holding the same non-zero reading give a constant series of their length. */
  lemma {:induction false} ConstantReadingsSeries(rs: seq<HealthRecord>, c: Channel, y: int)
    requires y != 0
    requires forall k :: 0 <= k < |rs| ==> Reading(rs[k], c) == Some(y)
    ensures Series(rs, c) == Line(y, 0, |rs|)
  {
    if rs != [] {
      var n := |rs|;
      ConstantReadingsSeries(rs[..n - 1], c, y);
      assert Line(y, 0, n) == Line(y, 0, n - 1) + [y];
    }
  }

  // ---- The trend messages ----

  /** At most two messages, and heart rate always comes before blood pressure. */
  lemma TrendsShape(rs: seq<HealthRecord>)
    ensures |Trends(rs)| <= 2
    ensures |Trends(rs)| == 2 ==> Trends(rs) == [HeartRateTrendMessage, BloodPressureTrendMessage]
    ensures HeartRateTrendMessage in Trends(rs) <==> Rising(Series(rs, HeartRate))
    ensures BloodPressureTrendMessage in Trends(rs) <==> Rising(Series(rs, Systolic))
  {
  }

  /** A series with fewer than three retained points never yields its message. */
  lemma ShortSeriesNoMessage(rs: seq<HealthRecord>, c: Channel)
    requires |Series(rs, c)| < MinPoints
    ensures c == HeartRate ==> HeartRateTrendMessage !in Trends(rs)
    ensures c == Systolic ==> BloodPressureTrendMessage !in Trends(rs)
  {
  }

  /** No records, no trends. */
  lemma NoRecordsNoTrends()
    ensures Trends([]) == []
  {
  }

  /** The heart-rate message depends only on the heart-rate readings. */
  lemma HeartRateMessageDependsOnlyOnHeartRate(rs: seq<HealthRecord>, qs: seq<HealthRecord>)
    requires |rs| == |qs|
    requires forall k :: 0 <= k < |rs| ==> rs[k].vitals.heartRate == qs[k].vitals.heartRate
    ensures HeartRateTrendMessage in Trends(rs) <==> HeartRateTrendMessage in Trends(qs)
  {
    SeriesDependsOnlyOnReadings(rs, qs, HeartRate);
  }

  /** The blood-pressure message depends only on the systolic readings. */
  lemma BloodPressureMessageDependsOnlyOnSystolic(rs: seq<HealthRecord>, qs: seq<HealthRecord>)
    requires |rs| == |qs|
    requires forall k :: 0 <= k < |rs| ==> rs[k].vitals.systolic == qs[k].vitals.systolic
    ensures BloodPressureTrendMessage in Trends(rs) <==> BloodPressureTrendMessage in Trends(qs)
  {
    SeriesDependsOnlyOnReadings(rs, qs, Systolic);
  }

  /**
   * Records that agree on heart rate and systolic pressure give the same
   * trends: diastolic pressure, oxygen, BMI and the other fields are ignored.
   */
  lemma TrendsIgnoreOtherFields(rs: seq<HealthRecord>, qs: seq<HealthRecord>)
    requires |rs| == |qs|
    requires forall k :: 0 <= k < |rs| ==>
               rs[k].vitals.heartRate == qs[k].vitals.heartRate
               && rs[k].vitals.systolic == qs[k].vitals.systolic
    ensures Trends(rs) == Trends(qs)
  {
    SeriesDependsOnlyOnReadings(rs, qs, HeartRate);
    SeriesDependsOnlyOnReadings(rs, qs, Systolic);
  }

  /** A steady heart rate never yields the heart-rate message. */
  lemma SteadyHeartRateNoMessage(rs: seq<HealthRecord>, y: int)
    requires y != 0
    requires forall k :: 0 <= k < |rs| ==> rs[k].vitals.heartRate == Some(y)
    ensures HeartRateTrendMessage !in Trends(rs)
  {
    ConstantReadingsSeries(rs, HeartRate, y);
    ConstantSeriesNeverRises(Series(rs, HeartRate), y);
  }
}

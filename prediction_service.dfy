/**
 * The ordinary-least-squares slope of a series against its sample index (the regression in
 * predictNextStatusTime), with the facts about it that the prediction relies on.
 */
module LeastSquares {

  /** Sum of the sample indices 0 .. n-1, in closed form n(n−1)/2 (see `IndexSumsStep`). */
  function SumX(n: nat): real {
    (n as real) * (n as real - 1.0) / 2.0
  }

  /** Sum of the squared sample indices 0 .. n-1, in closed form (n−1)n(2n−1)/6. */
  function SumX2(n: nat): real {
    (n as real - 1.0) * (n as real) * (2.0 * (n as real) - 1.0) / 6.0
  }

  /** The closed forms are the running sums: one more index adds that index and its square. */
  lemma IndexSumsStep(i: nat, j: nat)
    requires j == i + 1
    ensures SumX(0) == 0.0 && SumX2(0) == 0.0
    ensures SumX(j) == SumX(i) + i as real
    ensures SumX2(j) == SumX2(i) + i as real * i as real
  {
  }

  /** Sum of the values. */
  function SumY(ys: seq<real>): real {
    if ys == [] then 0.0 else SumY(ys[..|ys| - 1]) + ys[|ys| - 1]
  }

  /** Sum of index times value. */
  function SumXY(ys: seq<real>): real {
    if ys == [] then 0.0 else SumXY(ys[..|ys| - 1]) + (|ys| - 1) as real * ys[|ys| - 1]
  }

  /** The regression's denominator n·Σx² − (Σx)², from the sample count and the index sums. */
  function Det(n: real, sx: real, sx2: real): real {
    n * sx2 - sx * sx
  }

  /** The closed-form least-squares slope (n·Σxy − Σx·Σy) / (n·Σx² − (Σx)²) from the sums. */
  function SlopeOf(n: real, sx: real, sx2: real, sy: real, sxy: real): real
    requires Det(n, sx, sx2) != 0.0
  {
    (n * sxy - sx * sy) / Det(n, sx, sx2)
  }

  /** For n samples the denominator is n²(n²−1)/12, so it is positive once there are two. */
  lemma DenominatorPositive(n: nat)
    requires n >= 2
    ensures 12.0 * Det(n as real, SumX(n), SumX2(n)) == (n as real) * (n as real) * ((n as real) * (n as real) - 1.0)
    ensures Det(n as real, SumX(n), SumX2(n)) > 0.0
  {
    var N := n as real;
    DetAlgebra(N, SumX(n), SumX2(n));
    assert N * N >= 4.0;
    assert N * N - 1.0 >= 3.0;
  }

  /** The algebra behind the closed form of the denominator. */
  lemma DetAlgebra(N: real, sx: real, sx2: real)
    requires 2.0 * sx == N * (N - 1.0)
    requires 6.0 * sx2 == (N - 1.0) * N * (2.0 * N - 1.0)
    ensures 12.0 * Det(N, sx, sx2) == N * N * (N * N - 1.0)
  {
    calc {
      12.0 * Det(N, sx, sx2);
      2.0 * N * (6.0 * sx2) - 3.0 * (2.0 * sx) * (2.0 * sx);
      2.0 * N * ((N - 1.0) * N * (2.0 * N - 1.0)) - 3.0 * (N * (N - 1.0)) * (N * (N - 1.0));
      N * N * (N - 1.0) * (2.0 * (2.0 * N - 1.0) - 3.0 * (N - 1.0));
      N * N * (N * N - 1.0);
    }
  }

  /** The ordinary-least-squares slope of `ys` against the sample index. */
  function Slope(ys: seq<real>): real
    requires |ys| >= 2
  {
    DenominatorPositive(|ys|);
    SlopeOf(|ys| as real, SumX(|ys|), SumX2(|ys|), SumY(ys), SumXY(ys))
  }

  /** The value sums of a line a + b·i are the line applied to the index sums. */
  lemma LinearSums(ys: seq<real>, a: real, b: real)
    requires forall i :: 0 <= i < |ys| ==> ys[i] == a + b * i as real
    ensures SumY(ys) == a * |ys| as real + b * SumX(|ys|)
    ensures SumXY(ys) == a * SumX(|ys|) + b * SumX2(|ys|)
  {
    LinearSumY(ys, a, b);
    LinearSumXY(ys, a, b);
  }

  lemma {:induction false} LinearSumY(ys: seq<real>, a: real, b: real)
    requires forall i :: 0 <= i < |ys| ==> ys[i] == a + b * i as real
    ensures SumY(ys) == a * |ys| as real + b * SumX(|ys|)
  {
    if ys != [] {
      var m := |ys| - 1;
      var init := ys[..m];
      LinearSumY(init, a, b);
      IndexSumsStep(m, m + 1);
      StepY(a, b, m as real, ys[m], SumX(m), SumY(init), SumX(m + 1));
    }
  }

  lemma {:induction false} LinearSumXY(ys: seq<real>, a: real, b: real)
    requires forall i :: 0 <= i < |ys| ==> ys[i] == a + b * i as real
    ensures SumXY(ys) == a * SumX(|ys|) + b * SumX2(|ys|)
  {
    if ys != [] {
      var m := |ys| - 1;
      var init := ys[..m];
      LinearSumXY(init, a, b);
      IndexSumsStep(m, m + 1);
      StepXY(a, b, m as real, ys[m], SumX(m), SumX2(m), SumXY(init), SumX(m + 1), SumX2(m + 1));
    }
  }

  lemma StepY(a: real, b: real, m: real, y: real, sx: real, sy: real, sx': real)
    requires y == a + b * m
    requires sy == a * m + b * sx
    requires sx' == sx + m
    ensures sy + y == a * (m + 1.0) + b * sx'
  {
  }

  lemma StepXY(a: real, b: real, m: real, y: real, sx: real, sx2: real, sxy: real, sx': real, sx2': real)
    requires y == a + b * m
    requires sxy == a * sx + b * sx2
    requires sx' == sx + m && sx2' == sx2 + m * m
    ensures sxy + m * y == a * sx' + b * sx2'
  {
    assert m * y == a * m + b * (m * m);
  }

  /** When the sums are those of the line a + b·x, the closed form gives back b. */
  lemma SlopeOfFit(n: real, a: real, b: real, sx: real, sx2: real, sy: real, sxy: real)
    requires Det(n, sx, sx2) != 0.0
    requires sy == a * n + b * sx && sxy == a * sx + b * sx2
    ensures SlopeOf(n, sx, sx2, sy, sxy) == b
  {
    assert n * sxy - sx * sy == b * Det(n, sx, sx2);
  }

  /** On a straight line a + b·i the fitted slope is exactly b. */
  lemma {:induction false} SlopeOfLine(ys: seq<real>, a: real, b: real)
    requires |ys| >= 2
    requires forall i :: 0 <= i < |ys| ==> ys[i] == a + b * i as real
    ensures Slope(ys) == b
  {
    LinearSums(ys, a, b);
    SlopeFromSums(ys, a, b);
  }

  /** Sums of the shape a line produces give that line's slope. */
  lemma SlopeFromSums(ys: seq<real>, a: real, b: real)
    requires |ys| >= 2
    requires SumY(ys) == a * |ys| as real + b * SumX(|ys|)
    requires SumXY(ys) == a * SumX(|ys|) + b * SumX2(|ys|)
    ensures Slope(ys) == b
  {
    SlopeOfTotals(ys, SumX(|ys|), SumX2(|ys|), SumY(ys), SumXY(ys));
    QuotientOfLineSums(ys, a, b);
  }

  lemma QuotientOfLineSums(ys: seq<real>, a: real, b: real)
    requires |ys| >= 2
    requires SumY(ys) == a * |ys| as real + b * SumX(|ys|)
    requires SumXY(ys) == a * SumX(|ys|) + b * SumX2(|ys|)
    requires Det(|ys| as real, SumX(|ys|), SumX2(|ys|)) > 0.0
    ensures SlopeOf(|ys| as real, SumX(|ys|), SumX2(|ys|), SumY(ys), SumXY(ys)) == b
  {
    SlopeOfFit(|ys| as real, a, b, SumX(|ys|), SumX2(|ys|), SumY(ys), SumXY(ys));
  }

  /** A constant series has slope 0. */
  lemma SlopeOfConstant(ys: seq<real>, c: real)
    requires |ys| >= 2
    requires forall i :: 0 <= i < |ys| ==> ys[i] == c
    ensures Slope(ys) == 0.0
  {
    SlopeOfLine(ys, c, 0.0);
  }

  /** One more sample extends the value sums by its own term. */
  lemma SumsStep(ys: seq<real>, i: nat)
    requires i < |ys|
    ensures SumY(ys[..i + 1]) == SumY(ys[..i]) + ys[i]
    ensures SumXY(ys[..i + 1]) == SumXY(ys[..i]) + i as real * ys[i]
  {
    assert ys[..i + 1][..i] == ys[..i];
  }

  /** The quotient of the accumulated sums is the slope. */
  lemma SlopeOfTotals(ys: seq<real>, sx: real, sx2: real, sy: real, sxy: real)
    requires |ys| >= 2
    requires sx == SumX(|ys|) && sx2 == SumX2(|ys|) && sy == SumY(ys) && sxy == SumXY(ys)
    ensures Det(|ys| as real, sx, sx2) > 0.0
    ensures SlopeOf(|ys| as real, sx, sx2, sy, sxy) == Slope(ys)
  {
    DenominatorPositive(|ys|);
  }

  /**
   * The regression loop: the four running sums over (index, value) pairs, then the
   * closed-form quotient.
   */
  method FitSlope(ys: seq<real>) returns (slope: real)
    requires |ys| >= 2
    ensures slope == Slope(ys)
  {
    var sumX, sumY, sumXY, sumX2 := 0.0, 0.0, 0.0, 0.0;
    var n := |ys|;
    var i := 0;
    IndexSumsStep(0, 1);
    while i < n
      invariant 0 <= i <= n
      invariant sumX == SumX(i) && sumX2 == SumX2(i)
      invariant sumY == SumY(ys[..i]) && sumXY == SumXY(ys[..i])
    {
      var x := i as real;
      var y := ys[i];
      SumsStep(ys, i);
      IndexSumsStep(i, i + 1);
      sumX := sumX + x;
      sumY := sumY + y;
      sumXY := sumXY + x * y;
      sumX2 := sumX2 + x * x;
      i := i + 1;
    }
    assert ys[..n] == ys;
    SlopeOfTotals(ys, sumX, sumX2, sumY, sumXY);
    slope := SlopeOf(n as real, sumX, sumX2, sumY, sumXY);
  }

}

/**
 * Trend prediction: how long until the water reaches the next tier
 * (hydroalert-backend/src/services/predictionService.js). The database query for the recent
 * readings becomes a filter and a sort over the stored readings, passed in as a sequence.
 */
module PredictionService {
  import opened Wrappers
  import opened StatusHelper
  import opened Models
  import Sorting
  import Subsequences
  import opened LeastSquares
  import opened JsMath

  const MmPerSecondToMmPerHour: real := 3600.0
  const WindowMinutes: int := 10
  const MinuteMs: int := 60000
  /** The slope at or below which the level is not considered rising. */
  const MinRiseRate: real := 0.01

  // ------------------------------------------------------------ environment factors

  /** Multiplier for rain (mm/h): very light, moderate, heavy, very heavy. */
  function RainFactor(rainMmH: real): (f: real)
    ensures f >= 1.0
    ensures rainMmH < 5.0 <==> f == 1.0
    ensures f == 1.0 || f == 1.1 || f == 1.2 || f == 1.35
  {
    if rainMmH < 5.0 then 1.0
    else if rainMmH < 20.0 then 1.1
    else if rainMmH < 50.0 then 1.2
    else 1.35
  }

  /** Multiplier for wind speed. */
  function WindFactor(wind: real): (f: real)
    ensures f >= 1.0
    ensures wind < 5.0 <==> f == 1.0
    ensures f == 1.0 || f == 1.01 || f == 1.03
  {
    if wind < 5.0 then 1.0
    else if wind < 10.0 then 1.01
    else 1.03
  }

  /** Both factors are non-decreasing step functions. */
  lemma FactorsMonotone(a: real, b: real)
    requires a <= b
    ensures RainFactor(a) <= RainFactor(b)
    ensures WindFactor(a) <= WindFactor(b)
  {
  }

  // ------------------------------------------------------------ history window

  /** A stored reading of `deviceID` taken in the ten minutes before `t` (`$gte` start, `$lt` t). */
  predicate InWindow(r: SensorData, deviceID: string, t: int) {
    r.deviceID == deviceID && t - WindowMinutes * MinuteMs <= r.createdAt < t
  }

  /** The stored readings that match the query, in storage order. */
  function WindowReadings(store: seq<SensorData>, deviceID: string, t: int): (r: seq<SensorData>)
    ensures Subsequences.IsFilterOf(r, store, x => InWindow(x, deviceID, t))
    ensures forall x :: x in r ==> InWindow(x, deviceID, t)
    ensures forall i :: 0 <= i < |store| && InWindow(store[i], deviceID, t) ==> store[i] in r
    ensures |r| <= |store|
  {
    if store == [] then []
    else
      var rest := WindowReadings(store[1..], deviceID, t);
      var inWindow := (x: SensorData) => InWindow(x, deviceID, t);
      assert store == [store[0]] + store[1..];
      Subsequences.FilterCons(store[0], store[1..], rest, inWindow);
      var r := (if inWindow(store[0]) then [store[0]] else []) + rest;
      Subsequences.FilterMembers(r, store, inWindow);
      Subsequences.SubsequenceShorter(r, store);
      r
  }

  function CreatedAt(r: SensorData): int { r.createdAt }

  /** `pastData`: the matching readings sorted by `createdAt`, oldest first. */
  function History(store: seq<SensorData>, deviceID: string, t: int): (h: seq<SensorData>)
    ensures Sorting.SortedBy(h, CreatedAt)
    ensures forall x :: multiset(h)[x] == if InWindow(x, deviceID, t) then multiset(store)[x] else 0
    ensures forall x :: x in h ==> InWindow(x, deviceID, t)
    ensures forall i :: 0 <= i < |store| && InWindow(store[i], deviceID, t) ==> store[i] in h
  {
    var w := WindowReadings(store, deviceID, t);
    var h := Sorting.SortBy(w, CreatedAt);
    assert forall x :: x in h <==> x in multiset(w);
    h
  }

  // ------------------------------------------------------------ next tier

  /** `orderedStatuses.indexOf(status)`: the tier whose display name is `status`, if any. */
  function ParseStatus(status: string): (t: Option<Tier>)
    ensures t.Some? <==> status in OrderedStatuses
    ensures t.Some? ==> TierName(t.value) == status
  {
    if status == "Normal" then Some(Normal)
    else if status == "Waspada" then Some(Waspada)
    else if status == "Siaga 1" then Some(Siaga1)
    else if status == "Siaga 2" then Some(Siaga2)
    else if status == "Bahaya" then Some(Bahaya)
    else None
  }

  /** The tier right after `t` in the severity order; Bahaya has none. */
  function NextTier(t: Tier): (n: Option<Tier>)
    ensures n.None? <==> t == Bahaya
    ensures n.Some? ==> TierIndex(n.value) == TierIndex(t) + 1
  {
    if t == Bahaya then None else Some(TierAt(TierIndex(t) + 1))
  }

  datatype Prediction = Prediction(
    fromStatus: Tier, toStatus: Tier, waterLevel: real, toWaterLevel: real,
    estimatedMinutes: int, adjustedRiseRate: real)

  function Levels(rs: seq<SensorData>): (ys: seq<real>)
    ensures |ys| == |rs| && forall i :: 0 <= i < |rs| ==> ys[i] == rs[i].waterLevel
  {
    if rs == [] then [] else [rs[0].waterLevel] + Levels(rs[1..])
  }

  /**
   * predictNextStatusTime(deviceID, currentData): the history is queried by `deviceID`, which
   * the caller passes separately from the current reading; the next tier's threshold taken from the tier table
   * (`Threshold`); see `TargetAsWritten` for the lookup as the source writes it.
   */
  function Predict(store: seq<SensorData>, deviceID: string, current: SensorData): (r: Option<Prediction>)
    ensures |History(store, deviceID, current.createdAt)| < 4 ==> r.None?
    ensures |History(store, deviceID, current.createdAt)| >= 4 ==>
      Slope(Levels(History(store, deviceID, current.createdAt)) + [current.waterLevel]) <= MinRiseRate ==> r.None?
    ensures current.status == "Bahaya" || current.status !in OrderedStatuses ==> r.None?
    ensures r.Some? ==> r.value.waterLevel == current.waterLevel && TierName(r.value.fromStatus) == current.status
  {
    var past := History(store, deviceID, current.createdAt);
    if |past| < 4 then None
    else
      var slope := Slope(Levels(past) + [current.waterLevel]);
      SlowEstimate(slope, current);
      Estimate(slope, current)
  }

  /** `if (baseRiseRate <= 0.01) return null`. */
  lemma SlowEstimate(slope: real, current: SensorData)
    ensures slope <= MinRiseRate ==> Estimate(slope, current).None?
  {
  }

  /**
   * The part after the regression: a slope at or below the minimum rise rate, an unknown status
   * or the top tier give nothing; otherwise the rate scaled by the rain and wind factors, and the
   * minutes until the next tier's threshold at that rate.
   */
  function Estimate(slope: real, current: SensorData): Option<Prediction> {
    if slope <= MinRiseRate then None
    else
      var adjusted := AdjustedRate(slope, current);
      var from := ParseStatus(current.status);
      if from.None? || from.value == Bahaya then None
      else
        var next := NextTier(from.value).value;
        var target := Threshold(next).value;
        Some(Prediction(from.value, next, current.waterLevel, target,
                        MinutesToReach(target, current.waterLevel, adjusted), adjusted))
  }

  /**
   * `slope * rainFactor * windFactor`, the rain intensity converted from mm/s to mm/h first: a
   * rising level never rises slower after the adjustment.
   */
  function AdjustedRate(slope: real, current: SensorData): (a: real)
    ensures slope >= 0.0 ==> a >= slope
  {
    var rf := RainFactor(current.rainIntensity * MmPerSecondToMmPerHour);
    var wf := WindFactor(current.windSpeed);
    assert slope >= 0.0 ==> slope * rf >= slope;
    assert slope >= 0.0 ==> slope * rf * wf >= slope * rf;
    slope * rf * wf
  }

  /**
   * `Math.round((targetLevel - currentLevel) / adjustedRate)`: the whole minutes until the level
   * reaches the target at that rate; never negative below the target, never positive above it.
   */
  function MinutesToReach(target: real, level: real, rate: real): (m: int)
    requires rate > 0.0
    ensures level > target ==> m <= 0
    ensures level <= target ==> m >= 0
    ensures (target - level) / rate - 0.5 < m as real <= (target - level) / rate + 0.5
  {
    var q := (target - level) / rate;
    assert level > target ==> q < 0.0;
    assert level <= target ==> q >= 0.0;
    Round(q)
  }

  /**
   * The method the service runs: the sums are accumulated in one pass over the history
   * followed by the current reading.
   */
  method PredictNextStatusTime(store: seq<SensorData>, deviceID: string, current: SensorData) returns (p: Option<Prediction>)
    ensures p == Predict(store, deviceID, current)
  {
    var past := History(store, deviceID, current.createdAt);
    if |past| < 4 {
      return None;
    }
    var ys := Levels(past) + [current.waterLevel];
    var slope := FitSlope(ys);
    p := Estimate(slope, current);
  }

  // ------------------------------------------------------------ properties

  /** Fewer than four earlier readings in the window: no prediction. */
  lemma InsufficientHistory(store: seq<SensorData>, deviceID: string, current: SensorData)
    requires |History(store, deviceID, current.createdAt)| < 4
    ensures Predict(store, deviceID, current) == None
  {
  }

  /**
   * What a prediction promises: a rise faster than the minimum, amplified (never damped) by the
   * factors; a source tier that is not Bahaya and the tier right after it as target; and the
   * target's threshold as target level.
   */
  lemma PredictionShape(store: seq<SensorData>, deviceID: string, current: SensorData)
    requires Predict(store, deviceID, current).Some?
    ensures var p := Predict(store, deviceID, current).value;
      && |History(store, deviceID, current.createdAt)| >= 4
      && Slope(Levels(History(store, deviceID, current.createdAt)) + [current.waterLevel]) > MinRiseRate
      && p.adjustedRiseRate > MinRiseRate
      && p.adjustedRiseRate >= Slope(Levels(History(store, deviceID, current.createdAt)) + [current.waterLevel])
      && p.fromStatus != Bahaya && TierName(p.fromStatus) == current.status
      && TierIndex(p.toStatus) == TierIndex(p.fromStatus) + 1 && p.toStatus != Normal
      && p.toWaterLevel == Threshold(p.toStatus).value
      && p.waterLevel == current.waterLevel
      && p.adjustedRiseRate == AdjustedRate(Slope(Levels(History(store, deviceID, current.createdAt)) + [current.waterLevel]), current)
      && p.estimatedMinutes == MinutesToReach(p.toWaterLevel, current.waterLevel, p.adjustedRiseRate)
  {
    var past := History(store, deviceID, current.createdAt);
    var slope := Slope(Levels(past) + [current.waterLevel]);
    assert |past| >= 4;
    assert Predict(store, deviceID, current) == Estimate(slope, current);
    EstimateShape(slope, current);
  }

  /** `PredictionShape` for the part after the regression, in terms of the fitted slope. */
  lemma EstimateShape(slope: real, current: SensorData)
    requires Estimate(slope, current).Some?
    ensures slope > MinRiseRate
    ensures var p := Estimate(slope, current).value;
      && p.adjustedRiseRate > MinRiseRate
      && p.adjustedRiseRate >= slope
      && p.fromStatus != Bahaya && TierName(p.fromStatus) == current.status
      && TierIndex(p.toStatus) == TierIndex(p.fromStatus) + 1 && p.toStatus != Normal
      && p.toWaterLevel == Threshold(p.toStatus).value
      && p.waterLevel == current.waterLevel
      && p.adjustedRiseRate == AdjustedRate(slope, current)
      && p.estimatedMinutes == MinutesToReach(p.toWaterLevel, current.waterLevel, p.adjustedRiseRate)
  {
  }

  /** A fitted rise of at most the minimum rate (0.01 cm per reading) gives no prediction. */
  lemma SlowRiseNoPrediction(store: seq<SensorData>, deviceID: string, current: SensorData)
    requires |History(store, deviceID, current.createdAt)| >= 4
    requires Slope(Levels(History(store, deviceID, current.createdAt)) + [current.waterLevel]) <= MinRiseRate
    ensures Predict(store, deviceID, current) == None
  {
  }

  /** A level that has not moved over the window is not rising: no prediction. */
  lemma {:induction false} SteadyLevelNoPrediction(store: seq<SensorData>, deviceID: string, current: SensorData)
    requires forall r :: r in History(store, deviceID, current.createdAt) ==>
      r.waterLevel == current.waterLevel
    ensures Predict(store, deviceID, current) == None
  {
    var past := History(store, deviceID, current.createdAt);
    if |past| >= 4 {
      var ys := Levels(past) + [current.waterLevel];
      forall i | 0 <= i < |ys|
        ensures ys[i] == current.waterLevel
      {
        if i < |past| {
          assert past[i] in past;
        }
      }
      SlopeOfConstant(ys, current.waterLevel);
    }
  }

  /** Bahaya, or a status outside the ordered list, never gets a prediction. */
  lemma NoPredictionFromTopOrUnknown(store: seq<SensorData>, deviceID: string, current: SensorData)
    requires current.status == "Bahaya" || current.status !in OrderedStatuses
    ensures Predict(store, deviceID, current) == None
  {
  }

  /**
   * The estimate is not guarded: a level already past the target gives a non-positive
   * estimate, and a level below it a non-negative one.
   */
  lemma {:induction false} EstimateSign(store: seq<SensorData>, deviceID: string, current: SensorData)
    requires Predict(store, deviceID, current).Some?
    ensures var p := Predict(store, deviceID, current).value;
      (p.waterLevel > p.toWaterLevel ==> p.estimatedMinutes <= 0) &&
      (p.waterLevel <= p.toWaterLevel ==> p.estimatedMinutes >= 0)
  {
    var past := History(store, deviceID, current.createdAt);
    var slope := Slope(Levels(past) + [current.waterLevel]);
    assert Predict(store, deviceID, current) == Estimate(slope, current);
    EstimateShape(slope, current);
  }

  /**
   * A reading whose stored status is the classification of its own level (as storeSensorData
   * writes it) is below its next threshold, so its estimate is never negative.
   */
  lemma ConsistentStatusGivesNonNegativeEstimate(store: seq<SensorData>, deviceID: string, current: SensorData)
    requires current.status == TierName(GetWaterStatus(current.waterLevel))
    requires Predict(store, deviceID, current).Some?
    ensures Predict(store, deviceID, current).value.estimatedMinutes >= 0
  {
    PredictionShape(store, deviceID, current);
    EstimateSign(store, deviceID, current);
    TierNamesOrdered(GetWaterStatus(current.waterLevel));
  }

  // ------------------------------------------------------------ the lookup as written

  /** STATUS_THRESHOLDS as declared: keyed by upper-case identifiers, not by display names. */
  function ThresholdByKey(key: string): Option<real> {
    if key == "BAHAYA" then Some(BahayaThreshold)
    else if key == "SIAGA_2" then Some(Siaga2Threshold)
    else if key == "SIAGA_1" then Some(Siaga1Threshold)
    else if key == "WASPADA" then Some(WaspadaThreshold)
    else None
  }

  /** `STATUS_THRESHOLDS[nextStatus]`, looked up by the next tier's display name. */
  function TargetAsWritten(next: Tier): Option<real> {
    ThresholdByKey(TierName(next))
  }

  /** The lookup as written never finds a threshold (JavaScript's `undefined`), for any tier. */
  lemma TargetAsWrittenAlwaysMisses(t: Tier)
    ensures TargetAsWritten(t) == None
    ensures Threshold(t).Some? <==> t != Normal
  {
  }
}

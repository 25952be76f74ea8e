/** analysis/BreathAnalyser.py: breath boundaries from the chest accelerometer.

    Each sample has gravity removed and is low-pass filtered, projected on the
    chest axis and stored; a descending zero crossing of that projection ends
    a breath. The crossing's rate `60/(t - previous crossing)` is kept when it
    does not exceed BR_MAX_FILTER, and only then is the breath flagged. */
module Breath {
  import opened Floats
  import opened Utils
  import opened History

  const BR_ACC_HIST_SIZE: nat := 10000
  const BR_HIST_SIZE: nat := 500
  /** Breaths per minute above which a crossing is taken for noise. */
  const BR_MAX_FILTER: real := 30.0
  /** Points on the breath circle outline. */
  const CIRCLE_POINTS: nat := 40

  datatype Vec3 = Vec3(x: real, y: real, z: real)

  function Minus(a: Vec3, b: Vec3): Vec3
  {
    Vec3(a.x - b.x, a.y - b.y, a.z - b.z)
  }

  function Dot(a: Vec3, b: Vec3): real
  {
    a.x * b.x + a.y * b.y + a.z * b.z
  }

  /** `exp_moving_average` on numpy 3-vectors, which applies it element-wise. */
  function EmaVec(prev: Vec3, value: Vec3, alpha: real): (r: Vec3)
    ensures alpha == 1.0 ==> r == prev
    ensures alpha == 0.0 ==> r == value
    ensures prev == value ==> r == value
    ensures 0.0 <= alpha <= 1.0 ==>
      && Min(prev.x, value.x) <= r.x <= Max(prev.x, value.x)
      && Min(prev.y, value.y) <= r.y <= Max(prev.y, value.y)
      && Min(prev.z, value.z) <= r.z <= Max(prev.z, value.z)
  {
    Vec3(ExpMovingAverage(prev.x, value.x, alpha),
         ExpMovingAverage(prev.y, value.y, alpha),
         ExpMovingAverage(prev.z, value.z, alpha))
  }

  /** The arguments of `set_analysis_params`. */
  datatype AnalysisParams = AnalysisParams(
    chestAccSampleRate: real, gravityAlpha: real, accMeanAlpha: real, chestAxis: Vec3)

  /** The defaults of `set_analysis_params`. */
  const DEFAULT_PARAMS := AnalysisParams(10.0, 0.999, 0.98, Vec3(0.0, 0.0, 1.0))

  /** The parameter table of `set_analysis_params_by_sensor_class`; None for
      a class name it does not know (the source raises ValueError). */
  function ParamsForSensorClass(sensorClass: string): (r: Option<AnalysisParams>)
    ensures r.Some? <==> sensorClass in {"PolarH10Client", "CL800Client", "SmartBeltClient"}
    ensures r.Some? ==> r.value.chestAccSampleRate == 10.0
    ensures r.Some? ==> 0.0 < r.value.gravityAlpha < 1.0 && 0.0 < r.value.accMeanAlpha < 1.0
    ensures sensorClass == "PolarH10Client" ==> r == Some(DEFAULT_PARAMS)
  {
    if sensorClass == "PolarH10Client" then
      Some(AnalysisParams(10.0, 0.999, 0.98, Vec3(0.0, 0.0, 1.0)))
    else if sensorClass == "CL800Client" then
      Some(AnalysisParams(10.0, 0.99, 0.9, Vec3(0.0, 0.0, 1.0)))
    else if sensorClass == "SmartBeltClient" then
      Some(AnalysisParams(10.0, 0.9999, 0.1, Vec3(-0.5550, -0.5522, -0.6221)))
    else
      None
  }

  /** The subsampling branch of `update_chest_acc` is entered only for these
      two literal class names. */
  predicate SubsamplingGate(sensorClass: Option<string>)
  {
    sensorClass == Some("PolarH10") || sensorClass == Some("SmartBelt")
  }

  /** The call returns early without storing the sample. */
  predicate Subsampled(sensorClass: Option<string>, time: real, tLast: real, sampleRate: real)
    requires sampleRate > 0.0
  {
    SubsamplingGate(sensorClass) && time - tLast < 1.0 / sampleRate
  }

  /** The names accepted by the parameter table all end in "Client", so none
      of them enters the subsampling branch. */
  lemma KnownSensorClassesAreNotSubsampled(sensorClass: string)
    requires ParamsForSensorClass(sensorClass).Some?
    ensures !SubsamplingGate(Some(sensorClass))
  {
  }

  /** A descending zero crossing: `not (chest_phase == chest_phase_last or chest_phase >= 0)`. */
  predicate IsCrossing(phase: int, phaseLast: int)
  {
    !(phase == phaseLast || phase >= 0)
  }

  /** `breathing_rate > BR_MAX_FILTER` for `breathing_rate = 60/(t - start)`.
      With no earlier crossing start is NaN, the rate is NaN and the test is
      false; a zero gap gives +inf under float64 division, which exceeds it. */
  function RateRejected(t: real, start: Float): (rejected: bool)
    ensures start.NaN? ==> !rejected
    ensures start.Num? && t == start.r ==> rejected
    ensures rejected ==> start.Num? && start.r <= t
  {
    start.Num? && (t == start.r || 60.0 / (t - start.r) > BR_MAX_FILTER)
  }

  /** The rate stored for an accepted crossing. */
  function BreathingRate(t: real, start: Float): (rate: Float)
    requires !RateRejected(t, start)
    ensures rate.NaN? <==> start.NaN?
    ensures rate.Num? ==> rate.r * (t - start.r) == 60.0 && rate.r <= BR_MAX_FILTER
  {
    if start.NaN? then NaN else Num(60.0 / (t - start.r))
  }

  /** For a forward time gap the rate filter rejects exactly the crossings
      less than two seconds after the previous one. */
  lemma RateFilterIsTwoSeconds(t: real, start: real)
    requires t > start
    ensures RateRejected(t, Num(start)) <==> t - start < 2.0
  {
    var gap := t - start;
    var rate := 60.0 / gap;
    assert rate * gap == 60.0;
    if gap < 2.0 {
      assert rate * gap > 30.0 * gap;
    } else {
      assert 30.0 * gap >= 60.0;
      assert rate * gap <= 30.0 * gap;
    }
  }

  /** A crossing earlier than the previous one has a negative rate, which the
      filter lets through. */
  lemma BackwardGapIsAccepted(t: real, start: real)
    requires t < start
    ensures !RateRejected(t, Num(start)) && BreathingRate(t, Num(start)).r < 0.0
  {
    var rate := 60.0 / (t - start);
    assert rate * (t - start) == 60.0;
  }

  function Clamp01(x: real): (r: real)
    ensures 0.0 <= r <= 1.0
    ensures 0.0 <= x <= 1.0 ==> r == x
  {
    if x < 0.0 then 0.0 else if x > 1.0 then 1.0 else x
  }

  class BreathAnalyser {
    var breathingCircleRadius: real
    /** cos and sin of 40 angles evenly spaced over [0, 2*pi]. */
    const cosTheta: seq<real>
    const sinTheta: seq<real>

    var chestAccSampleRate: real
    var gravityAlpha: real
    var accMeanAlpha: real
    var chestAxis: Vec3
    var sensorClass: Option<string>

    /** None stands for the all-NaN vector before the first sample. */
    var gravity: Option<Vec3>
    var accFiltered: Vec3
    var tLastBreathAccUpdate: real
    var chestPhaseLast: int
    var isEndOfBreath: bool
    var startOfBreathT: Float

    const chestAccHistory: HistoryBuffer
    const brHistory: HistoryBuffer
    ghost const Repr: set<object>

    ghost predicate Valid()
      reads Repr
    {
      && Repr == {this, chestAccHistory, brHistory}
      && chestAccHistory != brHistory
      && chestAccHistory.Valid() && brHistory.Valid()
      && |chestAccHistory.times| == BR_ACC_HIST_SIZE && |brHistory.times| == BR_HIST_SIZE
      && |cosTheta| == CIRCLE_POINTS && |sinTheta| == CIRCLE_POINTS
      && chestAccSampleRate > 0.0
      && EmptyThenFull(chestAccHistory.values)
      && EmptyThenFull(brHistory.times)
      // no crossing yet, so no breath rate stored yet
      && (startOfBreathT.NaN? ==> AllNaN(brHistory.values))
      // the first crossing is always accepted, so it is stored
      && (startOfBreathT.Num? ==> brHistory.times[BR_HIST_SIZE - 1].Num?)
    }

    function Params(): AnalysisParams
      reads this
    {
      AnalysisParams(chestAccSampleRate, gravityAlpha, accMeanAlpha, chestAxis)
    }

    /** The state `__init__` leaves: default parameters, no sensor class,
        no gravity estimate, no breath started and both histories as
        `HistoryBuffer(n)` creates them. */
    ghost predicate Initial()
      reads this, chestAccHistory, brHistory
    {
      && Params() == DEFAULT_PARAMS && sensorClass == None
      && breathingCircleRadius == -0.5
      && gravity == None && accFiltered == Vec3(0.0, 0.0, 0.0)
      && tLastBreathAccUpdate == 0.0 && chestPhaseLast == 0
      && !isEndOfBreath && startOfBreathT == NaN
      && chestAccHistory.Fresh(BR_ACC_HIST_SIZE) && brHistory.Fresh(BR_HIST_SIZE)
    }

    constructor (cosTheta: seq<real>, sinTheta: seq<real>)
      requires |cosTheta| == CIRCLE_POINTS && |sinTheta| == CIRCLE_POINTS
      ensures Valid() && fresh(Repr) && Initial()
      ensures this.cosTheta == cosTheta && this.sinTheta == sinTheta
      ensures GetLastBreathTRange() == (NaN, NaN)
    {
      breathingCircleRadius := -0.5;
      this.cosTheta := cosTheta;
      this.sinTheta := sinTheta;
      chestAccSampleRate, gravityAlpha, accMeanAlpha, chestAxis :=
        DEFAULT_PARAMS.chestAccSampleRate, DEFAULT_PARAMS.gravityAlpha,
        DEFAULT_PARAMS.accMeanAlpha, DEFAULT_PARAMS.chestAxis;
      sensorClass := None;
      gravity := None;
      accFiltered := Vec3(0.0, 0.0, 0.0);
      tLastBreathAccUpdate := 0.0;
      chestPhaseLast := 0;
      isEndOfBreath := false;
      startOfBreathT := NaN;
      var chest := new HistoryBuffer(BR_ACC_HIST_SIZE);
      var br := new HistoryBuffer(BR_HIST_SIZE);
      chestAccHistory := chest;
      brHistory := br;
      Repr := {this, chest, br};
      new;
      AllNaNIsEmptyThenFull(chest.values);
      AllNaNIsEmptyThenFull(br.times);
    }

    method SetAnalysisParams(params: AnalysisParams)
      requires params.chestAccSampleRate > 0.0
      requires Valid()
      modifies this`chestAccSampleRate, this`gravityAlpha, this`accMeanAlpha, this`chestAxis
      ensures Valid() && Params() == params
    {
      chestAccSampleRate := params.chestAccSampleRate;
      gravityAlpha := params.gravityAlpha;
      accMeanAlpha := params.accMeanAlpha;
      chestAxis := params.chestAxis;
    }

    /** Records the class name, then applies its parameter row; an unknown
        name fails (ValueError) after the name has been recorded. */
    method SetAnalysisParamsBySensorClass(sensorClass: string) returns (r: Outcome)
      requires Valid()
      modifies this`sensorClass, this`chestAccSampleRate, this`gravityAlpha, this`accMeanAlpha, this`chestAxis
      ensures Valid() && this.sensorClass == Some(sensorClass)
      ensures r.Pass? <==> ParamsForSensorClass(sensorClass).Some?
      ensures r.Pass? ==> Params() == ParamsForSensorClass(sensorClass).value
      ensures r.Fail? ==> Params() == old(Params())
    {
      this.sensorClass := Some(sensorClass);
      var row := ParamsForSensorClass(sensorClass);
      if row.Some? {
        SetAnalysisParams(row.value);
        r := Pass;
      } else {
        r := Fail("Sensor model not valid");
      }
    }

    /** The state after `update_chest_acc(time, acc)`. */
    twostate predicate ChestAccUpdated(time: real, acc: Vec3)
      reads this, chestAccHistory, brHistory
      requires old(chestAccSampleRate) > 0.0
      requires |old(chestAccHistory.times)| > 0 && |old(brHistory.times)| > 0
      requires |old(chestAccHistory.values)| > 0 && |old(brHistory.values)| > 0
      requires |old(chestAccHistory.markers)| > 0
    {
      var g := if old(gravity).None? then acc else EmaVec(old(gravity).value, acc, old(gravityAlpha));
      && gravity == Some(g)
      && accFiltered == EmaVec(old(accFiltered), Minus(acc, g), old(accMeanAlpha))
      && Params() == old(Params()) && sensorClass == old(sensorClass)
      && breathingCircleRadius == old(breathingCircleRadius)
      && if Subsampled(sensorClass, time, old(tLastBreathAccUpdate), chestAccSampleRate) then
        && !isEndOfBreath
        && tLastBreathAccUpdate == old(tLastBreathAccUpdate)
        && chestPhaseLast == old(chestPhaseLast) && startOfBreathT == old(startOfBreathT)
        && unchanged(chestAccHistory) && unchanged(brHistory)
      else
        && tLastBreathAccUpdate == (if SubsamplingGate(sensorClass) then time else old(tLastBreathAccUpdate))
        && SampleStored(time)
    }

    /** The effect of the part of `update_chest_acc` after the subsampling
        gate, for the filtered sample now in `accFiltered`: its chest-axis
        projection is stored; a descending zero crossing restarts the breath,
        and when the rate filter accepts it the rate is stored, the breath
        is flagged as ended and the sample is marked. */
    twostate predicate SampleStored(time: real)
      reads this, chestAccHistory, brHistory
      requires |old(chestAccHistory.times)| > 0 && |old(brHistory.times)| > 0
      requires |old(chestAccHistory.values)| > 0 && |old(brHistory.values)| > 0
      requires |old(chestAccHistory.markers)| > 0
    {
      var chestAcc := Dot(accFiltered, chestAxis);
      var phase := SignOf(chestAcc);
      var crossing := IsCrossing(phase, old(chestPhaseLast));
      var accepted := crossing && !RateRejected(time, old(startOfBreathT));
      && chestAccHistory.times == Shifted(old(chestAccHistory.times), Num(time))
      && chestAccHistory.values == Shifted(old(chestAccHistory.values), Num(chestAcc))
      && chestAccHistory.markers == (
           if accepted then Shifted(Decremented(old(chestAccHistory.markers)), BR_ACC_HIST_SIZE - 1)
           else Decremented(old(chestAccHistory.markers)))
      && chestPhaseLast == phase
      && startOfBreathT == (if crossing then Num(time) else old(startOfBreathT))
      && isEndOfBreath == accepted
      && if accepted then
        && brHistory.times == Shifted(old(brHistory.times), Num(time))
        && brHistory.values == Shifted(old(brHistory.values), BreathingRate(time, old(startOfBreathT)))
        && brHistory.markers == Decremented(old(brHistory.markers))
      else
        unchanged(brHistory)
    }

    /** Tracks gravity with a slow moving average (the first sample seeds it)
        and low-pass filters the sample with gravity removed. */
    method FilterSample(acc: Vec3)
      modifies this`gravity, this`accFiltered
      ensures gravity == Some(if old(gravity).None? then acc else EmaVec(old(gravity).value, acc, gravityAlpha))
      ensures accFiltered == EmaVec(old(accFiltered), Minus(acc, gravity.value), accMeanAlpha)
    {
      gravity := if gravity.Some? then Some(EmaVec(gravity.value, acc, gravityAlpha)) else Some(acc);
      var accUnbiased := Minus(acc, gravity.value);
      accFiltered := EmaVec(accFiltered, accUnbiased, accMeanAlpha);
    }

    /** Stores the filtered sample and runs the breath-end detection. */
    method StoreSample(time: real)
      requires Valid()
      modifies this`chestPhaseLast, this`isEndOfBreath, this`startOfBreathT, chestAccHistory, brHistory
      ensures Valid() && SampleStored(time)
      ensures isEndOfBreath && !brHistory.IsEmpty() ==> GetLastBreathTRange().0.Num?
      // the first crossing's rate is NaN, so the rate history stays empty
      ensures old(startOfBreathT).NaN? ==> brHistory.IsEmpty()
      ensures isEndOfBreath ==> GetLastBreathTRange() == (old(brHistory.times)[BR_HIST_SIZE - 1], Num(time))
      ensures isEndOfBreath ==>
        chestAccHistory.markers[BR_ACC_HIST_SIZE - 1] == BR_ACC_HIST_SIZE - 1
        && chestAccHistory.times[BR_ACC_HIST_SIZE - 1] == Num(time)
    {
      var chestAcc := Dot(accFiltered, chestAxis);
      ShiftedKeepsEmptyThenFull(chestAccHistory.values, Num(chestAcc));
      chestAccHistory.Update(Num(time), Num(chestAcc));

      var chestPhase := SignOf(chestAcc);
      var crossing := IsCrossing(chestPhase, chestPhaseLast);
      var accepted := crossing && !RateRejected(time, startOfBreathT);
      chestPhaseLast := chestPhase;
      isEndOfBreath := accepted;
      if accepted {
        ShiftedKeepsEmptyThenFull(brHistory.times, Num(time));
        brHistory.Update(Num(time), BreathingRate(time, startOfBreathT));
        chestAccHistory.AddMarker(BR_ACC_HIST_SIZE - 1);
      }
      if crossing {
        startOfBreathT := Num(time);
      }
    }

    /** Filters the sample, stores its chest-axis projection unless it is
        subsampled away, and flags the end of a breath when the sample is an
        accepted descending zero crossing. */
    method UpdateChestAcc(time: real, acc: Vec3)
      requires Valid()
      modifies Repr
      ensures Valid() && ChestAccUpdated(time, acc)
      ensures isEndOfBreath && !brHistory.IsEmpty() ==> GetLastBreathTRange().0.Num?
      // the first crossing's rate is NaN, so the rate history stays empty
      ensures old(startOfBreathT).NaN? ==> brHistory.IsEmpty()
      ensures isEndOfBreath ==> GetLastBreathTRange() == (old(brHistory.times)[BR_HIST_SIZE - 1], Num(time))
      ensures isEndOfBreath ==>
        chestAccHistory.markers[BR_ACC_HIST_SIZE - 1] == BR_ACC_HIST_SIZE - 1
        && chestAccHistory.times[BR_ACC_HIST_SIZE - 1] == Num(time)
    {
      FilterSample(acc);
      if Subsampled(sensorClass, time, tLastBreathAccUpdate, chestAccSampleRate) {
        isEndOfBreath := false;
      } else {
        if SubsamplingGate(sensorClass) {
          tLastBreathAccUpdate := time;
        }
        StoreSample(time);
      }
    }

    /** The start and end times of the last full breath: the times of the two
        most recent stored breath rates, NaN where fewer are stored. */
    function GetLastBreathTRange(): (range: (Float, Float))
      reads this, brHistory
      requires |brHistory.times| >= 2
      ensures range.1 == brHistory.times[|brHistory.times| - 1]
      // on a buffer filled from the right, as `Valid()` keeps it, the range
      // has a start only once two breaths are stored and an end once one is
      ensures EmptyThenFull(brHistory.times) ==>
        && (range.0.Num? <==> CountTrue(NotNaN(brHistory.times)) >= 2)
        && (range.1.Num? <==> CountTrue(NotNaN(brHistory.times)) >= 1)
    {
      var times := brHistory.times;
      if EmptyThenFull(times) then
        EmptyThenFullCount(times, 2);
        EmptyThenFullCount(times, 1);
        (times[|times| - 2], times[|times| - 1])
      else
        (times[|times| - 2], times[|times| - 1])
    }

    /** Moves the radius towards the latest chest expansion and clamps it to
        [0, 1]; returns the breath circle outline at that radius. */
    method GetBreathCircleCoords() returns (xs: seq<real>, ys: seq<real>)
      requires Valid()
      modifies this`breathingCircleRadius
      ensures Valid()
      ensures 0.0 <= breathingCircleRadius <= 1.0
      ensures chestAccHistory.IsEmpty() ==> breathingCircleRadius == 0.0
      ensures !chestAccHistory.IsEmpty() ==>
        chestAccHistory.values[BR_ACC_HIST_SIZE - 1].Num? &&
        breathingCircleRadius == Clamp01(0.7 * chestAccHistory.values[BR_ACC_HIST_SIZE - 1].r
                                         + (1.0 - 0.7) * old(breathingCircleRadius) + 0.5)
      ensures |xs| == CIRCLE_POINTS && |ys| == CIRCLE_POINTS
      ensures forall k :: 0 <= k < CIRCLE_POINTS ==>
        xs[k] == breathingCircleRadius * cosTheta[k] && ys[k] == breathingCircleRadius * sinTheta[k]
    {
      var values := chestAccHistory.values;
      if !chestAccHistory.IsEmpty() {
        EmptyThenFullCount(values, 1);
        breathingCircleRadius := 0.7 * values[|values| - 1].r + (1.0 - 0.7) * breathingCircleRadius;
      } else {
        breathingCircleRadius := -0.5;
      }
      breathingCircleRadius := Clamp01(breathingCircleRadius + 0.5);
      var radius, cos, sin := breathingCircleRadius, cosTheta, sinTheta;
      xs := seq(CIRCLE_POINTS, k requires 0 <= k < CIRCLE_POINTS && |cos| == CIRCLE_POINTS => radius * cos[k]);
      ys := seq(CIRCLE_POINTS, k requires 0 <= k < CIRCLE_POINTS && |sin| == CIRCLE_POINTS => radius * sin[k]);
    }

    /** The stored chest samples whose time lies in [startTime, endTime]. */
    method GetChestAccSubHistory(startTime: real, endTime: real) returns (sub: HistoryBuffer)
      requires Valid()
      ensures fresh(sub) && sub.Valid()
      ensures sub.times == Select(chestAccHistory.times, InRange(chestAccHistory.times, startTime, endTime))
      ensures sub.values == Select(chestAccHistory.values, InRange(chestAccHistory.times, startTime, endTime))
      ensures sub.markers == SubMarkers(chestAccHistory.times, chestAccHistory.markers, startTime, endTime, BR_ACC_HIST_SIZE)
    {
      sub := chestAccHistory.GetSubBuffer(startTime, endTime);
    }
  }
}

/** Model.py: the application model that owns one HRV analyser and one
    breath analyser and feeds them the sensor's two data streams. */
module AppModel {
  import opened Floats
  import Breath
  import Hrv

  class Model {
    const hrvAnalyser: Hrv.HrvAnalyser
    const breathAnalyser: Breath.BreathAnalyser
    ghost const Repr: set<object>

    ghost predicate Valid()
      reads this, Repr
    {
      && Repr == hrvAnalyser.Repr + breathAnalyser.Repr
      && hrvAnalyser.Repr !! breathAnalyser.Repr
      && hrvAnalyser.Valid() && breathAnalyser.Valid()
    }

    /** `cosTheta` and `sinTheta` are the breathing circle's unit-circle
        coordinates, which the breath analyser takes precomputed. */
    constructor (cosTheta: seq<real>, sinTheta: seq<real>)
      requires |cosTheta| == Breath.CIRCLE_POINTS && |sinTheta| == Breath.CIRCLE_POINTS
      ensures Valid() && fresh(hrvAnalyser) && fresh(breathAnalyser)
      ensures hrvAnalyser.Initial() && breathAnalyser.Initial()
      ensures breathAnalyser.GetLastBreathTRange() == (NaN, NaN)
      ensures breathAnalyser.cosTheta == cosTheta && breathAnalyser.sinTheta == sinTheta
    {
      var hrv := new Hrv.HrvAnalyser();
      var breath := new Breath.BreathAnalyser(cosTheta, sinTheta);
      hrvAnalyser, breathAnalyser := hrv, breath;
      Repr := hrv.Repr + breath.Repr;
    }

    /** An IBI sample `(t, ibi)` goes to the HRV analyser and nowhere else. */
    method HandleIbiCallback(t: real, ibi: real)
      requires Valid()
      modifies hrvAnalyser.Repr
      ensures Valid()
      ensures hrvAnalyser.Updated(t, ibi)
      ensures unchanged(breathAnalyser.Repr)
    {
      hrvAnalyser.Update(t, ibi);
    }

    /** An accelerometer sample `[t, x, y, z]` goes to the breath analyser;
        when it ends a breath that is not the first, the HRV analyser computes
        the breath-by-breath metrics over the time range of that breath.
        `r` fails exactly when those metrics fail. */
    method HandleAccCallback(data: seq<real>, sqrt: real -> real) returns (r: Outcome)
      requires Valid() && (|data| == 2 || |data| == 4)
      modifies Repr
      ensures Valid()
      ensures breathAnalyser.ChestAccUpdated(data[0], AccSample(data))
      ensures
        if breathAnalyser.isEndOfBreath && !breathAnalyser.brHistory.IsEmpty() then
          var tRange := breathAnalyser.GetLastBreathTRange();
          && tRange.0.Num? && tRange.1 == Num(data[0])
          && hrvAnalyser.BreathMetricsUpdated(tRange, sqrt, r)
        else
          r == Pass && unchanged(hrvAnalyser.Repr)
      // the first breath crossing, whose rate is NaN, never triggers the metrics
      ensures old(breathAnalyser.startOfBreathT).NaN? ==> r == Pass && unchanged(hrvAnalyser.Repr)
    {
      breathAnalyser.UpdateChestAcc(data[0], AccSample(data));
      r := RunBreathMetrics(sqrt);
    }

    /** The breath-by-breath step of `handle_acc_callback`, once the breath
        analyser holds the new sample. */
    method RunBreathMetrics(sqrt: real -> real) returns (r: Outcome)
      requires Valid()
      modifies hrvAnalyser.Repr
      ensures Valid()
      ensures
        if breathAnalyser.isEndOfBreath && !breathAnalyser.brHistory.IsEmpty() then
          hrvAnalyser.BreathMetricsUpdated(breathAnalyser.GetLastBreathTRange(), sqrt, r)
        else
          r == Pass && unchanged(hrvAnalyser.Repr)
    {
      if breathAnalyser.isEndOfBreath && !breathAnalyser.brHistory.IsEmpty() {
        var tRange := breathAnalyser.GetLastBreathTRange();
        r := hrvAnalyser.UpdateBreathByBreathMetrics(tRange, sqrt);
      } else {
        r := Pass;
      }
    }
  }

  /** `data[1:]` as the three axes: numpy broadcasts a one-axis sample to
      all three when it is subtracted from and averaged into three-axis
      state. */
  function AccSample(data: seq<real>): (acc: Breath.Vec3)
    requires |data| == 2 || |data| == 4
    ensures |data| == 2 ==> acc.x == acc.y == acc.z == data[1]
    ensures |data| == 4 ==> [acc.x, acc.y, acc.z] == data[1..]
  {
    if |data| == 2 then Breath.Vec3(data[1], data[1], data[1])
    else Breath.Vec3(data[1], data[2], data[3])
  }
}

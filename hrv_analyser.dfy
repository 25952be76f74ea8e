/** analysis/HrvAnalyser.py, the HrvAnalyser class: the heart-rate and HRV
    histories it keeps, and the updates applied to them on each beat, on each
    breath and on demand. */
module Hrv {
  import opened Floats
  import opened History
  import opened HrvMetrics

  const IBI_HIST_SIZE: nat := 1500
  const METRIC_HIST_SIZE: nat := 500

  class HrvAnalyser {
    /** Milliseconds of IBIs since the last stored HRV. */
    var ibiLatestPhaseDuration: real
    /** Sign of the IBI trend at the last stored HRV (0 before the first). */
    var ibiLastPhase: Float
    /** The IBI at the last stored turning point (0 before the first). */
    var ibiLastExtreme: Float

    const ibiHistory: HistoryBuffer
    const hrHistory: HistoryBuffer
    const hrvHistory: HistoryBuffer
    const rmssdHistory: HistoryBuffer
    const maxminHistory: HistoryBuffer
    const sdnnHistory: HistoryBuffer
    const nn50History: HistoryBuffer
    const pnn50History: HistoryBuffer
    ghost const Repr: set<object>

    ghost predicate Valid()
      reads Repr
    {
      && Repr == {this, ibiHistory, hrHistory, hrvHistory, rmssdHistory, maxminHistory,
                  sdnnHistory, nn50History, pnn50History}
      && ibiHistory !in {hrHistory, hrvHistory, rmssdHistory, maxminHistory, sdnnHistory, nn50History, pnn50History}
      && hrHistory !in {hrvHistory, rmssdHistory, maxminHistory, sdnnHistory, nn50History, pnn50History}
      && hrvHistory !in {rmssdHistory, maxminHistory, sdnnHistory, nn50History, pnn50History}
      && rmssdHistory !in {maxminHistory, sdnnHistory, nn50History, pnn50History}
      && maxminHistory !in {sdnnHistory, nn50History, pnn50History}
      && sdnnHistory !in {nn50History, pnn50History}
      && nn50History != pnn50History
      && ibiHistory.Valid() && hrHistory.Valid() && hrvHistory.Valid() && rmssdHistory.Valid()
      && maxminHistory.Valid() && sdnnHistory.Valid() && nn50History.Valid() && pnn50History.Valid()
      && |ibiHistory.times| == IBI_HIST_SIZE
      && |hrHistory.times| == |hrvHistory.times| == |rmssdHistory.times| == |maxminHistory.times|
         == |sdnnHistory.times| == |nn50History.times| == |pnn50History.times| == METRIC_HIST_SIZE
      && StoredBeatsPlausible()
    }

    /** Each stored IBI is stored with its time and passed the IBI filter;
        each stored heart rate is that of an accepted IBI. */
    ghost predicate StoredBeatsPlausible()
      reads this, ibiHistory, hrHistory
      requires |ibiHistory.values| == |ibiHistory.times| && |hrHistory.values| == |hrHistory.times|
    {
      && (forall i :: 0 <= i < |ibiHistory.times| ==> ibiHistory.times[i].Num? == ibiHistory.values[i].Num?)
      && (forall i :: 0 <= i < |ibiHistory.values| && ibiHistory.values[i].Num? ==>
            !IbiRejected(ibiHistory.values[i].r))
      && (forall i :: 0 <= i < |hrHistory.values| && hrHistory.values[i].Num? ==>
            37.5 <= hrHistory.values[i].r <= 200.0)
    }

    /** The state `__init__` leaves: phase, extreme and duration 0 and every
        history as `HistoryBuffer(n)` creates it. */
    ghost predicate Initial()
      reads this, ibiHistory, hrHistory, hrvHistory, rmssdHistory, maxminHistory,
            sdnnHistory, nn50History, pnn50History
    {
      && ibiLatestPhaseDuration == 0.0 && ibiLastPhase == Num(0.0) && ibiLastExtreme == Num(0.0)
      && ibiHistory.Fresh(IBI_HIST_SIZE) && hrHistory.Fresh(METRIC_HIST_SIZE)
      && hrvHistory.Fresh(METRIC_HIST_SIZE) && rmssdHistory.Fresh(METRIC_HIST_SIZE)
      && maxminHistory.Fresh(METRIC_HIST_SIZE) && sdnnHistory.Fresh(METRIC_HIST_SIZE)
      && nn50History.Fresh(METRIC_HIST_SIZE) && pnn50History.Fresh(METRIC_HIST_SIZE)
    }

    constructor ()
      ensures Valid() && Initial()
      ensures fresh(ibiHistory) && fresh(hrHistory) && fresh(hrvHistory) && fresh(rmssdHistory)
      ensures fresh(maxminHistory) && fresh(sdnnHistory) && fresh(nn50History) && fresh(pnn50History)
    {
      ibiLatestPhaseDuration := 0.0;
      ibiLastPhase := Num(0.0);
      ibiLastExtreme := Num(0.0);
      var ibi := new HistoryBuffer(IBI_HIST_SIZE);
      var hr := new HistoryBuffer(METRIC_HIST_SIZE);
      var hrv := new HistoryBuffer(METRIC_HIST_SIZE);
      var rmssd := new HistoryBuffer(METRIC_HIST_SIZE);
      var maxmin := new HistoryBuffer(METRIC_HIST_SIZE);
      var sdnn := new HistoryBuffer(METRIC_HIST_SIZE);
      var nn50 := new HistoryBuffer(METRIC_HIST_SIZE);
      var pnn50 := new HistoryBuffer(METRIC_HIST_SIZE);
      ibiHistory, hrHistory, hrvHistory := ibi, hr, hrv;
      rmssdHistory, maxminHistory, sdnnHistory := rmssd, maxmin, sdnn;
      nn50History, pnn50History := nn50, pnn50;
      Repr := {this, ibi, hr, hrv, rmssd, maxmin, sdnn, nn50, pnn50};
      new;
      assert StoredBeatsPlausible();
    }

    /** The phase step the IBI `ibi` causes, in the state before `update`. */
    function PendingStep(ibi: real): PhaseStep
      reads this, ibiHistory, hrvHistory
      requires |ibiHistory.values| > 0 && |hrvHistory.values| >= 2
    {
      var hrvs := hrvHistory.values;
      NextPhaseStep(ibi, ibiHistory.values[|ibiHistory.values| - 1], ibiLastPhase, ibiLastExtreme,
                    hrvs[|hrvs| - 2], hrvs[|hrvs| - 1])
    }

    /** The state after `update(t, ibi)`. */
    twostate predicate Updated(t: real, ibi: real)
      reads Repr
      requires old(Valid())
    {
      && unchanged(rmssdHistory, maxminHistory, sdnnHistory, nn50History, pnn50History)
      && if IbiRejected(ibi) then
        unchanged(this, ibiHistory, hrHistory, hrvHistory)
      else
        var step := old(PendingStep(ibi));
        && ibiHistory.Appended(Num(t), Num(ibi))
        && hrHistory.Appended(Num(t), Num(IbiToHr(ibi)))
        && if step.Turn? then
          && hrvHistory.Appended(Num(t), step.hrv)
          && ibiLatestPhaseDuration == 0.0
          && ibiLastExtreme == step.extreme && ibiLastPhase == step.phase
        else
          && unchanged(hrvHistory)
          && ibiLatestPhaseDuration == old(ibiLatestPhaseDuration) + ibi
          && ibiLastExtreme == old(ibiLastExtreme) && ibiLastPhase == old(ibiLastPhase)
    }

    /** Stores an accepted IBI and its heart rate, and stores an HRV value
        (the swing between the last two extremes) when the IBI trend turns. */
    method Update(t: real, ibi: real)
      requires Valid()
      modifies this, ibiHistory, hrHistory, hrvHistory
      ensures Valid() && Updated(t, ibi)
    {
      if ibi < IBI_MIN_FILTER || ibi > IBI_MAX_FILTER {
        return;
      }
      StoreBeat(t, ibi);
      var values := ibiHistory.values;
      TrackPhase(t, ibi, values[|values| - 2]);
    }

    /** The first half of `update`: an accepted IBI and its heart rate are
        appended to their histories. */
    method StoreBeat(t: real, ibi: real)
      requires Valid() && !IbiRejected(ibi)
      modifies ibiHistory, hrHistory
      ensures Valid()
      ensures ibiHistory.Appended(Num(t), Num(ibi)) && hrHistory.Appended(Num(t), Num(IbiToHr(ibi)))
    {
      var hr := IbiToHr(ibi);
      AcceptedIbiHeartRate(ibi, ibi);
      ibiHistory.Update(Num(t), Num(ibi));
      hrHistory.Update(Num(t), Num(hr));
    }

    /** The second half of `update`, given the IBI before this one: a turn of
        the IBI trend stores an HRV value unless it is too low. */
    method TrackPhase(t: real, ibi: real, previous: Float)
      requires Valid()
      modifies this, hrvHistory
      ensures Valid()
      ensures
        var hrvs := old(hrvHistory.values);
        var step := NextPhaseStep(ibi, previous, old(ibiLastPhase), old(ibiLastExtreme),
                                  hrvs[|hrvs| - 2], hrvs[|hrvs| - 1]);
        if step.Turn? then
          && hrvHistory.Appended(Num(t), step.hrv)
          && ibiLatestPhaseDuration == 0.0
          && ibiLastExtreme == step.extreme && ibiLastPhase == step.phase
        else
          && unchanged(hrvHistory)
          && ibiLatestPhaseDuration == old(ibiLatestPhaseDuration) + ibi
          && ibiLastExtreme == old(ibiLastExtreme) && ibiLastPhase == old(ibiLastPhase)
    {
      ibiLatestPhaseDuration := ibiLatestPhaseDuration + ibi;
      var currentIbiPhase := Sign(Sub(Num(ibi), previous));
      if Eq(currentIbiPhase, Num(0.0)) || Eq(currentIbiPhase, ibiLastPhase) {
        return;
      }

      var currentIbiExtreme := previous;
      var latestHrv := Abs(Sub(ibiLastExtreme, currentIbiExtreme));
      var hrvs := hrvHistory.values;
      if Lt(latestHrv, Scale(HRV_MIN_FILTER, Min2(hrvs[|hrvs| - 2], hrvs[|hrvs| - 1]))) {
        return;
      }

      hrvHistory.Update(Num(t), latestHrv);
      ibiLatestPhaseDuration := 0.0;
      ibiLastExtreme := currentIbiExtreme;
      ibiLastPhase := currentIbiPhase;
    }

    /** The state after `update_breath_by_breath_metrics(tRange)` with outcome r. */
    twostate predicate BreathMetricsUpdated(tRange: (Float, Float), sqrt: real -> real, r: Outcome)
      reads Repr
      requires old(Valid())
    {
      var w := old(BreathWindow(ibiHistory.times, ibiHistory.values, tRange.0));
      && unchanged(this, ibiHistory, hrHistory, hrvHistory, nn50History, pnn50History)
      && if |w.0| == 0 then
        r.Fail? && unchanged(rmssdHistory, maxminHistory, sdnnHistory)
      else
        && r == Pass
        && rmssdHistory.Appended(tRange.1, SqrtF(sqrt, RmssdRadicand(w.0, w.1)))
        && maxminHistory.Appended(tRange.1, MaxMin(w.0))
        && sdnnHistory.Appended(tRange.1, SqrtF(sqrt, SdnnRadicand(w.0)))
    }

    /** Computes RMSSD, max-min and SDNN over the IBIs after the breath
        started and stores them at the breath's end time; fails (numpy's
        maximum of an empty array) when there is no such IBI. */
    method UpdateBreathByBreathMetrics(tRange: (Float, Float), sqrt: real -> real) returns (r: Outcome)
      requires Valid()
      modifies rmssdHistory, maxminHistory, sdnnHistory
      ensures Valid() && BreathMetricsUpdated(tRange, sqrt, r)
      ensures r.Pass? ==>
        maxminHistory.values[METRIC_HIST_SIZE - 1].Num? && maxminHistory.values[METRIC_HIST_SIZE - 1].r >= 0.0
    {
      var w := BreathWindow(ibiHistory.times, ibiHistory.values, tRange.0);
      var ibiValues, ibiValuesShifted := w.0, w.1;
      if |ibiValues| == 0 {
        return Fail("zero-size array to reduction operation maximum which has no identity");
      }
      SelectKeepsNum(ibiHistory.values, AfterMask(ibiHistory.times, tRange.0));
      var rmssd := SqrtF(sqrt, RmssdRadicand(ibiValues, ibiValuesShifted));
      var maxmin := MaxMin(ibiValues);
      var sdnn := SqrtF(sqrt, SdnnRadicand(ibiValues));
      rmssdHistory.Update(tRange.1, rmssd);
      maxminHistory.Update(tRange.1, maxmin);
      sdnnHistory.Update(tRange.1, sdnn);
      r := Pass;
    }

    /** Stores NN50 and pNN50 over the IBIs of the last 30 seconds, at the
        time of the last IBI. */
    method UpdateNn50Metrics()
      requires Valid()
      modifies nn50History, pnn50History
      ensures Valid()
      ensures
        var vals := Select(ibiHistory.values, RecentMask(ibiHistory.times, ibiHistory.values));
        var nn50 := CountTrue(Nn50Mask(vals));
        var last := ibiHistory.times[IBI_HIST_SIZE - 1];
        && nn50 <= PairCount(|vals|)
        && nn50History.Appended(last, Num(nn50 as real))
        && pnn50History.Appended(last, Pnn50(nn50, PairCount(|vals|)))
    {
      var times := ibiHistory.times;
      var ibiValues := Select(ibiHistory.values, RecentMask(times, ibiHistory.values));
      var nn50 := CountTrue(Nn50Mask(ibiValues));
      Nn50Bounded(ibiValues);
      var pnn50 := Pnn50(nn50, PairCount(|ibiValues|));
      nn50History.Update(times[|times| - 1], Num(nn50 as real));
      pnn50History.Update(times[|times| - 1], pnn50);
    }

    /** The stored IBIs whose time lies in [startTime, endTime]. */
    method GetIbiSubHistory(startTime: real, endTime: real) returns (sub: HistoryBuffer)
      requires Valid()
      ensures fresh(sub) && sub.Valid()
      ensures sub.times == Select(ibiHistory.times, InRange(ibiHistory.times, startTime, endTime))
      ensures sub.values == Select(ibiHistory.values, InRange(ibiHistory.times, startTime, endTime))
      ensures sub.markers == SubMarkers(ibiHistory.times, ibiHistory.markers, startTime, endTime, IBI_HIST_SIZE)
    {
      sub := ibiHistory.GetSubBuffer(startTime, endTime);
    }
  }
}

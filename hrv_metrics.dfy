/** The numeric part of analysis/HrvAnalyser.py: heart rate from an
    inter-beat interval (IBI), the phase-change rule that yields one heart
    rate variability (HRV) value per half cycle, and the per-breath and
    30-second metrics (RMSSD, max-min, SDNN, NN50, pNN50). */
module HrvMetrics {
  import opened Floats
  import opened History

  /** IBIs outside [IBI_MIN_FILTER, IBI_MAX_FILTER] milliseconds are dropped. */
  const IBI_MIN_FILTER: real := 300.0
  const IBI_MAX_FILTER: real := 1600.0
  /** A new HRV below this fraction of the smaller of the last two is dropped. */
  const HRV_MIN_FILTER: real := 0.2
  /** NN50 looks at the IBIs of the last NN50_WINDOW seconds ... */
  const NN50_WINDOW: real := 30.0
  /** ... and counts successive differences above NN50_THRESHOLD ms. */
  const NN50_THRESHOLD: real := 50.0

  predicate IbiRejected(ibi: real)
  {
    ibi < IBI_MIN_FILTER || ibi > IBI_MAX_FILTER
  }

  /** Real multiplication as a function, so that the solver treats each
      product as one term; with the sign rules the metrics rely on. */
  function Mul(a: real, b: real): (r: real)
    ensures a > 0.0 && b > 0.0 ==> r > 0.0
    ensures a < 0.0 && b < 0.0 ==> r > 0.0
    ensures a == 0.0 || b == 0.0 ==> r == 0.0
  {
    a * b
  }

  /** Multiplying by a positive factor keeps a strict order, on either side. */
  lemma MulStrict(a: real, b: real, c: real)
    requires 0.0 < c
    ensures a < b <==> Mul(a, c) < Mul(b, c)
    ensures a < b <==> Mul(c, a) < Mul(c, b)
  {
    assert b * c - a * c == (b - a) * c;
    assert c * b - c * a == c * (b - a);
  }

  /** `ibi_to_hr`: beats per minute for an IBI in milliseconds, so that
      rate times interval is one minute. */
  function IbiToHr(ibi: real): (hr: real)
    requires ibi != 0.0
    ensures Mul(hr, ibi) == 60000.0
  {
    60.0 / (ibi / 1000.0)
  }

  /** Every accepted IBI gives a heart rate between 37.5 and 200 bpm, and a
      longer IBI a lower rate. */
  lemma AcceptedIbiHeartRate(ibi: real, ibi': real)
    requires !IbiRejected(ibi) && !IbiRejected(ibi')
    ensures 37.5 <= IbiToHr(ibi) <= 200.0
    ensures ibi < ibi' ==> IbiToHr(ibi') < IbiToHr(ibi)
  {
    var hr, hr' := IbiToHr(ibi), IbiToHr(ibi');
    MulStrict(hr, 37.5, ibi);
    MulStrict(200.0, hr, ibi);
    assert Mul(37.5, ibi) <= 60000.0 <= Mul(200.0, ibi);
    MulStrict(ibi, ibi', hr);
    MulStrict(hr', hr, ibi');
  }

  // ---------------------------------------------------------------------------
  // Phase changes and HRV
  // ---------------------------------------------------------------------------

  /** What `update` does with an accepted IBI once it is stored. */
  datatype PhaseStep =
    | Steady          // the IBI trend did not turn (or is flat)
    | LowHrv          // it turned, but the swing is too small to keep
    | Turn(hrv: Float, phase: Float, extreme: Float)
      // it turned: store hrv, and remember the new phase and extreme

  /** The step for a new IBI `ibi` following `prev`, given the last phase and
      extreme and the two most recent stored HRVs. The phase is the sign of
      `ibi - prev`; the extreme of a turn is `prev`, the IBI just before it. */
  function NextPhaseStep(ibi: real, prev: Float, lastPhase: Float, lastExtreme: Float,
                         hrvOlder: Float, hrvNewer: Float): (step: PhaseStep)
    ensures step.Steady? <==> prev.Num? && (ibi == prev.r || Eq(Num(SignOf(ibi - prev.r) as real), lastPhase))
    ensures step.Turn? ==> step.extreme == prev && step.phase == Sign(Sub(Num(ibi), prev))
    ensures step.Turn? ==> step.hrv == Abs(Sub(lastExtreme, prev))
    // a turn flips a known phase
    ensures step.Turn? && prev.Num? && (lastPhase == Num(1.0) || lastPhase == Num(-1.0)) ==>
      step.phase == Num(-lastPhase.r)
    // the filter only ever rejects a value below 20% of both recent HRVs
    ensures step.LowHrv? ==>
      && hrvOlder.Num? && hrvNewer.Num? && lastExtreme.Num? && prev.Num?
      && step == LowHrv
      && Abs(Sub(lastExtreme, prev)).r < HRV_MIN_FILTER * hrvOlder.r
      && Abs(Sub(lastExtreme, prev)).r < HRV_MIN_FILTER * hrvNewer.r
    ensures step.Turn? && step.hrv.Num? && hrvOlder.Num? && hrvNewer.Num? ==>
      step.hrv.r >= 0.0 && (step.hrv.r >= HRV_MIN_FILTER * hrvOlder.r || step.hrv.r >= HRV_MIN_FILTER * hrvNewer.r)
  {
    var phase := Sign(Sub(Num(ibi), prev));
    if Eq(phase, Num(0.0)) || Eq(phase, lastPhase) then Steady
    else
      var hrv := Abs(Sub(lastExtreme, prev));
      if Lt(hrv, Scale(HRV_MIN_FILTER, Min2(hrvOlder, hrvNewer))) then LowHrv
      else Turn(hrv, phase, prev)
  }

  /** With no earlier IBI stored (the first beat), the phase is NaN, which
      equals neither 0 nor the last phase: a NaN HRV is stored and the phase
      and extreme become NaN. */
  lemma FirstBeatStoresNaN(ibi: real, lastPhase: Float, lastExtreme: Float, hrvOlder: Float, hrvNewer: Float)
    ensures NextPhaseStep(ibi, NaN, lastPhase, lastExtreme, hrvOlder, hrvNewer) == Turn(NaN, NaN, NaN)
  {
  }

  /** After a NaN phase (the first beat) every non-flat IBI is a turn, and
      its HRV is NaN while the last extreme is NaN. */
  lemma TurnAfterNaNPhase(ibi: real, prev: real, lastExtreme: Float, hrvOlder: Float, hrvNewer: Float)
    requires ibi != prev
    ensures NextPhaseStep(ibi, Num(prev), NaN, lastExtreme, hrvOlder, hrvNewer).Turn? ||
            NextPhaseStep(ibi, Num(prev), NaN, lastExtreme, hrvOlder, hrvNewer).LowHrv?
    ensures lastExtreme.NaN? ==>
      NextPhaseStep(ibi, Num(prev), NaN, lastExtreme, hrvOlder, hrvNewer).Turn? &&
      NextPhaseStep(ibi, Num(prev), NaN, lastExtreme, hrvOlder, hrvNewer).hrv.NaN?
  {
  }

  // ---------------------------------------------------------------------------
  // Breath-by-breath metrics
  // ---------------------------------------------------------------------------

  /** `times > t0`: false for empty slots and for every slot when t0 is NaN. */
  function AfterMask(ts: seq<Float>, t0: Float): (m: seq<bool>)
    ensures |m| == |ts|
    ensures forall i :: 0 <= i < |ts| ==> (m[i] <==> ts[i].Num? && t0.Num? && ts[i].r > t0.r)
    ensures t0.NaN? ==> CountTrue(m) == 0
  {
    var m := seq(|ts|, i requires 0 <= i < |ts| => Gt(ts[i], t0));
    CountTrueBounds(m);
    m
  }

  /** `np.roll(s, 1)`: the last entry moves to the front. */
  function RolledRight<T>(s: seq<T>): (r: seq<T>)
    requires |s| > 0
    ensures |r| == |s| && r[0] == s[|s| - 1]
    ensures forall i :: 0 < i < |s| ==> r[i] == s[i - 1]
  {
    [s[|s| - 1]] + s[..|s| - 1]
  }

  /** The IBIs after t0, each with the IBI stored in the slot before it
      (the last slot for slot 0). */
  function BreathWindow(ts: seq<Float>, vs: seq<Float>, t0: Float): (w: (seq<Float>, seq<Float>))
    requires |ts| == |vs| > 0
    ensures |w.0| == |w.1| == CountTrue(AfterMask(ts, t0))
  {
    var mask := AfterMask(ts, t0);
    SelectLength(vs, mask);
    SelectLength(RolledRight(vs), mask);
    (Select(vs, mask), Select(RolledRight(vs), mask))
  }

  /** Each IBI of the window is paired with its predecessor in the buffer. */
  lemma BreathWindowPairs(ts: seq<Float>, vs: seq<Float>, t0: Float, i: nat)
    requires |ts| == |vs| > 0 && i < |ts| && Gt(ts[i], t0)
    ensures CountTrue(AfterMask(ts, t0)[..i]) < |BreathWindow(ts, vs, t0).0|
    ensures BreathWindow(ts, vs, t0).0[CountTrue(AfterMask(ts, t0)[..i])] == vs[i]
    ensures BreathWindow(ts, vs, t0).1[CountTrue(AfterMask(ts, t0)[..i])] ==
      if i == 0 then vs[|vs| - 1] else vs[i - 1]
  {
    SelectAt(vs, AfterMask(ts, t0), i);
    SelectAt(RolledRight(vs), AfterMask(ts, t0), i);
  }

  function Sum(xs: seq<real>): real
    decreases |xs|
  {
    if xs == [] then 0.0 else Sum(xs[..|xs| - 1]) + xs[|xs| - 1]
  }

  /** `x**2`: never negative, and zero only for zero. */
  function Square(x: real): (r: real)
    ensures r >= 0.0
    ensures x != 0.0 ==> r > 0.0
    ensures x == 0.0 ==> r == 0.0
  {
    Mul(x, x)
  }

  /** `np.sum((xs - ys)**2)`. */
  function SumSquaredDiffs(xs: seq<real>, ys: seq<real>): real
    requires |xs| == |ys|
    decreases |xs|
  {
    if xs == [] then 0.0
    else SumSquaredDiffs(xs[..|xs| - 1], ys[..|ys| - 1]) + Square(xs[|xs| - 1] - ys[|ys| - 1])
  }

  /** The sum of squared differences is never negative, and is zero exactly
      when the two sequences are equal. */
  lemma {:induction false} SumSquaredDiffsZero(xs: seq<real>, ys: seq<real>)
    requires |xs| == |ys|
    ensures SumSquaredDiffs(xs, ys) >= 0.0
    ensures SumSquaredDiffs(xs, ys) == 0.0 <==> xs == ys
    decreases |xs|
  {
    if xs != [] {
      var n := |xs|;
      SumSquaredDiffsZero(xs[..n - 1], ys[..n - 1]);
      if xs == ys {
        assert xs[..n - 1] == ys[..n - 1];
      } else if xs[..n - 1] == ys[..n - 1] {
        assert xs == xs[..n - 1] + [xs[n - 1]] && ys == ys[..n - 1] + [ys[n - 1]];
      }
    }
  }

  /** The square of RMSSD: the mean squared successive difference, NaN as
      soon as one of the values is NaN. */
  function RmssdRadicand(vals: seq<Float>, prevs: seq<Float>): (r: Float)
    requires |vals| == |prevs| > 0
    ensures r.Num? <==> AllNum(vals) && AllNum(prevs)
    ensures r.Num? ==> r.r >= 0.0 && (r.r == 0.0 <==> vals == prevs)
  {
    if AllNum(vals) && AllNum(prevs) then
      var xs, ys := Reals(vals), Reals(prevs);
      SumSquaredDiffsZero(xs, ys);
      assert xs == ys ==> vals == prevs;
      Num(SumSquaredDiffs(xs, ys) / |vals| as real)
    else NaN
  }

  /** `np.max`. */
  function SeqMax(xs: seq<real>): (m: real)
    requires |xs| > 0
    ensures m in xs && forall i :: 0 <= i < |xs| ==> xs[i] <= m
    decreases |xs|
  {
    if |xs| == 1 then xs[0]
    else
      var m := SeqMax(xs[..|xs| - 1]);
      assert forall i :: 0 <= i < |xs| - 1 ==> xs[i] == xs[..|xs| - 1][i];
      if m < xs[|xs| - 1] then xs[|xs| - 1] else m
  }

  /** `np.min`. */
  function SeqMin(xs: seq<real>): (m: real)
    requires |xs| > 0
    ensures m in xs && forall i :: 0 <= i < |xs| ==> m <= xs[i]
    decreases |xs|
  {
    if |xs| == 1 then xs[0]
    else
      var m := SeqMin(xs[..|xs| - 1]);
      assert forall i :: 0 <= i < |xs| - 1 ==> xs[i] == xs[..|xs| - 1][i];
      if xs[|xs| - 1] < m then xs[|xs| - 1] else m
  }

  predicate AllEqual(xs: seq<real>)
  {
    forall i, j :: 0 <= i < |xs| && 0 <= j < |xs| ==> xs[i] == xs[j]
  }

  /** `calculate_maxmin`: the spread of the values; NaN when one is NaN
      (numpy's max and min propagate NaN). */
  function MaxMin(vals: seq<Float>): (r: Float)
    requires |vals| > 0
    ensures r.Num? <==> AllNum(vals)
    ensures r.Num? ==> r.r >= 0.0 && (r.r == 0.0 <==> AllEqual(Reals(vals)))
    ensures r.Num? ==> forall i, j :: 0 <= i < |vals| && 0 <= j < |vals| ==> vals[i].r - vals[j].r <= r.r
    ensures r.Num? ==> exists i, j :: 0 <= i < |vals| && 0 <= j < |vals| && r.r == vals[i].r - vals[j].r
  {
    if AllNum(vals) then
      var xs := Reals(vals);
      Num(SeqMax(xs) - SeqMin(xs))
    else NaN
  }

  function Mean(xs: seq<real>): real
    requires |xs| > 0
  {
    Sum(xs) / |xs| as real
  }

  lemma {:induction false} SumOfConstant(xs: seq<real>, c: real)
    requires forall i :: 0 <= i < |xs| ==> xs[i] == c
    ensures Sum(xs) == |xs| as real * c
    decreases |xs|
  {
    if xs != [] {
      SumOfConstant(xs[..|xs| - 1], c);
    }
  }

  /** `np.var(xs, ddof=1)`: squared deviations from the mean over n - 1. */
  function SampleVariance(xs: seq<real>): (v: real)
    requires |xs| >= 2
    ensures v >= 0.0 && (v == 0.0 <==> AllEqual(xs))
  {
    DeviationsVanish(xs);
    SumSquaredDiffs(xs, Repeat(Mean(xs), |xs|)) / (|xs| - 1) as real
  }

  /** The squared deviations from the mean sum to zero exactly when all
      values are equal (and so equal to the mean). */
  lemma DeviationsVanish(xs: seq<real>)
    requires |xs| > 0
    ensures SumSquaredDiffs(xs, Repeat(Mean(xs), |xs|)) >= 0.0
    ensures SumSquaredDiffs(xs, Repeat(Mean(xs), |xs|)) == 0.0 <==> AllEqual(xs)
  {
    var ms := Repeat(Mean(xs), |xs|);
    SumSquaredDiffsZero(xs, ms);
    if AllEqual(xs) {
      MeanOfConstant(xs, xs[0]);
      assert xs == ms;
    }
    if xs == ms {
      assert forall i :: 0 <= i < |xs| ==> xs[i] == Mean(xs);
    }
  }

  lemma MeanOfConstant(xs: seq<real>, c: real)
    requires |xs| > 0 && forall i :: 0 <= i < |xs| ==> xs[i] == c
    ensures Mean(xs) == c
  {
    SumOfConstant(xs, c);
  }

  /** The square of SDNN (`np.std(ibi, ddof=1)`): NaN for a single value or
      when one value is NaN. */
  function SdnnRadicand(vals: seq<Float>): (r: Float)
    requires |vals| > 0
    ensures r.Num? <==> |vals| >= 2 && AllNum(vals)
    ensures r.Num? ==> r.r >= 0.0 && (r.r == 0.0 <==> AllEqual(Reals(vals)))
  {
    if |vals| >= 2 && AllNum(vals) then Num(SampleVariance(Reals(vals))) else NaN
  }

  // ---------------------------------------------------------------------------
  // NN50 and pNN50
  // ---------------------------------------------------------------------------

  /** The stored IBIs of the NN50_WINDOW seconds before the last stored time
      (`times > times[-1] - 30` and not NaN). */
  function RecentMask(ts: seq<Float>, vs: seq<Float>): (m: seq<bool>)
    requires |ts| == |vs| > 0
    ensures |m| == |ts|
    ensures forall i :: 0 <= i < |ts| ==>
      m[i] == (ts[i].Num? && ts[|ts| - 1].Num? && ts[i].r > ts[|ts| - 1].r - NN50_WINDOW && vs[i].Num?)
  {
    var t0 := Sub(ts[|ts| - 1], Num(NN50_WINDOW));
    seq(|ts|, i requires 0 <= i < |ts| => Gt(ts[i], t0) && vs[i].Num?)
  }

  /** For each successive pair (vals[k], vals[k+1]): does it differ by more
      than NN50_THRESHOLD? */
  function Nn50Mask(vals: seq<Float>): (m: seq<bool>)
    ensures |m| == if |vals| == 0 then 0 else |vals| - 1
    ensures forall k :: 0 <= k < |m| ==>
      (m[k] <==> vals[k].Num? && vals[k + 1].Num? &&
                 (vals[k].r - vals[k + 1].r > NN50_THRESHOLD || vals[k + 1].r - vals[k].r > NN50_THRESHOLD))
  {
    if |vals| == 0 then []
    else seq(|vals| - 1, k requires 0 <= k < |vals| - 1 => Gt(Abs(Sub(vals[k], vals[k + 1])), Num(NN50_THRESHOLD)))
  }

  /** `len(ibi_values[:-1])`: the number of successive pairs. */
  function PairCount(n: nat): nat
  {
    if n == 0 then 0 else n - 1
  }

  /** NN50 as a percentage of the pairs; 0/0 is NaN under numpy division. */
  function Pnn50(nn50: nat, pairs: nat): (r: Float)
    requires nn50 <= pairs
    ensures r.NaN? <==> pairs == 0
    ensures r.Num? ==> 0.0 <= r.r <= 100.0
    ensures r.Num? ==> (r.r == 0.0 <==> nn50 == 0) && (r.r == 100.0 <==> nn50 == pairs)
  {
    if pairs == 0 then NaN
    else
      var q := nn50 as real / pairs as real;
      assert q * pairs as real == nn50 as real;
      Num(q * 100.0)
  }

  /** The count of large successive differences never exceeds the number of
      pairs, so pNN50 is a percentage. */
  lemma Nn50Bounded(vals: seq<Float>)
    ensures CountTrue(Nn50Mask(vals)) <= PairCount(|vals|)
    ensures CountTrue(Nn50Mask(vals)) == 0 <==>
      forall k :: 0 <= k < |vals| - 1 ==>
        !(vals[k].Num? && vals[k + 1].Num? &&
          (vals[k].r - vals[k + 1].r > NN50_THRESHOLD || vals[k + 1].r - vals[k].r > NN50_THRESHOLD))
  {
    CountTrueBounds(Nn50Mask(vals));
  }
}

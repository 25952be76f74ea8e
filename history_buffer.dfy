/** analysis/HistoryBuffer.py: a fixed-capacity rolling store of (time, value)
    samples with a queue of marker indices into it.

    `times` and `values` are parallel slot arrays in which NaN is an empty
    slot; the newest sample is always in the last slot. `markers` is a queue
    of slot indices (-1 for "no marker") that `update` keeps pointing at the
    same samples while they shift left. */
module History {
  import opened Floats

  // ---------------------------------------------------------------------------
  // Sequence operations that the buffer's numpy expressions stand for
  // ---------------------------------------------------------------------------

  /** `np.roll(s, -1)` followed by `s[-1] = x`: drop slot 0, write x last. */
  function Shifted<T>(s: seq<T>, x: T): (r: seq<T>)
    requires |s| > 0
    ensures |r| == |s| && r[|s| - 1] == x
    ensures forall i :: 0 <= i < |s| - 1 ==> r[i] == s[i + 1]
  {
    s[1..] + [x]
  }

  /** `markers - 1`, then every entry below -1 clamped back to -1. */
  function Decremented(m: seq<int>): (r: seq<int>)
    ensures |r| == |m|
  {
    seq(|m|, i requires 0 <= i < |m| => if m[i] - 1 < -1 then -1 else m[i] - 1)
  }

  /** `~np.isnan(s)`: no bit is set exactly for an all-empty buffer, and
      every bit exactly for a buffer without an empty slot. */
  function NotNaN(s: seq<Float>): (m: seq<bool>)
    ensures |m| == |s| && forall i :: 0 <= i < |s| ==> m[i] == s[i].Num?
    ensures CountTrue(m) == 0 <==> AllNaN(s)
    ensures CountTrue(m) == |s| <==> AllNum(s)
  {
    var m := seq(|s|, i requires 0 <= i < |s| => s[i].Num?);
    CountTrueBounds(m);
    m
  }

  /** `np.count_nonzero(m)`. */
  function CountTrue(m: seq<bool>): nat
    decreases |m|
  {
    if m == [] then 0 else CountTrue(m[..|m| - 1]) + (if m[|m| - 1] then 1 else 0)
  }

  /** numpy boolean indexing `s[mask]`: the entries whose mask bit is set,
      in index order. */
  function Select<T>(s: seq<T>, mask: seq<bool>): seq<T>
    requires |mask| == |s|
    decreases |s|
  {
    if s == [] then []
    else Select(s[..|s| - 1], mask[..|s| - 1]) + (if mask[|s| - 1] then [s[|s| - 1]] else [])
  }

  /** Marker entries are -1 or a slot index of a buffer of `size` slots. */
  predicate ValidMarkers(ms: seq<int>, size: nat)
  {
    forall k :: 0 <= k < |ms| ==> -1 <= ms[k] < size
  }

  // ---------------------------------------------------------------------------
  // Counting and selection lemmas
  // ---------------------------------------------------------------------------

  lemma {:induction false} CountTrueAppend(a: seq<bool>, b: seq<bool>)
    ensures CountTrue(a + b) == CountTrue(a) + CountTrue(b)
    decreases |b|
  {
    if b != [] {
      assert (a + b)[..|a + b| - 1] == a + b[..|b| - 1];
      CountTrueAppend(a, b[..|b| - 1]);
    } else {
      assert a + b == a;
    }
  }

  /** The count is at most the length; it is 0 exactly when no bit is set
      and the full length exactly when every bit is set. */
  lemma {:induction false} CountTrueBounds(m: seq<bool>)
    ensures CountTrue(m) <= |m|
    ensures CountTrue(m) == 0 <==> forall i :: 0 <= i < |m| ==> !m[i]
    ensures CountTrue(m) == |m| <==> forall i :: 0 <= i < |m| ==> m[i]
    decreases |m|
  {
    if m != [] {
      var p := m[..|m| - 1];
      CountTrueBounds(p);
      assert forall i :: 0 <= i < |p| ==> p[i] == m[i];
    }
  }

  lemma {:induction false} SelectLength<T>(s: seq<T>, mask: seq<bool>)
    requires |mask| == |s|
    ensures |Select(s, mask)| == CountTrue(mask)
    decreases |s|
  {
    if s != [] {
      SelectLength(s[..|s| - 1], mask[..|s| - 1]);
    }
  }

  /** A selected entry sits in the result at its rank: the number of set
      bits before it. */
  lemma {:induction false} SelectAt<T>(s: seq<T>, mask: seq<bool>, i: nat)
    requires |mask| == |s| && i < |s| && mask[i]
    ensures CountTrue(mask[..i]) < |Select(s, mask)|
    ensures Select(s, mask)[CountTrue(mask[..i])] == s[i]
    decreases |s|
  {
    var n := |s|;
    var s', m' := s[..n - 1], mask[..n - 1];
    SelectLength(s', m');
    SelectLength(s, mask);
    if i == n - 1 {
      assert mask[..i] == m';
    } else {
      assert m'[..i] == mask[..i];
      SelectAt(s', m', i);
    }
  }

  /** Every entry of the result is a selected entry of s, at its rank. */
  lemma {:induction false} SelectFrom<T>(s: seq<T>, mask: seq<bool>, k: nat)
    requires |mask| == |s| && k < |Select(s, mask)|
    ensures exists i :: 0 <= i < |s| && mask[i] && CountTrue(mask[..i]) == k && Select(s, mask)[k] == s[i]
    decreases |s|
  {
    var n := |s|;
    var s', m' := s[..n - 1], mask[..n - 1];
    SelectLength(s', m');
    if k < |Select(s', m')| {
      SelectFrom(s', m', k);
      var i :| 0 <= i < |s'| && m'[i] && CountTrue(m'[..i]) == k && Select(s', m')[k] == s'[i];
      assert m'[..i] == mask[..i];
    } else {
      assert mask[..n - 1] == m';
      assert mask[n - 1] && Select(s, mask)[k] == s[n - 1];
    }
  }

  /** Selecting only filled slots yields only filled slots. */
  lemma SelectKeepsNum(s: seq<Float>, mask: seq<bool>)
    requires |mask| == |s|
    requires forall i :: 0 <= i < |s| && mask[i] ==> s[i].Num?
    ensures AllNum(Select(s, mask))
  {
    forall k | 0 <= k < |Select(s, mask)|
      ensures Select(s, mask)[k].Num?
    {
      SelectFrom(s, mask, k);
    }
  }

  // ---------------------------------------------------------------------------
  // Writes in order
  // ---------------------------------------------------------------------------

  /** The slots after `update` has written each element of xs in turn. */
  function Fill<T>(s: seq<T>, xs: seq<T>): seq<T>
    requires |s| > 0
    decreases |xs|
  {
    if xs == [] then s else Fill(Shifted(s, xs[0]), xs[1..])
  }

  /** Writing xs keeps the last |s| elements of s followed by xs: the ring
      holds the most recent samples in write order. */
  lemma {:induction false} FillKeepsLast<T>(s: seq<T>, xs: seq<T>)
    requires |s| > 0
    ensures Fill(s, xs) == (s + xs)[|xs|..]
    decreases |xs|
  {
    if xs != [] {
      FillKeepsLast(Shifted(s, xs[0]), xs[1..]);
      assert Shifted(s, xs[0]) + xs[1..] == (s + xs)[1..];
    }
  }

  /** After k non-empty writes into a fresh buffer of n slots, the first
      n - min(k, n) slots are still empty, the rest are the last min(k, n)
      written values in write order, and `n_values` is min(k, n). */
  lemma {:induction false} FreshBufferHoldsLastWrites(n: nat, xs: seq<Float>)
    requires n > 0 && AllNum(xs)
    ensures var m := if |xs| < n then |xs| else n;
      && Fill(Repeat(NaN, n), xs) == Repeat(NaN, n - m) + xs[|xs| - m..]
      && CountTrue(NotNaN(Fill(Repeat(NaN, n), xs))) == m
  {
    var m := if |xs| < n then |xs| else n;
    FillKeepsLast(Repeat(NaN, n), xs);
    var r := Fill(Repeat(NaN, n), xs);
    assert r == Repeat(NaN, n - m) + xs[|xs| - m..];
    assert NotNaN(r) == NotNaN(Repeat(NaN, n - m)) + NotNaN(xs[|xs| - m..]);
    CountTrueAppend(NotNaN(Repeat(NaN, n - m)), NotNaN(xs[|xs| - m..]));
    CountTrueBounds(NotNaN(Repeat(NaN, n - m)));
    CountTrueBounds(NotNaN(xs[|xs| - m..]));
  }

  /** Empty slots only precede filled ones: what writing non-empty samples
      one at a time into a fresh buffer leaves. */
  predicate EmptyThenFull(s: seq<Float>)
    decreases |s|
  {
    |s| <= 1 || ((s[0].Num? ==> s[1].Num?) && EmptyThenFull(s[1..]))
  }

  /** A buffer with no sample yet. */
  lemma {:induction false} AllNaNIsEmptyThenFull(s: seq<Float>)
    requires AllNaN(s)
    ensures EmptyThenFull(s)
    decreases |s|
  {
    if 1 < |s| {
      AllNaNIsEmptyThenFull(s[1..]);
    }
  }

  /** Once one slot is filled, every later slot is. */
  lemma {:induction false} EmptyThenFullMeaning(s: seq<Float>, i: nat, j: nat)
    requires EmptyThenFull(s) && i <= j < |s| && s[i].Num?
    ensures s[j].Num?
    decreases |s|
  {
    if 0 < i {
      EmptyThenFullMeaning(s[1..], i - 1, j - 1);
    } else if 0 < j {
      EmptyThenFullMeaning(s[1..], 0, j - 1);
    }
  }

  lemma {:induction false} EmptyThenFullAppend(s: seq<Float>, x: Float)
    requires EmptyThenFull(s) && x.Num?
    ensures EmptyThenFull(s + [x])
    decreases |s|
  {
    if 1 < |s| {
      assert (s + [x])[1..] == s[1..] + [x];
      EmptyThenFullAppend(s[1..], x);
    } else if |s| == 1 {
      assert (s + [x])[1..] == [x];
    }
  }

  lemma ShiftedKeepsEmptyThenFull(s: seq<Float>, x: Float)
    requires |s| > 0 && x.Num? && EmptyThenFull(s)
    ensures EmptyThenFull(Shifted(s, x))
  {
    EmptyThenFullAppend(s[1..], x);
  }

  /** In a buffer filled from the right, at least k slots are filled exactly
      when the k-th slot from the end is. */
  lemma {:induction false} EmptyThenFullCount(s: seq<Float>, k: nat)
    requires EmptyThenFull(s) && 1 <= k <= |s|
    ensures CountTrue(NotNaN(s)) >= k <==> s[|s| - k].Num?
    decreases |s|
  {
    var rest := s[1..];
    assert NotNaN(s) == [s[0].Num?] + NotNaN(rest);
    CountTrueAppend([s[0].Num?], NotNaN(rest));
    assert CountTrue([s[0].Num?]) == (if s[0].Num? then 1 else 0);
    if s[0].Num? {
      forall j | 0 <= j < |s|
        ensures NotNaN(s)[j]
      {
        EmptyThenFullMeaning(s, 0, j);
      }
      CountTrueBounds(NotNaN(s));
      EmptyThenFullMeaning(s, 0, |s| - k);
    } else if k == |s| {
      CountTrueBounds(NotNaN(rest));
    } else {
      assert rest[|rest| - k] == s[|s| - k];
      EmptyThenFullCount(rest, k);
    }
  }

  /** After a shift, every marker still names the sample it named before,
      and the marker of a sample that was evicted or was slot 0 becomes -1. */
  lemma MarkersFollowSamples<T>(s: seq<T>, x: T, ms: seq<int>)
    requires |s| > 0 && ValidMarkers(ms, |s|)
    ensures ValidMarkers(Decremented(ms), |s|)
    ensures forall k :: 0 <= k < |ms| && ms[k] >= 1 ==>
      0 <= Decremented(ms)[k] && Shifted(s, x)[Decremented(ms)[k]] == s[ms[k]]
    ensures forall k :: 0 <= k < |ms| && ms[k] <= 0 ==> Decremented(ms)[k] == -1
  {
  }

  // ---------------------------------------------------------------------------
  // Query results
  // ---------------------------------------------------------------------------

  /** `QPointF(x, y)`. */
  datatype Point = Point(x: Float, y: Float)

  /** One `(time - now, value)` pair per slot. */
  function RelativePoints(ts: seq<Float>, vs: seq<Float>, now: real): (ps: seq<Point>)
    requires |ts| == |vs|
    ensures |ps| == |vs|
  {
    seq(|vs|, i requires 0 <= i < |vs| => Point(Sub(ts[i], Num(now)), vs[i]))
  }

  /** One pair per marker-queue entry; entries below 0 get a placeholder that
      `MarkerMask` never selects. */
  function MarkedPoints(ts: seq<Float>, vs: seq<Float>, ms: seq<int>, now: real): (ps: seq<Point>)
    requires |ts| == |vs| && ValidMarkers(ms, |ts|)
    ensures |ps| == |ms|
  {
    seq(|ms|, k requires 0 <= k < |ms| =>
      if ms[k] >= 0 then Point(Sub(ts[ms[k]], Num(now)), vs[ms[k]]) else Point(NaN, NaN))
  }

  /** `marker_id >= 0` for each queue entry. */
  function MarkerMask(ms: seq<int>): (m: seq<bool>)
    ensures |m| == |ms| && forall k :: 0 <= k < |ms| ==> m[k] == (ms[k] >= 0)
  {
    seq(|ms|, k requires 0 <= k < |ms| => ms[k] >= 0)
  }

  /** `(times >= t_start) & (times <= t_end)`; NaN slots are never in range. */
  function InRange(ts: seq<Float>, tStart: real, tEnd: real): (m: seq<bool>)
    ensures |m| == |ts|
    ensures forall i :: 0 <= i < |ts| ==> m[i] == (ts[i].Num? && tStart <= ts[i].r <= tEnd)
  {
    seq(|ts|, i requires 0 <= i < |ts| => Ge(ts[i], Num(tStart)) && Le(ts[i], Num(tEnd)))
  }

  /** `np.where(s == x)[0][0]` when a match exists: the first index holding a
      value equal to x, or |s| when there is none. */
  function FirstMatch(s: seq<Float>, x: Float): (j: nat)
    ensures j <= |s|
    ensures j < |s| ==> Eq(s[j], x)
    ensures forall i :: 0 <= i < j ==> !Eq(s[i], x)
    decreases |s|
  {
    if s == [] then 0 else if Eq(s[0], x) then 0 else 1 + FirstMatch(s[1..], x)
  }

  /** The slot in the sub-buffer of [tStart, tEnd] that `get_sub_buffer`
      gives to the marked slot m: the first selected slot with m's time. */
  function NewIndex(ts: seq<Float>, tStart: real, tEnd: real, m: nat): (j: nat)
    requires m < |ts| && InRange(ts, tStart, tEnd)[m]
    ensures j <= CountTrue(InRange(ts, tStart, tEnd)[..m])
    ensures j < |Select(ts, InRange(ts, tStart, tEnd))|
    ensures Eq(Select(ts, InRange(ts, tStart, tEnd))[j], ts[m])
  {
    SelectAt(ts, InRange(ts, tStart, tEnd), m);
    FirstMatch(Select(ts, InRange(ts, tStart, tEnd)), ts[m])
  }

  /** When the buffer's times are pairwise distinct, a marked sample keeps its
      own position: its new index is the number of in-range slots before it. */
  lemma NewIndexIsRank(ts: seq<Float>, tStart: real, tEnd: real, m: nat)
    requires m < |ts| && InRange(ts, tStart, tEnd)[m]
    requires forall i, j :: 0 <= i < j < |ts| ==> !Eq(ts[i], ts[j])
    ensures NewIndex(ts, tStart, tEnd, m) == CountTrue(InRange(ts, tStart, tEnd)[..m])
  {
    var mask := InRange(ts, tStart, tEnd);
    var j := NewIndex(ts, tStart, tEnd, m);
    SelectFrom(ts, mask, j);
    var i :| 0 <= i < |ts| && mask[i] && CountTrue(mask[..i]) == j && Select(ts, mask)[j] == ts[i];
    assert i == m;
  }

  /** Marker q of the queue is in range and moves to sub-buffer slot j. */
  predicate MovesTo(ts: seq<Float>, ms: seq<int>, tStart: real, tEnd: real, q: nat, j: nat)
    requires ValidMarkers(ms, |ts|) && q < |ms|
  {
    ms[q] >= 0 && InRange(ts, tStart, tEnd)[ms[q]] && NewIndex(ts, tStart, tEnd, ms[q]) == j
  }

  /** The marker array of `get_sub_buffer` once its loop has visited the
      first k queue entries. */
  function SubMarkers(ts: seq<Float>, ms: seq<int>, tStart: real, tEnd: real, k: nat): (r: seq<int>)
    requires ValidMarkers(ms, |ts|) && k <= |ms|
    ensures |r| == |Select(ts, InRange(ts, tStart, tEnd))|
    decreases k
  {
    if k == 0 then
      SelectLength(ts, InRange(ts, tStart, tEnd));
      Repeat(-1, CountTrue(InRange(ts, tStart, tEnd)))
    else
      var prev := SubMarkers(ts, ms, tStart, tEnd, k - 1);
      var m := ms[k - 1];
      if m >= 0 && InRange(ts, tStart, tEnd)[m] then
        var j := NewIndex(ts, tStart, tEnd, m);
        prev[j := j]
      else
        prev
  }

  /** Sub-buffer marker slot j holds j exactly when some in-range marker
      moved to j, and -1 otherwise. */
  lemma {:induction false} SubMarkersMeaning(ts: seq<Float>, ms: seq<int>, tStart: real, tEnd: real, k: nat)
    requires ValidMarkers(ms, |ts|) && k <= |ms|
    ensures forall j :: 0 <= j < |SubMarkers(ts, ms, tStart, tEnd, k)| ==>
      (SubMarkers(ts, ms, tStart, tEnd, k)[j] == j || SubMarkers(ts, ms, tStart, tEnd, k)[j] == -1)
    ensures forall j :: 0 <= j < |SubMarkers(ts, ms, tStart, tEnd, k)| ==>
      (SubMarkers(ts, ms, tStart, tEnd, k)[j] == j <==> exists q :: 0 <= q < k && MovesTo(ts, ms, tStart, tEnd, q, j))
    decreases k
  {
    var r := SubMarkers(ts, ms, tStart, tEnd, k);
    if k > 0 {
      SubMarkersMeaning(ts, ms, tStart, tEnd, k - 1);
      var prev := SubMarkers(ts, ms, tStart, tEnd, k - 1);
      var m := ms[k - 1];
      forall j | 0 <= j < |r|
        ensures (r[j] == j || r[j] == -1)
        ensures (r[j] == j <==> exists q :: 0 <= q < k && MovesTo(ts, ms, tStart, tEnd, q, j))
      {
        if m >= 0 && InRange(ts, tStart, tEnd)[m] && NewIndex(ts, tStart, tEnd, m) == j {
          assert r == prev[j := j] && r[j] == j;
          assert MovesTo(ts, ms, tStart, tEnd, k - 1, j);
        } else {
          assert |prev| == |r| && r[j] == prev[j];
          assert prev[j] == j || prev[j] == -1;
          assert !MovesTo(ts, ms, tStart, tEnd, k - 1, j);
          assert prev[j] == j <==> exists q :: 0 <= q < k - 1 && MovesTo(ts, ms, tStart, tEnd, q, j);
          if q :| 0 <= q < k && MovesTo(ts, ms, tStart, tEnd, q, j) {
            assert q < k - 1;
          }
        }
      }
    }
  }

  function Floor(x: real): real { x.Floor as real }

  function Ceil(x: real): real { -((-x).Floor as real) }

  /** `np.nanmin`: the least number among the slots, None when all are NaN. */
  function NanMin(s: seq<Float>): (r: Option<real>)
    ensures r.None? <==> AllNaN(s)
    ensures r.Some? ==> (exists i :: 0 <= i < |s| && s[i] == Num(r.value))
    ensures r.Some? ==> forall i :: 0 <= i < |s| && s[i].Num? ==> r.value <= s[i].r
    decreases |s|
  {
    if s == [] then None
    else
      var p := NanMin(s[..|s| - 1]);
      var x := s[|s| - 1];
      if x.NaN? then p
      else if p.Some? && p.value <= x.r then p
      else Some(x.r)
  }

  /** `np.nanmax`: the greatest number among the slots, None when all are NaN. */
  function NanMax(s: seq<Float>): (r: Option<real>)
    ensures r.None? <==> AllNaN(s)
    ensures r.Some? ==> (exists i :: 0 <= i < |s| && s[i] == Num(r.value))
    ensures r.Some? ==> forall i :: 0 <= i < |s| && s[i].Num? ==> s[i].r <= r.value
    decreases |s|
  {
    if s == [] then None
    else
      var p := NanMax(s[..|s| - 1]);
      var x := s[|s| - 1];
      if x.NaN? then p
      else if p.Some? && x.r <= p.value then p
      else Some(x.r)
  }

  // ---------------------------------------------------------------------------
  // The buffer
  // ---------------------------------------------------------------------------

  class HistoryBuffer {
    var times: seq<Float>
    var values: seq<Float>
    var markers: seq<int>

    ghost predicate Valid()
      reads this
    {
      |values| == |times| && |markers| == |times| && ValidMarkers(markers, |times|)
    }

    /** A buffer of `bufferSize` empty slots and as many empty markers. */
    /** The state `HistoryBuffer(n)` creates: n NaN times and values and
        n unused markers. */
    ghost predicate Fresh(n: nat)
      reads this
    {
      times == Repeat(NaN, n) && values == Repeat(NaN, n) && markers == Repeat(-1, n)
    }

    constructor (bufferSize: nat)
      ensures Valid() && Fresh(bufferSize)
      ensures IsEmpty() && NValues() == 0
    {
      values := Repeat(NaN, bufferSize);
      times := Repeat(NaN, bufferSize);
      markers := Repeat(-1, bufferSize);
      new;
      assert AllNaN(values);
      assert IsEmpty();
    }

    /** The buffer after `update(newTime, newValue)`: every slot moved one
        place towards slot 0, the new sample in the last slot, and every
        marker index one less (-1 once it has left the buffer). */
    twostate predicate Appended(newTime: Float, newValue: Float)
      reads this
      requires old(Valid()) && |old(times)| > 0
    {
      && times == Shifted(old(times), newTime)
      && values == Shifted(old(values), newValue)
      && markers == Decremented(old(markers))
    }

    /** Appends a sample, evicting slot 0; markers follow their samples and
        the marker of the evicted sample becomes -1. */
    method Update(newTime: Float, newValue: Float)
      requires Valid() && |times| > 0
      modifies this
      ensures Valid() && Appended(newTime, newValue)
    {
      times := Shifted(times, newTime);
      values := Shifted(values, newValue);
      markers := Decremented(markers);
    }

    /** Pushes `index` onto the marker queue, dropping its oldest entry. */
    method AddMarker(index: int)
      requires Valid() && |times| > 0 && -1 <= index < |times|
      modifies this
      ensures Valid()
      ensures times == old(times) && values == old(values)
      ensures markers == Shifted(old(markers), index)
    {
      markers := Shifted(markers, index);
    }

    /** The times as seconds relative to `now` (5 s in the past is -5). */
    function RelativeTimes(now: real): (rel: seq<Float>)
      reads this
      ensures |rel| == |times|
      ensures forall i :: 0 <= i < |times| ==>
        (rel[i].NaN? <==> times[i].NaN?) && (rel[i].Num? ==> times[i].r == now + rel[i].r)
    {
      var ts := times;
      seq(|ts|, i requires 0 <= i < |ts| => Sub(ts[i], Num(now)))
    }

    /** One `(time - now, value)` point per non-empty value slot, in slot order. */
    method GetQpointList(now: real) returns (series: seq<Point>)
      requires Valid()
      ensures series == Select(RelativePoints(times, values, now), NotNaN(values))
      ensures |series| == NValues()
    {
      var points := RelativePoints(times, values, now);
      var mask := NotNaN(values);
      series := [];
      for i := 0 to |values|
        invariant series == Select(points[..i], mask[..i])
      {
        assert points[..i + 1][..i] == points[..i] && mask[..i + 1][..i] == mask[..i];
        if values[i].Num? {
          series := series + [Point(Sub(times[i], Num(now)), values[i])];
        }
      }
      assert points[..|values|] == points && mask[..|values|] == mask;
      SelectLength(points, mask);
    }

    /** One `(time - now, value)` point per marker-queue entry >= 0, in queue order. */
    method GetQpointMarkerList(now: real) returns (series: seq<Point>)
      requires Valid()
      ensures series == Select(MarkedPoints(times, values, markers, now), MarkerMask(markers))
      ensures |series| == CountTrue(MarkerMask(markers))
    {
      var points := MarkedPoints(times, values, markers, now);
      var mask := MarkerMask(markers);
      series := [];
      for k := 0 to |markers|
        invariant series == Select(points[..k], mask[..k])
      {
        assert points[..k + 1][..k] == points[..k] && mask[..k + 1][..k] == mask[..k];
        var markerId := markers[k];
        if markerId >= 0 {
          series := series + [Point(Sub(times[markerId], Num(now)), values[markerId])];
        }
      }
      assert points[..|markers|] == points && mask[..|markers|] == mask;
      SelectLength(points, mask);
    }

    /** `(rel_t > lo) & (rel_t <= hi)` over the relative times. */
    function WindowMask(lo: real, hi: real, now: real): (m: seq<bool>)
      reads this
      ensures |m| == |times|
    {
      var rel := RelativeTimes(now);
      seq(|rel|, i requires 0 <= i < |rel| => Gt(rel[i], Num(lo)) && Le(rel[i], Num(hi)))
    }

    /** The floored minimum and ceiled maximum of the values whose relative
        time lies in (lo, hi]; None for an empty buffer. A non-empty buffer
        with no slot in the window makes `np.nanmin` raise, and a window of
        NaN values only gives a NaN range. */
    function GetValuesRange(lo: real, hi: real, now: real): (r: Result<Option<(Float, Float)>>)
      requires Valid()
      reads this
      ensures r == Ok(None) <==> IsEmpty()
      ensures r.Err? <==> !IsEmpty() && CountTrue(WindowMask(lo, hi, now)) == 0
      ensures r.Ok? && r.value.Some? ==>
        var sel := Select(values, WindowMask(lo, hi, now));
        r.value.value == if NanMin(sel).None? then (NaN, NaN)
                         else (Num(Floor(NanMin(sel).value)), Num(Ceil(NanMax(sel).value)))
      ensures r.Ok? && r.value.Some? && r.value.value.0.Num? ==>
        r.value.value.1.Num? &&
        forall i :: 0 <= i < |values| && WindowMask(lo, hi, now)[i] && values[i].Num? ==>
          r.value.value.0.r <= values[i].r <= r.value.value.1.r
    {
      var ids := WindowMask(lo, hi, now);
      SelectLength(values, ids);
      if IsEmpty() then Ok(None)
      else
        var sel := Select(values, ids);
        if |sel| == 0 then Err("zero-size array to reduction operation fmin which has no identity")
        else
          var lo', hi' := NanMin(sel), NanMax(sel);
          if lo'.None? then Ok(Some((NaN, NaN)))
          else
            assert forall i :: 0 <= i < |values| && ids[i] && values[i].Num? ==>
              lo'.value <= values[i].r <= hi'.value by {
              forall i | 0 <= i < |values| && ids[i] && values[i].Num?
                ensures lo'.value <= values[i].r <= hi'.value
              {
                SelectAt(values, ids, i);
              }
            }
            Ok(Some((Num(Floor(lo'.value)), Num(Ceil(hi'.value)))))
    }

    /** True when every value slot is empty. */
    predicate IsEmpty()
      reads this
      ensures IsEmpty() <==> NValues() == 0
    {
      CountTrueBounds(NotNaN(values));
      AllNaN(values)
    }

    /** The number of non-empty value slots. */
    function NValues(): (k: nat)
      reads this
      ensures k <= |values|
    {
      CountTrueBounds(NotNaN(values));
      CountTrue(NotNaN(values))
    }

    /** True when no value slot is empty. */
    predicate IsFull()
      reads this
      ensures IsFull() <==> NValues() == |values|
    {
      CountTrueBounds(NotNaN(values));
      AllNum(values)
    }

    /** A new buffer holding exactly the samples whose time lies in
        [tStart, tEnd], in their original order, with each in-range marker
        stored at its new index. */
    method GetSubBuffer(tStart: real, tEnd: real) returns (sub: HistoryBuffer)
      requires Valid()
      ensures fresh(sub) && sub.Valid()
      ensures sub.times == Select(times, InRange(times, tStart, tEnd))
      ensures sub.values == Select(values, InRange(times, tStart, tEnd))
      ensures |sub.times| == CountTrue(InRange(times, tStart, tEnd))
      ensures sub.markers == SubMarkers(times, markers, tStart, tEnd, |markers|)
    {
      var mask := InRange(times, tStart, tEnd);
      var subValues := Select(values, mask);
      var subTimes := Select(times, mask);
      SelectLength(values, mask);
      SelectLength(times, mask);
      var subBufferSize := |subValues|;
      var subMarkers := Repeat(-1, subBufferSize);
      for k := 0 to |markers|
        invariant subMarkers == SubMarkers(times, markers, tStart, tEnd, k)
      {
        var marker := markers[k];
        if marker >= 0 && Ge(times[marker], Num(tStart)) && Le(times[marker], Num(tEnd)) {
          var newMarkerIndex := FirstMatch(subTimes, times[marker]);
          assert newMarkerIndex == NewIndex(times, tStart, tEnd, marker);
          subMarkers := subMarkers[newMarkerIndex := newMarkerIndex];
        }
      }
      SubMarkersMeaning(times, markers, tStart, tEnd, |markers|);
      sub := new HistoryBuffer(subBufferSize);
      sub.values := subValues;
      sub.times := subTimes;
      sub.markers := subMarkers;
    }
  }
}

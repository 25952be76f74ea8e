# every-breath-you-take: the streaming analysis core in Dafny

every-breath-you-take is a breathing and heart-rate-variability trainer. A chest strap sends two streams:
- inter-beat intervals (IBIs) in milliseconds;
- three-axis accelerometer samples.

This project models the analysis layer that turns those streams into histories and metrics. It also models the two callbacks of the application model that feed that layer. The model covers:

- **HistoryBuffer** (`history_buffer.dfy`, module `History`). A fixed-capacity rolling store of `(time, value)` slots, in which NaN marks an empty slot, plus a queue of marker indices.
  - `update` drops slot 0 and writes the new sample last.
  - The markers are decremented so that each keeps naming the same sample.
  - The queries count, select and slice the buffer: point lists, value range, emptiness, sub-buffer.
- **The moving average** of `analysis/utils.py` (`utils.dfy`, module `Utils`).
- **BreathAnalyser** (`breath_analyser.dfy`, module `Breath`). A zero-crossing breath detector over the chest accelerometer.
  - Gravity removal and low-pass filtering.
  - The subsampling gate.
  - A descending zero crossing ends a breath, and its breathing rate is filtered.
  - Also: the sensor-class parameter table, the breath-circle radius and the last-breath time range.
- **HrvAnalyser**, in two files:
  - `hrv_metrics.dfy`, module `HrvMetrics`: the pure numeric part. This covers heart rate from an IBI and the phase-change rule that emits one HRV value per turn of the IBI trend. It also covers the per-breath window with RMSSD, max-min and SDNN, and the 30-second NN50/pNN50 counts.
  - `hrv_analyser.dfy`, module `Hrv`: the `HrvAnalyser` class, whose methods append to its histories.
- **Model** (`model.dfy`, module `AppModel`). The IBI and accelerometer callbacks. The second one triggers the per-breath HRV metrics when the breath analyser flags an accepted breath.

`floats.dfy` (module `Floats`) gives numpy's float64 slots as `Float = NaN | Num(r)`:
- every ordered comparison or equality with NaN is false;
- arithmetic on NaN yields NaN.

Several behaviours of the program depend on this:
- The first breath crossing has a NaN rate. The rate filter does not reject it, and it is stored.
- On the first beat, the previous IBI is an empty slot. Its NaN phase then counts as a turn.
- The low-HRV filter never rejects while one of the two last HRV slots is empty.

Classes with fields that the program updates in place are Dafny classes:
- `HistoryBuffer`, `BreathAnalyser`, `HrvAnalyser` and `Model`.
- Their numpy arrays are `seq` fields that the methods reassign.
- The methods are specified by `twostate` predicates that give the whole new state: `Appended`, `ChestAccUpdated`, `SampleStored`, `Updated` and `BreathMetricsUpdated`.
- The model's callbacks are stated in terms of these predicates.

Each analyser's `Valid()` carries invariants that the updates preserve:
- Both breath histories fill from the right, with empty slots only before filled ones (`History.EmptyThenFull`).
- The rate history stays empty until the first crossing.
- A stored IBI lies in [300, 1600] ms, and a stored heart rate in [37.5, 200] bpm.

The subsampling gate compares the sensor class with the literal names `"PolarH10"` and `"SmartBelt"` (analysis/BreathAnalyser.py:65). The parameter table only accepts names ending in `Client` (analysis/BreathAnalyser.py:38-43). So for every class that the table accepts, the gate is closed. This is modelled as written, and `Breath.KnownSensorClassesAreNotSubsampled` states it.

## Model

| member | source | states |
|---|---|---|
| Utils.ExpMovingAverage | analysis/utils.py:3-4 | alpha 1 keeps the running mean, alpha 0 gives the new sample, equal inputs are a fixed point, and for alpha in [0, 1] the result lies between the two inputs |
| Utils.EmaBetween | analysis/utils.py:3-4 | for 0 <= alpha <= 1 the weighted sum lies between min and max of mean and sample |
| History.Shifted | analysis/HistoryBuffer.py:20-23 | roll left and write: same length (capacity kept), the new element last, every other slot holds its right neighbour's old content |
| History.NotNaN | analysis/HistoryBuffer.py:76-83 | one bit per filled slot; none is set exactly when every slot is empty, and all are set exactly when no slot is |
| History.CountTrueBounds | analysis/HistoryBuffer.py:76-83 | the count of set bits is at most the length, 0 exactly when no bit is set and the length exactly when all are |
| History.SelectLength | analysis/HistoryBuffer.py:89-93 | boolean indexing keeps as many entries as the mask has set bits |
| History.SelectAt | analysis/HistoryBuffer.py:89-91 | every selected entry appears in the result, at its rank among the selected slots (original order kept) |
| History.SelectFrom | analysis/HistoryBuffer.py:89-91 | every entry of the result is a selected entry, at its rank (nothing else is kept) |
| History.FillKeepsLast | analysis/HistoryBuffer.py:20-23 | writing a sequence of samples leaves the last capacity-many of old contents followed by the writes |
| History.FreshBufferHoldsLastWrites | analysis/HistoryBuffer.py:11-23 | after k non-empty writes into a fresh buffer of n slots, the buffer is n - min(k, n) empty slots then the last min(k, n) writes in order, and the filled count is min(k, n) |
| History.AllNaNIsEmptyThenFull | analysis/HistoryBuffer.py:11-12 | a fresh buffer has the filled-from-the-right shape |
| History.EmptyThenFullMeaning | analysis/HistoryBuffer.py:20-23 | in that shape every slot after a filled slot is filled |
| History.ShiftedKeepsEmptyThenFull | analysis/HistoryBuffer.py:20-23 | writing a non-empty sample keeps the shape |
| History.EmptyThenFullCount | analysis/HistoryBuffer.py:79-80 | in that shape at least k slots are filled exactly when the k-th slot from the end is |
| History.MarkersFollowSamples | analysis/HistoryBuffer.py:25-26 | after update every marker stays in [-1, n-1], a marker >= 1 still names the same sample, and a marker at 0 (the evicted sample) or -1 becomes -1 |
| History.InRange | analysis/HistoryBuffer.py:89 | a slot is in range exactly when its time is a number in [start, end]; an empty slot never is |
| History.FirstMatch | analysis/HistoryBuffer.py:104 | the first index holding an equal value, the length when there is none |
| History.NewIndex | analysis/HistoryBuffer.py:103-104 | a marked in-range sample's new index lies inside the sub-buffer, holds an equal time, and is at most the sample's rank |
| History.NewIndexIsRank | analysis/HistoryBuffer.py:103-105 | with pairwise distinct times the new index is exactly the sample's rank among the in-range slots |
| History.SubMarkersMeaning | analysis/HistoryBuffer.py:101-105 | each sub-buffer marker slot holds its own index or -1, its own index exactly when some in-range marker moves there |
| History.NanMin | analysis/HistoryBuffer.py:70 | None exactly when every slot is empty; otherwise a value present in the slots and at most every number |
| History.NanMax | analysis/HistoryBuffer.py:71 | None exactly when every slot is empty; otherwise a value present in the slots and at least every number |
| History.HistoryBuffer.constructor | analysis/HistoryBuffer.py:7-13 | `Fresh(n)`: n NaN times and values and n markers -1; the buffer is empty and holds 0 values |
| History.HistoryBuffer.Update | analysis/HistoryBuffer.py:15-26 | times and values rolled left with the new sample last, markers decremented and clamped at -1; capacity and marker bounds kept |
| History.HistoryBuffer.AddMarker | analysis/HistoryBuffer.py:28-33 | times and values untouched; the oldest marker dropped and the index pushed last |
| History.HistoryBuffer.RelativeTimes | analysis/HistoryBuffer.py:35-39 | one entry per slot, empty exactly where the time is empty, otherwise the time minus `now` |
| History.HistoryBuffer.GetQpointList | analysis/HistoryBuffer.py:41-50 | one (time - now, value) point per filled value slot in slot order; as many points as filled slots |
| History.HistoryBuffer.GetQpointMarkerList | analysis/HistoryBuffer.py:52-61 | one point of the marked slot per queue entry >= 0, in queue order |
| History.HistoryBuffer.GetValuesRange | analysis/HistoryBuffer.py:63-74 | None exactly for an empty buffer; an error exactly when a non-empty buffer has no slot in the window; otherwise exactly (floor of the window's least number, ceiling of its greatest), or (NaN, NaN) when the window holds only empty slots; a numeric range bounds every number in the window |
| History.HistoryBuffer.IsEmpty | analysis/HistoryBuffer.py:76-77 | empty exactly when the filled count is 0 |
| History.HistoryBuffer.NValues | analysis/HistoryBuffer.py:79-80 | the filled count never exceeds the capacity |
| History.HistoryBuffer.IsFull | analysis/HistoryBuffer.py:82-83 | full exactly when the filled count equals the capacity |
| History.HistoryBuffer.GetSubBuffer | analysis/HistoryBuffer.py:85-107 | a new buffer of exactly the in-range samples in original order, sized by their count, with the markers of `SubMarkersMeaning` |
| Breath.EmaVec | analysis/BreathAnalyser.py:60-62 | the moving average per axis: the alpha 1, alpha 0 and fixed-point cases, and each axis between the two inputs |
| Breath.ParamsForSensorClass | analysis/BreathAnalyser.py:36-45 | parameters exactly for the three known class names (10 Hz, alphas strictly inside (0, 1), the Polar row equal to the defaults), none otherwise |
| Breath.KnownSensorClassesAreNotSubsampled | analysis/BreathAnalyser.py:36-65 | no class name accepted by the table opens the subsampling gate |
| Breath.BreathingRate | analysis/BreathAnalyser.py:85-87 | a stored rate is NaN exactly when there was no earlier crossing; otherwise rate times gap is 60 s and the rate is at most 30 per minute |
| Breath.RateRejected | analysis/BreathAnalyser.py:85-87 | the rate filter: a NaN start (no earlier crossing) never rejects, a zero gap (an infinite rate) always does, and only a zero or forward gap can be rejected |
| Breath.RateFilterIsTwoSeconds | analysis/BreathAnalyser.py:85-89 | for a forward gap a crossing is rejected exactly when it comes less than 2 s after the previous one |
| Breath.BackwardGapIsAccepted | analysis/BreathAnalyser.py:85-89 | a crossing earlier than the previous one passes the filter with a negative rate |
| Breath.Clamp01 | analysis/BreathAnalyser.py:111 | the result lies in [0, 1] and equals its input when that does |
| Breath.BreathAnalyser.constructor | analysis/BreathAnalyser.py:8-34 | `Initial()`: default parameters, no sensor class, radius -0.5, gravity unset, zero filter state, phase 0, flag false, no breath start, the chest and breath-rate histories `Fresh` at 10000 and 500 slots, as `HistoryBuffer(n)` creates them; the last-breath range is (NaN, NaN) |
| Breath.BreathAnalyser.SetAnalysisParams | analysis/BreathAnalyser.py:47-51 | the four parameters become the given ones |
| Breath.BreathAnalyser.SetAnalysisParamsBySensorClass | analysis/BreathAnalyser.py:36-45 | the class is recorded; it passes exactly for a known class and then sets that row, otherwise fails with the parameters unchanged |
| Breath.BreathAnalyser.FilterSample | analysis/BreathAnalyser.py:59-62 | the first sample seeds gravity, later ones average into it; the filtered value averages the sample minus gravity |
| Breath.BreathAnalyser.StoreSample | analysis/BreathAnalyser.py:72-94 | the projection is stored; the phase ends at the current sign; a crossing restarts the breath; the end-of-breath flag is set exactly for an accepted crossing, which stores the rate and marks the sample just stored; the first crossing leaves the rate history empty |
| Breath.BreathAnalyser.UpdateChestAcc | analysis/BreathAnalyser.py:53-94 | as `StoreSample` after filtering, or flag cleared and histories unchanged when subsampled; on a flagged breath the last-breath range is the previous and current crossing time, with a start once a rate is stored |
| Breath.BreathAnalyser.GetLastBreathTRange | analysis/BreathAnalyser.py:96-100 | the times of the last two stored breath rates; on a buffer filled from the right the start is a number exactly when two crossings are stored, the end exactly when one is, NaN otherwise |
| Breath.BreathAnalyser.GetBreathCircleCoords | analysis/BreathAnalyser.py:102-115 | the radius ends in [0, 1], 0 for an empty history, else the clamped blend of the last sample and the old radius; the outline is the 40 unit-circle points scaled by it |
| Breath.BreathAnalyser.GetChestAccSubHistory | analysis/BreathAnalyser.py:146-151 | the chest samples whose time lies in [start, end] in order, with their markers |
| HrvMetrics.IbiToHr | analysis/HrvAnalyser.py:5-6 | heart rate times IBI is one minute (60000 ms) |
| HrvMetrics.AcceptedIbiHeartRate | analysis/HrvAnalyser.py:50-54 | an accepted IBI gives a rate in [37.5, 200] bpm, and a longer IBI a lower rate |
| HrvMetrics.NextPhaseStep | analysis/HrvAnalyser.py:57-80 | no turn exactly when the sign of the IBI change is 0 or the last phase; a turn records the previous IBI as extreme and flips a known phase; a rejected HRV is below 20% of both of the last two, a kept one is not |
| HrvMetrics.FirstBeatStoresNaN | analysis/HrvAnalyser.py:56-68 | with no previous IBI the step is a turn with NaN HRV, phase and extreme |
| HrvMetrics.TurnAfterNaNPhase | analysis/HrvAnalyser.py:59-73 | after a NaN phase every non-flat IBI turns, and with a NaN extreme the HRV is NaN and kept |
| HrvMetrics.AfterMask | analysis/HrvAnalyser.py:88 | a slot is selected exactly when both its time and the breath start are numbers and the time is later; with a NaN start nothing is selected |
| HrvMetrics.RolledRight | analysis/HrvAnalyser.py:90 | the last entry moves to the front and every other one step right |
| HrvMetrics.BreathWindow | analysis/HrvAnalyser.py:88-90 | the window and its predecessors have as many entries as slots after the start |
| HrvMetrics.BreathWindowPairs | analysis/HrvAnalyser.py:88-90 | each IBI after the start is paired with the IBI of the slot before it, slot 0 with the last slot |
| HrvMetrics.Square | analysis/HrvAnalyser.py:9 | never negative, zero exactly for zero |
| HrvMetrics.SumSquaredDiffsZero | analysis/HrvAnalyser.py:8-9 | the sum of squared differences is >= 0 and 0 exactly when the sequences are equal |
| HrvMetrics.RmssdRadicand | analysis/HrvAnalyser.py:8-9 | a number exactly when no value is NaN; then >= 0, and 0 exactly when every IBI equals its predecessor |
| HrvMetrics.SeqMax | analysis/HrvAnalyser.py:11-12 | an element that bounds every element from above |
| HrvMetrics.SeqMin | analysis/HrvAnalyser.py:11-12 | an element that bounds every element from below |
| HrvMetrics.MaxMin | analysis/HrvAnalyser.py:11-12 | a number exactly when no value is NaN; then >= 0, 0 exactly when all are equal, at least every pairwise difference and equal to one of them, so exactly max - min |
| HrvMetrics.SampleVariance | analysis/HrvAnalyser.py:14-15 | >= 0, and 0 exactly when all values are equal |
| HrvMetrics.DeviationsVanish | analysis/HrvAnalyser.py:14-15 | the squared deviations from the mean sum to 0 exactly when all values are equal |
| HrvMetrics.SdnnRadicand | analysis/HrvAnalyser.py:14-15 | a number exactly for two or more values none of which is NaN; then >= 0 and 0 exactly when all are equal |
| HrvMetrics.RecentMask | analysis/HrvAnalyser.py:137-138 | a slot is selected exactly when it holds an IBI less than 30 s older than the last stored time |
| HrvMetrics.Nn50Mask | analysis/HrvAnalyser.py:141-143 | one bit per successive pair, set exactly when both IBIs are numbers and they differ by more than 50 ms in either direction |
| HrvMetrics.Pnn50 | analysis/HrvAnalyser.py:144 | NaN exactly when there is no pair; otherwise in [0, 100], 0 exactly for no large difference and 100 exactly when all are large |
| HrvMetrics.Nn50Bounded | analysis/HrvAnalyser.py:143-144 | NN50 is at most the number of pairs, and 0 exactly when no pair differs by more than 50 ms |
| Hrv.HrvAnalyser.constructor | analysis/HrvAnalyser.py:18-43 | `Initial()`: phase, extreme and duration 0, and eight histories `Fresh` at 1500 and 500 slots (NaN times and values, markers -1) |
| Hrv.HrvAnalyser.Update | analysis/HrvAnalyser.py:45-80 | a rejected IBI changes nothing; an accepted one appends the IBI and its heart rate, and appends an HRV and resets the phase state exactly on a kept turn, otherwise only adds to the duration; the stored-beat bounds are kept |
| Hrv.HrvAnalyser.StoreBeat | analysis/HrvAnalyser.py:53-54 | the IBI and its heart rate are appended at the beat's time |
| Hrv.HrvAnalyser.TrackPhase | analysis/HrvAnalyser.py:56-80 | the HRV history and phase state change exactly as `NextPhaseStep` decides |
| Hrv.HrvAnalyser.UpdateBreathByBreathMetrics | analysis/HrvAnalyser.py:82-98 | fails with nothing stored when no IBI follows the breath start; otherwise appends RMSSD, max-min (a number >= 0) and SDNN of that window at the breath's end time |
| Hrv.HrvAnalyser.UpdateNn50Metrics | analysis/HrvAnalyser.py:135-147 | appends NN50 (at most the pair count) and pNN50 of the last 30 s at the last IBI time |
| Hrv.HrvAnalyser.GetIbiSubHistory | analysis/HrvAnalyser.py:149-154 | the IBIs whose time lies in [start, end] in order, with their markers |
| AppModel.Model.constructor | Model.py:13-20 | one fresh HRV analyser and one fresh breath analyser with disjoint state, each in the `Initial()` state its constructor gives, with every history `Fresh`; the last-breath range is (NaN, NaN) |
| AppModel.Model.HandleIbiCallback | Model.py:36-39 | the HRV analyser performs exactly `update(t, ibi)`; the breath analyser is untouched |
| AppModel.Model.RunBreathMetrics | Model.py:51-55 | the HRV metrics run over the last-breath range exactly when the breath flag is set and a rate is stored; otherwise the HRV analyser is untouched |
| AppModel.AccSample | Model.py:48 | `data[1:]` as the three axes, or the one axis repeated three times as numpy broadcasts it (analysis/BreathAnalyser.py:60-62) |
| AppModel.Model.HandleAccCallback | Model.py:41-55 | the breath analyser performs exactly one update with `data[0]` and the sample `data[1:]` (a one-axis sample broadcast to all three axes); on a flagged breath with a stored rate the HRV metrics run over the last-breath range, otherwise the HRV analyser is untouched; never on the first crossing |

## Left out

- The Qt views, charts, widgets and styles, the sensor and Bluetooth layer, application startup and the breathing pacer are not part of this model. Neither are `Model.set_and_connect_sensor`, `Model.disconnect_sensor`, the model's signal and its logger.
- Concurrency: the program runs on one event loop, so every call is sequential here.
- `BreathAnalyser.update_breathing_spectrum` and `HrvAnalyser.update_coherence` are left out. So are the coherence history and the spectrum and interpolation lists they fill. They are periodogram, interpolation and trapezoid integration in foreign numeric libraries.
- Fields that are set in `__init__` and never read are not modelled: `self.breathing_rate` and `breath_end_ids`. `hr_coherence` is written and read only by `update_coherence`, which is left out. The local `seconds_current_phase` is not modelled either; `update` computes it and never uses it.
- Floating point is modelled as exact real arithmetic with a NaN value. Rounding is not modelled, and neither are infinities. The single infinity the analysis can produce is a zero gap between two breath crossings. That is taken as numpy float64 division: +inf, which the rate filter rejects. With plain Python floats the same division would raise instead.
- Samples arriving from the sensor are real numbers, never NaN.
- The wall-clock read of `get_relative_times` is a `now` parameter.
- The circle's cosine and sine arrays are constructor parameters.
- Square roots are a `sqrt` parameter. `QPointF` is the `Point` pair.
- The console message on a rejected low HRV value is dropped.
- Hrv.HrvAnalyser.UpdateBreathByBreathMetrics: RMSSD and SDNN are stated as `sqrt` applied to their radicands. Nothing is proved about the roots themselves; the radicands' properties are proved in `HrvMetrics`.
- AppModel.Model.HandleAccCallback: requires a time followed by three axes or by one. The sensor sends three axes. numpy broadcasts a one-element sample to all three axes (analysis/BreathAnalyser.py:60-62), and the model does the same. Other lengths raise partway through `update_chest_acc`, possibly after gravity has been overwritten; that path is not modelled.
- An exception in the source is an `Outcome.Fail` or `Result.Err` in the model. This covers `ValueError` for an unknown sensor class, numpy's error on an empty selection in `get_values_range`, and its error on an empty window in `update_breath_by_breath_metrics`. In the callback, the failure propagates as its result.

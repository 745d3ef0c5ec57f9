# Traffic analysis from sensor recordings: a verified model of the detection core

`traffic_visualization.py` turns a sensor recording (time × position × frequency channel) into a list of tracked vehicles and a statistics record. The recording is a tensor of intensities. This project models the steps from the recording to the record, in Dafny:

- **FieldReducer** (`field_reducer.dfy`) covers the weighted sum over the first min(50, F) frequency channels, with weights 1.6, 1.4 and 0.4. It is accumulated in place into a T × P `array2<real>`, one channel at a time, as `data_2d +=` does.
- **MaskBuilder** (`mask_builder.dfy`) covers the adaptive cutoff `p70 + 0.2 (p85 - p70)` and the strict `>` binarisation.
- **LineDetector** (`line_detector.dfy`) covers the candidate filter after the Hough search:
  - the angle window (3°, 87°);
  - the in-bounds points;
  - the minimum length of 8;
  - the support test of at least 3 set mask cells among the first 10 points.
- **Classifier** (`classifier.dfy`) covers the stepped amplitude sampling and the light/heavy rule.
- **TrackBuilder** (`track_builder.dfy`) covers:
  - the timestamp lookup, with its fallback to the last timestamp;
  - the end-point speed in km/h;
  - the [5, 120] km/h band;
  - the track id: the index of the track's point list in the detector's output, not its position among the Hough lines;
  - the `IndexError` raised on an empty timestamp array, modelled as a `Failure` result.
- **Statistics** (`statistics.dfy`) covers:
  - the class counts;
  - the congestion count and percentage;
  - the duration between the first and last track start, and the throughput;
  - the peak hour, with the dictionary's insertion order and `max`'s first-maximum rule;
  - its `HH:00-HH:00` label;
  - the fixed record for an empty track list.
- **Common** (`common.dfy`) holds the shared constants, `Result`, `Point`, Python's `int()` on floats (`Trunc`, toward zero), and the sum, mean and maximum numpy computes.

As the comment at `traffic_visualization.py:83` says, only the first min(50, F) channels take part in the sum. The weight of 0.4 defined for channels 50 and above is never used.

Each loop of the modelled code is a method with its invariants. Its `ensures` ties the result to a function (`ReducedCell`, `Detected`, `Classification`, `Built`, `PeakHour`, `StatsOf`), and lemmas prove what the Python code promises about those functions.

Four places where the code does not do what its comments or names suggest. The model follows the code:

- The comment at `traffic_visualization.py:163` promises at most 20 samples. The stride `n div 20` rounds down, so tracks of 20 or more points get between 20 and 39 samples. Shorter tracks are sampled at every point (`SampleCountBounds`, `ThirtyNinePointsGiveThirtyNineSamples`).
- The support test counts set mask cells only. The intensities are summed into `signal_sum` but never compared with anything, so the detector's output depends on the mask alone.
- A track's id is the `i` of `enumerate(raw_tracks)` (`traffic_visualization.py:211`, `:238`). The ids number only the point lists the detector kept, so they are not the Hough search's own candidate order. When the first Hough line fails the angle test, the track of the second one gets id 0 (`TrackBuilder.BuiltIdsIncrease`, `TrackBuilder.BuiltComplete`).
- Positions are column indices of the recording. `DISTANCE_METERS` is used only for the heatmap's extent (line 343), so the "km/h" of line 233 is a speed in km/h only when the columns are 1 m apart. The model computes `|dx / dt| * 3.6` on column indices, as the code does.

## Model

| member | source | states |
|---|---|---|
| Common.Abs | traffic_visualization.py:233 | Python's `abs` (also at line 128): never negative, and equal to x or -x |
| Common.Trunc | traffic_visualization.py:166 | Python's `int(x)`: rounds toward zero and equals the floor for x ≥ 0; the result differs from x by less than 1 in absolute value, with x's sign |
| Common.Mean | traffic_visualization.py:174 | `np.mean`: the sum divided by the count; its bounds are stated by `Common.MeanBounds` and `Common.MeanAtMostMax` |
| Common.Max | traffic_visualization.py:175 | `np.max`: an element of the list that no element exceeds |
| Common.MeanBounds | traffic_visualization.py:303 | the mean of values within [lo, hi] lies within [lo, hi] |
| Common.MeanAtMostMax | traffic_visualization.py:174-175 | the mean never exceeds the maximum |
| FieldReducer.FreqWeight | traffic_visualization.py:35-38 | the `FREQ_WEIGHTS` table: 1.6 below channel 20, 1.4 for channels 20-39, 0.4 from 40 on; `FieldReducer.WeightedSumByBands` states the sum it yields |
| FieldReducer.WeightedSum | traffic_visualization.py:84-85 | the sum of the first k channels of a cell, each times its `FREQ_WEIGHTS` entry; `FieldReducer.WeightedSumByBands` states its three-band form |
| FieldReducer.ReducedCell | traffic_visualization.py:84-85 | a cell of `data_2d` after the loop: the weighted sum over the first min(50, F) channels; `FieldReducer.ReduceChannels` returns it in every cell, `FieldReducer.ReducedCellReadsPrefix` and `FieldReducer.ReducedCellOfZeros` state its properties |
| FieldReducer.ChannelsUsed | traffic_visualization.py:84 | the channel count is F or 50, whichever is smaller |
| FieldReducer.WeightedSumByBands | traffic_visualization.py:35-38 | the weighted channel sum is 1.6 × the sum of channels below 20, plus 1.4 × channels 20-39, plus 0.4 × channels 40 and above, within the channels used |
| FieldReducer.ReducedCellReadsPrefix | traffic_visualization.py:83-85 | two cells that agree on their first min(50, F) channels reduce to the same value; later channels never contribute |
| FieldReducer.WeightedSumOfZeros | traffic_visualization.py:84-85 | a sum over all-zero channels is zero |
| FieldReducer.ReducedCellOfZeros | traffic_visualization.py:84-85 | an all-zero cell reduces to zero |
| FieldReducer.AddChannel | traffic_visualization.py:85 | one pass of `data_2d += stats[:, :, f] * w[f]` adds exactly channel f times its weight to every cell |
| FieldReducer.ReduceChannels | traffic_visualization.py:80-85 | the result is a fresh T × P array whose every cell is the weighted sum of that cell's channels |
| FieldReducer.ZeroRecordingGivesZeroField | traffic_visualization.py:80-85 | an all-zero recording reduces to an all-zero field |
| MaskBuilder.Threshold | traffic_visualization.py:93 | the cutoff lies between the two percentiles, nearer p70, and equals them when they coincide |
| MaskBuilder.Binarize | traffic_visualization.py:95 | the mask has the field's shape |
| MaskBuilder.ThresholdMask | traffic_visualization.py:93-95 | the mask `filtered_data > threshold` before the opening; `MaskBuilder.MaskCell` states its cells |
| MaskBuilder.MaskCell | traffic_visualization.py:91-95 | a cell is set exactly when it exceeds the cutoff; with p70 ≤ p85, cells above p85 are set and cells at or below p70 are not |
| MaskBuilder.WithinValues | traffic_visualization.py:91-92 | what the model takes from `np.percentile`: some value of the field lies at or below the percentile and some at or above it |
| MaskBuilder.UniformFieldGivesEmptyMask | traffic_visualization.py:91-95 | on a uniform field both percentiles and the cutoff equal the common value, and the strict test leaves the mask all false |
| LineDetector.InBounds | traffic_visualization.py:132-134 | every kept point lies in [0, L) and carries the trace's position at its time index |
| LineDetector.InBoundsOrderedComplete | traffic_visualization.py:132-139 | the in-bounds points come in strictly increasing time, and every in-bounds time index is among them |
| LineDetector.InBoundsOrdered | traffic_visualization.py:132-139 | the in-bounds points come in strictly increasing time |
| LineDetector.InBoundsComplete | traffic_visualization.py:132-139 | every time index whose position lies in [0, L) contributes its point |
| LineDetector.TrackPoints | traffic_visualization.py:139 | `list(zip(t_vals[valid], x_vals[valid]))`: the in-bounds points of the whole trace, whose properties `LineDetector.InBounds` and `LineDetector.InBoundsOrderedComplete` state |
| LineDetector.OnSetCell | traffic_visualization.py:145-146 | the test `binary_mask[t_idx, x_idx]` with `t_idx, x_idx = int(t), int(x)` |
| LineDetector.SupportCount | traffic_visualization.py:144-148 | the support count over k points is at most k |
| LineDetector.SupportedIndicesStep | traffic_visualization.py:144-148 | widening the window by one point adds that point's index to the supported indices exactly when its cell `mask[t][int(x)]` is set |
| LineDetector.SupportCountIsSetSize | traffic_visualization.py:144-148 | the support count over the first k points is the size of the set of indices below k whose cell `mask[t][int(x)]` is set |
| LineDetector.Support | traffic_visualization.py:142-148 | the loop counts exactly the set mask cells among the first min(10, n) points |
| LineDetector.Kept | traffic_visualization.py:128-150 | the three tests in order: 3 < \|deg\| < 87, at least 8 in-bounds points, at least 3 supported among the first 10; `LineDetector.DetectedSound` and `LineDetector.DetectedComplete` tie it to the output |
| LineDetector.Detected | traffic_visualization.py:125-154 | the list `detect_tracks_fast` returns: the point lists of the kept Hough lines, in search order; `LineDetector.DetectedSound`, `LineDetector.DetectedComplete` and `LineDetector.DetectedCount` state its contents |
| LineDetector.DetectTracks | traffic_visualization.py:125-154 | the candidate loop returns exactly the point lists of the kept candidates, in candidate order |
| LineDetector.DetectedFromKept | traffic_visualization.py:126-151 | every returned list belongs to a candidate that passed all three tests |
| LineDetector.DetectedSound | traffic_visualization.py:126-151 | every returned list comes from a candidate with 3 < \|angle\| < 87 and has at least 8 points, all in the field, in strictly increasing time, at least 3 of its first 10 on set mask cells |
| LineDetector.DetectedComplete | traffic_visualization.py:126-151 | every candidate that passes the tests is returned |
| LineDetector.KeptIndicesStep | traffic_visualization.py:126-151 | appending a candidate adds its index to the kept indices exactly when it passes the tests |
| LineDetector.DetectedCount | traffic_visualization.py:126-151 | the detector returns exactly as many lists as there are kept candidates, one per kept candidate, duplicates included |
| LineDetector.DetectedPassLengthCheck | traffic_visualization.py:136-137 | no more lists than candidates, and none shorter than 8, so the length re-check at line 212 drops nothing |
| Classifier.Stepped | traffic_visualization.py:164 | `range(i, n, step)`; `Classifier.SteppedShape` gives its closed form |
| Classifier.SampleIndices | traffic_visualization.py:164 | `range(0, len(track_points), step)` with the classifier's stride; `Classifier.SampleIndicesAreMultiples` and `Classifier.SampleCountBounds` state its elements and length |
| Classifier.Stride | traffic_visualization.py:163 | the stride is at least 1, is 1 below 40 points, and otherwise is n div 20 |
| Classifier.SteppedShape | traffic_visualization.py:164 | `range(i, n, step)` is i, i + step, ... with every element below n and the next one not |
| Classifier.SampleIndicesAreMultiples | traffic_visualization.py:163-164 | the sampled indices are exactly 0, step, 2 step, ... below n |
| Classifier.SampleCountBounds | traffic_visualization.py:163-164 | a track of n < 20 points is sampled n times; otherwise between 20 and 39 times |
| Classifier.ThirtyNinePointsGiveThirtyNineSamples | traffic_visualization.py:163 | a 39-point track is sampled 39 times, more than the 20 the comment allows |
| Classifier.AmplitudesFromIndices | traffic_visualization.py:164-169 | sampling from index i with a stride reads exactly at the indices of `range(i, n, step)`, all inside the track |
| Classifier.SampleAt | traffic_visualization.py:165-169 | the reading at one point: the signal at `(int(t), int(x))` when both indices are inside the field, nothing otherwise |
| Classifier.SampledAmplitudes | traffic_visualization.py:165-169 | the `amplitudes` list; `Classifier.SampledAtSampleIndices` states it as the readings at the sample indices, and `Classifier.CollectAmplitudes` computes it |
| Classifier.SampledAtSampleIndices | traffic_visualization.py:163-169 | the collected amplitudes are the in-bounds readings at the sampled indices 0, step, 2 step, ..., in order |
| Classifier.CollectAmplitudes | traffic_visualization.py:162-169 | the stepped loop collects exactly the sampled in-bounds amplitudes |
| Classifier.Classification | traffic_visualization.py:158-191 | the decision with its amplitude: ("light", 0) without samples, otherwise "heavy" on mean > 2.5 or max > 25 and "light" otherwise, both with the mean; `Classifier.ClassificationRule` and `Classifier.ClassificationBounds` state it |
| Classifier.ClassificationRule | traffic_visualization.py:156-191 | "heavy" iff some amplitude was sampled and the mean exceeds 2.5 or the maximum exceeds 25; no samples or an empty track give ("light", 0), otherwise the amplitude is the sampled mean |
| Classifier.ClassificationBounds | traffic_visualization.py:174-191 | a heavy track has a sample above 2.5; a light track with samples has mean ≤ 2.5 and every sample ≤ 25 |
| Classifier.ClassifyVehicle | traffic_visualization.py:156-191 | returns the classification of the sampled in-bounds amplitudes, with the rule above |
| TrackBuilder.TimeOf | traffic_visualization.py:218 | the time looked up for index t is always one of the timestamps: `timestamps[t]` when t is in range, the last timestamp otherwise |
| TrackBuilder.ToTrackPoints | traffic_visualization.py:216-222 | one track point per detected point, in order, with the position unchanged and the time `timestamps[t]`, or the last timestamp when t is past the end |
| TrackBuilder.TrackData | traffic_visualization.py:216-222 | fails exactly when there are no timestamps and some point has to be looked up; otherwise builds the track points above |
| TrackBuilder.InSpeedBand | traffic_visualization.py:236 | the band test `MIN_SPEED_KMH <= speed_kmh <= MAX_SPEED_KMH`, 5 to 120 km/h |
| TrackBuilder.Accepted | traffic_visualization.py:212-236 | a point list becomes a track when it has at least 8 points (line 212) and its speed lies in the band (line 236) |
| TrackBuilder.Speed | traffic_visualization.py:228-233 | the speed is non-negative; 0 with fewer than 2 points or Δt ≤ 0; otherwise speed × Δt = \|Δx\| × 3.6 |
| TrackBuilder.BuildTracks | traffic_visualization.py:210-243 | fails, with the empty-timestamps error, exactly when there are no timestamps and some point list has at least 8 points; otherwise returns the accepted tracks in the order of the detector's output |
| TrackBuilder.Built | traffic_visualization.py:210-243 | the `tracks` list: one `MakeTrack` record per accepted point list, in order; `TrackBuilder.BuiltSound`, `TrackBuilder.BuiltComplete` and `TrackBuilder.BuiltIdsIncrease` state its contents |
| TrackBuilder.MakeTrack | traffic_visualization.py:237-243 | the track record of the i-th point list of the detector's output: id i, its track points, its classification and its speed; `TrackBuilder.BuiltSound` states what every built track satisfies |
| TrackBuilder.BuiltIdsIncrease | traffic_visualization.py:211-238 | at most one track per detected point list; each id is the index of its point list in the detector's output (not its position among the Hough lines), and ids strictly increase |
| TrackBuilder.BuiltSound | traffic_visualization.py:211-243 | each track is built from the detected point list its id names: at least 8 points, its classification, and a speed in [5, 120] km/h computed from its points |
| TrackBuilder.BuiltComplete | traffic_visualization.py:211-243 | every detected point list with at least 8 points and a speed in the band yields a track whose id is its index in the detector's output |
| TrackBuilder.NoElapsedTimeIsDropped | traffic_visualization.py:228-236 | a detected point list whose last point is not later than its first has speed 0 and never becomes a track |
| Statistics.CountKind | traffic_visualization.py:283-284 | a class count is at most the number of tracks |
| Statistics.ClassCountsAddUp | traffic_visualization.py:283-284 | light + heavy = total |
| Statistics.CountCongested | traffic_visualization.py:285 | the congestion count is at most the number of tracks |
| Statistics.CongestedAreTheSlowOnes | traffic_visualization.py:285 | the congestion count is the number of tracks slower than 25 km/h |
| Statistics.Speeds | traffic_visualization.py:279 | one speed per track, in order |
| Statistics.StartTimes | traffic_visualization.py:288 | one start time per track: the time of its first point |
| Statistics.Least | traffic_visualization.py:289 | `min` returns an element no greater than any other |
| Statistics.DurationHours | traffic_visualization.py:288-291 | the duration is non-negative, is (latest start - earliest start) / 3600, and is 0 exactly when all tracks start at the same time |
| Statistics.Intensity | traffic_visualization.py:307 | the throughput is 0 without positive duration, and otherwise throughput × duration = total |
| Statistics.Percent | traffic_visualization.py:305 | the congestion percentage lies in [0, 100], and percentage × total = congested × 100 |
| Statistics.Occurrences | traffic_visualization.py:294-297 | an hour's count is at most the number of tracks |
| Statistics.AbsentHasNoOccurrences | traffic_visualization.py:294-297 | an hour no track starts in has count 0 |
| Statistics.FirstSeen | traffic_visualization.py:294-297 | the dictionary's keys are exactly the hours that occur |
| Statistics.FirstSeenOrder | traffic_visualization.py:294-297 | each key appears once, in order of first appearance |
| Statistics.FirstMax | traffic_visualization.py:299 | `max(keys, key=...)` returns one of the keys |
| Statistics.FirstMaxIsMaximum | traffic_visualization.py:299 | the chosen key's count is at least every key's count |
| Statistics.FirstMaxIsFirst | traffic_visualization.py:299 | no key before the chosen one has the same count |
| Statistics.PeakHour | traffic_visualization.py:299 | with tracks, the peak hour is one of their hours |
| Statistics.PeakHourIsMode | traffic_visualization.py:294-299 | the peak hour's count is at least every hour's count |
| Statistics.PeakHourTieBreak | traffic_visualization.py:294-299 | any other hour with the same count first appears only after the peak hour has appeared |
| Statistics.CountHours | traffic_visualization.py:294-297 | the dictionary holds exactly the hours that occur, each mapped to its number of tracks, with keys in order of first appearance |
| Statistics.FirstMaxOf | traffic_visualization.py:299 | the scan over the keys returns the first key of greatest count |
| Statistics.PeakHourOf | traffic_visualization.py:294-299 | the counting loop plus `max` returns the peak hour |
| Statistics.TwoDigits | traffic_visualization.py:306 | `:02d` for n below 100: the tens digit, then the units digit; `Statistics.DigitsDetermined` states that two digits name n in exactly one way |
| Statistics.HourLabelReadsBack | traffic_visualization.py:306 | the label has 11 characters: hour h as two decimal digits, ":00-", hour h + 1 as two decimal digits, ":00" |
| Statistics.DigitsDetermined | traffic_visualization.py:306 | two decimal digits reading as n fix n below 100, and are `TwoDigits(n)` |
| Statistics.LabelReadsAsIsHourLabel | traffic_visualization.py:306 | conversely, every string of that shape for hour h is the label of h |
| Statistics.HourLabelInjective | traffic_visualization.py:306 | different hours get different labels |
| Statistics.LastHourLabel | traffic_visualization.py:306 | hour 23 gives "23:00-24:00" and hour 0 gives "00:00-01:00" |
| Statistics.HourLabel | traffic_visualization.py:306 | the f-string `{h:02d}:00-{h+1:02d}:00`; `Statistics.HourLabelReadsBack`, `Statistics.HourLabelInjective` and `Statistics.LastHourLabel` state its form |
| Statistics.EmptyStats | traffic_visualization.py:312-318 | the fixed record: total 0, class and congestion counts equal to what the count functions give for no tracks, and the label of the peak-hour fallback 0, "00:00-01:00" |
| Statistics.StatsOf | traffic_visualization.py:301-310 | the record for a non-empty track list, without `processing_time`; `Statistics.StatsCounts`, `Statistics.StatsThroughput`, `Statistics.StatsPeak` and `Statistics.AverageSpeedInBand` state its fields |
| Statistics.ComputeStatistics | traffic_visualization.py:274-318 | an empty track list gives the fixed empty record; otherwise the record of the tracks |
| Statistics.StatsCounts | traffic_visualization.py:283-305 | the record's total is the track count, light + heavy = total, the congested vehicles are exactly those below 25 km/h, and the percentage lies in [0, 100] |
| Statistics.StatsThroughput | traffic_visualization.py:288-307 | the throughput is non-negative, and 0 when all tracks start at the same time |
| Statistics.StatsPeak | traffic_visualization.py:294-306 | the record's label is the peak hour's, and the peak hour is a most frequent hour |
| Statistics.AverageSpeedInBand | traffic_visualization.py:303 | with every speed in [5, 120] km/h, so is the average |
| Statistics.BuiltTracksStatistics | traffic_visualization.py:236-303 | the tracks the builder returns all have points, and their average speed lies in [5, 120] km/h |

## Left out

- Loading the HDF5 file (`load_combined_data`, lines 58-73) is file I/O. The recording and the timestamp array are inputs. The timestamp-pair combination fires only for a second dimension of 3 (line 69); it is not modelled.
- The median filter (line 88), the percentiles (lines 91-92) and the morphological opening (lines 98-99) are left out. Their exact numpy and scipy semantics, such as border handling and the origin of an even-sized structuring element, are not part of this model. The percentiles are parameters of `MaskBuilder.ThresholdMask`. The detector takes its mask as an input.
- The Hough search (lines 113-120) is left out. Its `try`/`except` that returns `[]` (lines 121-123) amounts to an empty candidate list. The trigonometric trace (line 133) and `np.degrees` are left out too: each candidate arrives as its angle in degrees and its position at every time index.
- The hour of day of each track start (line 296) depends on the local time zone. It is an input, one hour per track.
- float32 storage and accumulation are modelled as exact reals, and so is `round(..., 1)` in the statistics record. `Statistics.StatsOf` therefore holds unrounded values.
- `processing_time` and the other clock readings (`time.time()`, `log_time`) are left out, and so are logging and `fast_generate_analysis`'s result dictionary around the statistics.
- The fallbacks to `timestamps[0]` and `timestamps[-1]` at lines 289-290 are not modelled. They are unreachable, because an empty track list has already returned the empty record.
- Visualisations (`create_fast_visualizations` and the heatmap and infographic functions) are matplotlib rendering. Their cache branch on `processed_data` is dead, since that field is never set.
- Saving and loading results are JSON and text file I/O (`save_results_fast`, `load_tracks_and_get_time_range`, `get_visualization_stats`).
- `app.py` is not part of this model: it holds the web routes, the session store with its lock and cleanup thread, and the background analysis threads.
- The class counts at lines 246-247 are only logged, so they are not modelled; the record's counts (lines 283-284) are.

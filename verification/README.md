# PyDualSense-MotionToKey: a verified model of the gesture pipeline

PyDualSense-MotionToKey turns DualSense controller motion into key presses.
This project models its gesture pipeline in Dafny. Time is a parameter
(`now`), and so are the sensor samples. The model is sequential: threads
and locks are removed. It covers these parts:

- **Saved positions.** A saved position records samples while the user
  holds the controller still. It keeps the per-axis mean, minimum and
  maximum of those samples, and from them it derives an effective range
  for each of the six axes (gyro pitch, yaw and roll; accelerometer x, y
  and z).
- **Matching.** The smoothed reading matches the first position whose
  enabled axes all lie inside their inclusive ranges.
- **Smoothing.** A moving-average buffer smooths each axis. A single-pole
  low-pass filter smooths the SDL accelerometer.
- **Motion sequences.** A motion sequence is a list of steps, each naming a
  position. On every controller read, each sequence advances, resets,
  completes (counting a repetition and firing its bound action) or waits
  out a grace period.
- **Repetition export.** The repetition count can be written to a text
  file and read back. The file system is a map from path to contents.
- **Configuration.** Positions and sequences are saved to a configuration
  record and restored from it. An older format that stores a list of
  position ids is also read.
- **The editors.** The position editor deletes with a cascade into the
  sequences, guards axis detection, sets overrides, renames and combines.
  The motion-sequence editor creates, deletes, chooses steps, sets fields
  and resets the export counter.
- **Quaternions and the estimator.** The quaternion algebra is modelled,
  and so is the control logic of the Madgwick orientation estimator: the
  zero-reading no-op, the gating of the drift correction, and the
  recenter and go-home resets of the SDL sensor loop.
- **Reference points.** These are points in space that the controller tip
  can hit. Their hit history expires, a point's chain parent must be hit
  first, and a group fires once all its points are hit within a grace
  period and outside a cooldown. The model also covers their editors and
  the counting, stockpiling and release of the actions groups fire.

Modules follow the source: `Models` (models.py), `Matching`,
`MovingAverage`, `SequenceTick`, `RepFile` and `Controller`
(controller_interface.py), `Config` (config_manager.py), `PositionManager`
(position_manager_gui.py), `MotionManager`
(motion_sequence_manager_gui.py), `Quaternions` and `Madgwick`
(madgwick_ahrs.py, duplicated in main_app.py), `Sdl` (sdl_controller.py)
and `ReferencePoints` (main_app.py). `Common`, `Text` and `AppState` hold
vectors and sums, string stripping and number printing, and the mutable
application state.

## Model

Each editor method names in its `modifies` clause the fields of the application state it may change, field by field, so every other field keeps its value.

| member | source | states |
|---|---|---|
| Common.MinOfIsLeast | models.py:37-52 | The minimum of a non-empty list bounds every element from below and is one of them. |
| Common.MaxOfIsGreatest | models.py:37-52 | The maximum bounds every element from above and is one of them. |
| Common.SumBounds | models.py:20-36 | Elements in `[lo, hi]` sum to a value in `[n·lo, n·hi]`. |
| Common.MeanWithinExtremes | models.py:19-52 | The mean of a non-empty list lies between its minimum and its maximum. |
| Common.QuotientBounds | models.py:19-36 | Dividing bounds `n·lo ≤ s ≤ n·hi` by a positive `n` gives `lo ≤ s/n ≤ hi`. |
| Common.SumConstant | controller_interface.py:25-27 | `n` copies of `v` sum to `n·v`. |
| Common.MeanOfConstant | controller_interface.py:25-27 | The mean of copies of one value is that value. |
| Common.SumAppend | models.py:20-36 | The sum of a concatenation is the sum of the sums. |
| Common.CrossPerpendicular | madgwick_ahrs.py:166 | A cross product is perpendicular to both of its factors. |
| Common.CrossSelf | madgwick_ahrs.py:166 | A vector crossed with itself is zero. |
| Text.TrimStart | config_manager.py:20 | Drops exactly the leading whitespace: the result is a suffix of the input and starts with no whitespace. |
| Text.TrimEnd | config_manager.py:20 | Drops exactly the trailing whitespace: the result is a prefix of the input and ends with no whitespace. |
| Text.Strip | motion_sequence_manager_gui.py:177 | `.strip()`: the result is no longer than the input and has whitespace at neither end; input without whitespace is returned unchanged. |
| Text.StripIdempotent | position_manager_gui.py:288-289 | Stripping twice gives the same result as stripping once. |
| Text.StripKeepsInnerText | config_manager.py:20 | Every non-whitespace character of the input survives stripping. |
| Text.NatToString | controller_interface.py:107 | `str(n)` of a natural number is a non-empty digit string whose decimal value is `n`. |
| Text.NatToStringInjective | controller_interface.py:107 | Different counts are written as different strings. |
| Text.OptionalText | motion_sequence_manager_gui.py:177-178 | `None` exactly when the stripped text is empty, otherwise the stripped text. |
| Text.OptionalTextIdempotent | motion_sequence_manager_gui.py:195-196 | Applying the blank-to-`None` rule to an already stored value changes nothing. |
| RepFile.ReadRepsFromFile | config_manager.py:15-24 | 0 without a path, without a file at the path, or when the contents are blank. |
| RepFile.NonNumericReadsZero | config_manager.py:20-24 | A file holding any character that is neither a digit nor whitespace (a sign, a decimal point, a letter) reads as 0. |
| RepFile.WriteThenRead | controller_interface.py:96-111 | Writing a count and reading it back gives the count. Only that path's file changes, and nothing is written while initialising or without a path. |
| RepFile.ParsePaddedCount | config_manager.py:20-21 | A count surrounded by spaces or newlines still reads back as the count. |
| RepFile.StripPadded | config_manager.py:20 | Stripping a digit string padded with spaces gives back the digit string. |
| RepFile.TrimStartSkipsSpaces | config_manager.py:20 | Leading padding is removed and the digits kept. |
| RepFile.TrimEndSkipsSpaces | config_manager.py:20 | Trailing padding is removed and the digits kept. |
| Models.AnyEnabledMeans | controller_interface.py:66 | "Some axis enabled" holds exactly when some axis is enabled. |
| Models.AxisValues | models.py:19-36 | Each axis of a recorded sample selects that axis's component. |
| Models.NewSavedPosition | models.py:5-60 | A supplied id is kept, otherwise the fresh id is used. Detection axes default to all six. The result summarises its recorded samples. |
| Models.SummaryByAxis | models.py:19-52 | Per axis, the stored mean, minimum and maximum are those of the samples on that axis. |
| Models.SummaryDetermined | models.py:19-52 | Two positions that summarise the same samples have the same statistics. |
| Models.RecordedStatistics | models.py:19-52 | For non-empty samples, each axis's average is the arithmetic mean and the raw min and max are the least and greatest sample. |
| Models.EmptyRecordingIsZero | models.py:53-57 | No samples give all-zero averages, minima and maxima. |
| Models.AverageWithinRawRange | models.py:19-52 | On every axis `raw_min ≤ avg ≤ raw_max`. |
| Models.EffectiveRanges | models.py:62-94 | Each range is centred on the override when present and on the mean otherwise. Its width is the spread plus twice the padding. |
| Models.RangesNonEmpty | models.py:62-94 | With non-negative padding, every range has `min ≤ centre ≤ max`. |
| Models.RangesContainRecording | models.py:62-94 | Without overrides, when the centre is the mean and the padding is at least half the spread, every recorded sample on that axis lies within the effective range. |
| Models.LopsidedRecordingEscapesWindow | models.py:62-94 | With zero padding, a recording whose mean is off-centre has a sample outside its own window, because the window is centred on the mean, not the midpoint. |
| Models.LopsidedStatistics | models.py:62-94 | The statistics of the concrete off-centre recording that shows it. |
| Models.NewStep | models.py:105-117 | Missing directions default to `'any'` on every axis; supplied ones are kept. |
| Models.NewMotionSequence | models.py:125-139 | A new sequence starts idle, with no timestamps, not completed and the given settings. The trigger time argument is ignored. |
| Models.SquaredDistance | models.py:148-155 | Defined exactly when both points have three coordinates; the value is then the sum of the squared coordinate differences. |
| Matching.MatchesMeans | controller_interface.py:45-70 | A position matches exactly when some axis is enabled and every enabled axis lies inside its inclusive range. |
| Matching.NoAxesNeverMatches | controller_interface.py:66-67 | A position with every axis disabled never matches. |
| Matching.BoundsAreInclusive | controller_interface.py:52-64 | A reading on the bound of every enabled axis matches. |
| Matching.FindMatchingPositionIndex | controller_interface.py:45-70 | Returns the smallest matching index, or -1 exactly when no position matches. |
| MovingAverage.LastN | controller_interface.py:138-142 | The last `n` values of a history, or all of it when shorter. |
| MovingAverage.LastNAbsorbs | controller_interface.py:138-142 | Keeping the last `n` values, appending more and keeping the last `n` again is the same as keeping the last `n` of everything, so trimming early loses nothing. |
| MovingAverage.FeedKeepsLatest | controller_interface.py:25-27 | A buffer holding at most `maxlen` values, after one append, holds the last `maxlen` inputs in order. |
| MovingAverage.SteadyInputSmoothsToItself | controller_interface.py:25-27 | A full buffer of one value smooths to that value. |
| MovingAverage.UniformCovers | controller_interface.py:25-27 | A buffer map built for the six axes maps every axis to the given value. |
| MovingAverage.AxisBuffers.constructor | controller_interface.py:138-142 | Every axis starts with an empty buffer and the given size. |
| MovingAverage.AxisBuffers.Apply | controller_interface.py:25-27 | The value is appended to that axis's buffer, keeping its last `maxlen` values; the result is their mean; other axes are untouched. |
| MovingAverage.AxisBuffers.Resize | controller_interface.py:136-142 | Every buffer keeps its latest values that fit the new size. |
| MovingAverage.FirstReadingPassesThrough | controller_interface.py:25-27 | The first value into an empty buffer comes back unchanged. |
| SequenceTick.IndexOfPosition | controller_interface.py:200-201 | The index of the first position with that id, or -1 exactly when none has it. |
| SequenceTick.CompleteKeeps | controller_interface.py:240-280 | Completing keeps the sequence's settings and the invariant and touches only the export file. The trigger time changes only on a dispatch without error. |
| SequenceTick.StepSequence | controller_interface.py:192-298 | One tick keeps the invariant "index > 0 implies a last match time" and the sequence's settings. It touches only the export file, and moves the trigger time only on a dispatch without error. |
| SequenceTick.StepOn | controller_interface.py:203-298 | The tick for a step whose position exists, with the same guarantees. |
| SequenceTick.EmptySequenceIsIdle | controller_interface.py:195-196 | A sequence without steps is unchanged except that its completion flag is cleared. |
| SequenceTick.MissingPositionResets | controller_interface.py:203-207 | A step naming an unknown position resets index and both timestamps and clears the completion flag; the files are unchanged. |
| SequenceTick.TimelyMatchAdvances | controller_interface.py:229-238 | A match at index 0, or within the inclusive time window, advances the index by exactly one. |
| SequenceTick.LateMatchResets | controller_interface.py:281-287 | A match after the window resets to index 0 and keeps the count. |
| SequenceTick.TimelyLastMatchCompletes | controller_interface.py:240-280 | Matching the last step completes the sequence: index 0, no timestamps, completed this frame. Outside the 500 ms cooldown the count rises by one (read from the file and written back when exporting) and the trigger time becomes `now` exactly when the dispatch succeeded. Inside it the count, the trigger time and the files are unchanged. |
| SequenceTick.UnboundSequenceCountsEveryCompletion | controller_interface.py:241-273 | Without a binding the trigger time is never set, so every completion counts. |
| SequenceTick.MissStartsOrExpiresGrace | controller_interface.py:288-298 | A miss past index 0 first records its start time, and resets only once the grace period is strictly exceeded. A miss at index 0 changes nothing. |
| SequenceTick.CountOnlyGrows | controller_interface.py:240-251 | Without export, a tick never lowers the repetition count, raises it by at most one, and leaves the files unchanged. |
| SequenceTick.StepOnCountOnlyGrows | controller_interface.py:240-251 | The same for the looked-up step. |
| SequenceTick.CompletionCountsOnce | controller_interface.py:240-251 | Without export, one completion raises the count by at most one and leaves the files unchanged. |
| SequenceTick.TwoStepHappyPath | controller_interface.py:192-298 | Matching both steps of a two-step sequence in time counts one repetition. |
| SequenceTick.TwoStepTimeout | controller_interface.py:192-298 | Matching the second step too late resets instead of counting. |
| SequenceTick.GracePeriodScenario | controller_interface.py:192-298 | A short miss inside the grace period keeps the progress; a longer one resets it. |
| AppState.App.constructor | config_manager.py:145-146 | The state starts with no positions and no sequences (the lists an import clears), every selection and the highlight at -1, and the given padding and files. |
| Controller.SmoothReading | controller_interface.py:165-175 | Each of the six offset-corrected components goes into its own buffer, and the smoothed reading is the per-axis mean of the latest values. |
| Controller.ResizeBuffers | controller_interface.py:136-142 | Every axis buffer keeps its latest values up to the new window size. |
| Controller.TickAll | controller_interface.py:192-298 | Ticking every sequence in list order gives one output per sequence, each the sequence's own tick with the export files threaded through in order; every output keeps its configuration and the invariant. |
| Controller.TickAllIndependent | controller_interface.py:192-298 | When no sequence exports, the files are unchanged and each sequence's new state is its tick alone, independent of the other sequences. |
| Controller.CompleteSequence | controller_interface.py:240-280 | The in-place completion leaves the sequence and the files as the completion function says. |
| Controller.TickSequence | controller_interface.py:192-298 | The in-place tick of one sequence agrees with `StepSequence`. |
| Controller.TickLookedUp | controller_interface.py:203-298 | The in-place tick for a step whose position exists agrees with `StepOn`. |
| Controller.TickMatched | controller_interface.py:229-287 | The match branch agrees with the specification. |
| Controller.ProcessReading | controller_interface.py:187-298 | The highlight becomes the first matching index, or -1. The sequences and files become those of ticking every sequence. |
| Controller.TickEach | controller_interface.py:192-298 | The loop over the sequences agrees with `TickAll`. |
| Controller.ResetProgressOnReconnect | controller_interface.py:334-337 | Every sequence loses its progress and timestamps and keeps everything else. Only the sequence list changes. |
| Controller.FinalizeRecording | controller_interface.py:426-448 | An empty recording changes nothing. Otherwise a position named after the new list length, with the default padding and all axes enabled, is appended, and the highlight and the position selection clear. Only the positions, the highlight and the position selection change; the default padding stays. |
| Controller.SixStores | controller_interface.py:169-175 | Six stores to distinct axes leave each axis with its own value. |
| Controller.PushedPerAxis | controller_interface.py:169-175 | Per axis, the buffer after the reading is the buffer before plus that axis's component. |
| Controller.SmoothedPerAxis | controller_interface.py:169-175 | Per axis, the smoothed value is the mean of the new buffer. |
| Controller.TickedFromSnoc | controller_interface.py:192 | Ticking one more sequence extends the per-sequence relation by one. |
| Controller.TickedAloneSnoc | controller_interface.py:192 | The same for the one-sequence-at-a-time relation. |
| Controller.TickAllSnoc | controller_interface.py:192 | `TickAll` of a longer prefix is the shorter one followed by one tick. |
| Config.DeserializePosition | config_manager.py:39-46 | Succeeds exactly when id, name, recorded points, padding and axes are all present. The result then summarises its recording and keeps the id, name, padding, axes and overrides. |
| Config.PositionRoundTrip | config_manager.py:27-46 | Restoring a saved position gives back its id, name, samples, padding, axes and both overrides, including `None`. |
| Config.SerializeSteps | config_manager.py:50-56 | One record per step, in order, with its id and directions. |
| Config.DeserializeStep | config_manager.py:75-79 | An error exactly when the record has no position id; missing directions become `'any'`. |
| Config.StepErrorPersists | config_manager.py:72-79 | One bad step record makes the whole list an error. |
| Config.StepsRoundTrip | config_manager.py:49-79 | Restoring saved steps gives the steps back in order. |
| Config.KnownIds | config_manager.py:80-92 | The legacy ids kept are those found among the positions, in order. |
| Config.KnownIdsSnoc | config_manager.py:80-92 | One more legacy id extends the kept list exactly when it is known. |
| Config.LegacyStepsFollowKnownIds | config_manager.py:80-92 | Legacy steps are all-`'any'` steps for exactly the known ids, in order. |
| Config.AnyStepsForSnoc | config_manager.py:80-92 | One more known id adds one all-`'any'` step. |
| Config.DecodedSequence | config_manager.py:70-110 | Succeeds exactly when the name, the time window and every step id are present. The result restarts its progress, has no timestamps and is not completed. |
| Config.DeserializeSequence | config_manager.py:70-110 | The loop that builds the steps and overwrites the count agrees with `DecodedSequence`. |
| Config.SequenceRoundTrip | config_manager.py:49-110 | Restoring a saved sequence keeps name, steps, window, grace, binding and export settings. Progress restarts and the trigger time is not restored. |
| Config.MissingKeysTakeDefaults | config_manager.py:77-78 | Without the optional keys: grace 0, no binding, export off, all directions `'any'`. |
| Config.LegacyFormatSkipsUnknownIds | config_manager.py:80-92 | A legacy sequence naming unknown ids gets steps only for the known ones. |
| Config.DecodedPositions | config_manager.py:148-152 | Restored positions in file order, each summarising its recording, or an error if any record is bad. |
| Config.PositionErrorPersists | config_manager.py:148-152 | One bad position record makes the import an error. |
| Config.PositionMapOf | config_manager.py:148-152 | Every key maps to a position with that id, and every position's id is a key. |
| Config.DecodedSequences | config_manager.py:154-157 | Restored sequences in file order, each keeping the tick invariant, or an error. |
| Config.SequenceErrorPersists | config_manager.py:154-157 | One bad sequence record makes the import an error. |
| Config.Import | config_manager.py:133-172 | An import yields the file's positions, each summarising its recording, and its sequences, each keeping the tick invariant, or an error. |
| Config.LoadPositions | config_manager.py:148-152 | The loading loop for positions agrees with `DecodedPositions`. |
| Config.LoadSequences | config_manager.py:154-157 | The loading loop for sequences agrees with `DecodedSequences`. |
| Config.ImportConfig | config_manager.py:133-172 | A read or parse error changes nothing. A malformed record leaves the lists cleared and refilled up to that record. Otherwise the lists become exactly those `Import` returns, replacing the old ones rather than merging. |
| Config.PositionsRoundTrip | config_manager.py:113-152 | Exporting and importing positions gives them back. |
| Config.SequencesRoundTrip | config_manager.py:113-157 | Exporting and importing sequences gives back their settings and steps, with progress restarted. |
| Config.ExportThenImport | config_manager.py:113-172 | Exporting then importing replaces the lists with equivalent ones. |
| Quaternions.HamiltonProduct | madgwick_ahrs.py:8-15 | The component formulas are the Hamilton product: scalar `w1w2 − v1·v2`, vector `w1v2 + w2v1 + v1×v2`. |
| Quaternions.IdentityIsUnit | main_app.py:19-26 | `(1,0,0,0)` is a two-sided identity of the product. |
| Quaternions.InverseInvolution | main_app.py:29-31 | The inverse applied twice is the identity. |
| Quaternions.InverseOfProduct | madgwick_ahrs.py:8-20 | `inverse(q1·q2) = inverse(q2)·inverse(q1)`. |
| Quaternions.ConjugateProduct | madgwick_ahrs.py:8-20 | The same identity one component at a time. |
| Quaternions.ProductWithInverse | madgwick_ahrs.py:8-20 | `q·q*` and `q*·q` have zero vector part and scalar part `|q|²`; for a unit `q` they are the identity. |
| Quaternions.NormMultiplicative | madgwick_ahrs.py:8-15 | `|q1·q2|² = |q1|²·|q2|²`. |
| Quaternions.FourSquares | madgwick_ahrs.py:8-15 | Euler's four-square identity for the product's components. |
| Quaternions.RotateByIdentity | main_app.py:34-38 | Rotating by the identity returns the point. |
| Quaternions.RotationPreservesLength | madgwick_ahrs.py:23-27 | `q(0,p)q*` has zero scalar part and squared length `|q|⁴·|p|²`, so a unit quaternion preserves lengths. |
| Quaternions.EstimatedGravityIsRotatedUp | madgwick_ahrs.py:145-149 | The estimator's predicted gravity is the up axis rotated by the conjugate. |
| Quaternions.ClampUnit | madgwick_ahrs.py:67-68 | The clip lands in `[-1, 1]`, leaves values already there alone and sends others to the nearer bound. |
| Quaternions.YawSine | madgwick_ahrs.py:67-69 | The yaw arcsine argument is always in `[-1, 1]`. |
| Quaternions.AlignForShortestPath | madgwick_ahrs.py:95-101 | The second quaternion is negated exactly when the dot product is negative, so the dot used afterwards is ≥ 0. |
| Quaternions.LinearBlendEnds | madgwick_ahrs.py:104-106 | The linear branch starts at `q1` and ends at the aligned `q2`. |
| Quaternions.BranchIgnoresSign | madgwick_ahrs.py:99-105 | Negating the second input does not change which branch is taken. |
| Madgwick.GradientVanishesWhenAligned | madgwick_ahrs.py:152-171 | When predicted and measured gravity agree, the gradient step is zero. |
| Madgwick.BiasErrorProperties | madgwick_ahrs.py:166 | The bias correction is perpendicular to predicted and measured gravity, and zero when they agree. |
| Madgwick.MadgwickFilter.constructor | madgwick_ahrs.py:123-128 | The estimator starts at the default home orientation with zero bias and the given gains. |
| Madgwick.MadgwickFilter.UpdateImu | madgwick_ahrs.py:130-179 | A zero reading changes nothing. Otherwise the bias moves by `zeta·dt·(est_grav × a/|a|)` exactly when the gate is open. The orientation is the integrator's result for the gyro minus the new bias. |
| Madgwick.MadgwickFilter.SetBias | sdl_controller.py:124 | After the write the bias is the given vector. |
| Madgwick.NoDriftGainNoCorrection | madgwick_ahrs.py:123-161 | With the default drift gain of zero the bias never moves. |
| Madgwick.StillOnlyGate | madgwick_ahrs.py:161-165 | In still-only mode the bias is corrected exactly when the reading lies strictly between 0.9 g and 1.1 g. With the mode off it is always corrected, given a positive gain. |
| Sdl.BlendBetween | sdl_controller.py:21-22 | For `alpha` in `[0,1]` the output lies between the previous output and the new value. |
| Sdl.ProductBetween | sdl_controller.py:21 | `0 ≤ alpha·d ≤ d` for `alpha` in `[0,1]` and `d ≥ 0`. |
| Sdl.BlendFixedPoint | sdl_controller.py:21 | A steady input is a fixed point of the filter. |
| Sdl.LowPassFilter.constructor | sdl_controller.py:13-15 | A new filter has the given factor and no memory. |
| Sdl.LowPassFilter.Update | sdl_controller.py:17-22 | The first value is stored and returned unchanged; later values return and store `alpha·x + (1−alpha)·last`. |
| Sdl.LowPassFilter.SetAlpha | sdl_controller.py:24-25 | Only the factor changes; the memory is kept. |
| Sdl.Remap | sdl_controller.py:119-120 | x is kept, y and z are negated. |
| Sdl.RemapInvolution | sdl_controller.py:119-120 | The remap is its own inverse and keeps lengths. |
| Sdl.RemappedSumConstant | sdl_controller.py:63-73 | `n` identical samples sum to `n` times the remapped sample. |
| Sdl.SteadyCalibration | sdl_controller.py:63-73 | A controller held perfectly still calibrates to its remapped resting reading. |
| Sdl.Calibrate | sdl_controller.py:63-73 | The accumulation loop over the 400 samples gives the mean of the remapped samples. |
| Sdl.PressButton | sdl_controller.py:102-111 | In mapping mode the button becomes the home button and mapping ends. Otherwise only the mapped button raises the home request. |
| Sdl.PressesKeepHomeRequest | sdl_controller.py:102-111 | Button presses never clear a pending home request. |
| Sdl.OtherButtonsIgnored | sdl_controller.py:110-111 | Outside mapping mode, other buttons change nothing. |
| Sdl.MapThenPress | sdl_controller.py:102-111 | Mapping a button and then pressing it raises the home request. |
| Sdl.SensorLoop.constructor | sdl_controller.py:63-90 | The calibration is the mean of the remapped samples, and the estimator is handed that array itself, not a copy. It starts at the default orientation with the 200 Hz period and the current gains. The filters are fresh and no request is pending. |
| Sdl.SensorLoop.ZeroOrientation | main_app.py:209-217 | With a home set a go-home is requested, otherwise a recenter. |
| Sdl.SensorLoop.HandleButtons | sdl_controller.py:102-111 | The button-down events of a pass act in order, as `PressAll`. |
| Sdl.AfterResets | sdl_controller.py:122-132 | The orientation after the reset requests: the recorded home orientation on a go-home when one is recorded, else the default on a recenter, else unchanged. |
| Sdl.SensorLoop.HandleResets | sdl_controller.py:122-132 | The orientation becomes `AfterResets`. The estimator is handed the calibration array again, which it already shares, so its bias stays equal to the calibration, drifted or not. Both requests end cleared. |
| Sdl.DriftedCalibration | sdl_controller.py:139-161 | The calibration after one update: moved by the drift correction when the gate is open, else unchanged. |
| Sdl.UpdatedOrientation | sdl_controller.py:119-161 | The orientation after one update: unchanged for a zero reading, otherwise the integrator's step from the remapped gyro minus the bias, with the gradient of the remapped, normalised reading. |
| Sdl.SensorLoop.PollStep | sdl_controller.py:93-161 | A pass without elapsed time does nothing: every field it may change keeps its value. Otherwise the elapsed time becomes the sample period and buttons and resets are handled. A paused pass stops there, leaving the gains, smoothing factors, filters, published data and calibration as they were. Unless paused, the gains, filters and published orientation are updated, and the shared calibration moves by the drift computed at the orientation after the resets. The new orientation is `UpdatedOrientation` of the orientation after the resets, with the drifted calibration as the bias and the elapsed time as the period. |
| Sdl.SensorLoop.UpdateSensors | sdl_controller.py:139-161 | Gains and smoothing factor come from the settings, and each remapped accelerometer component is filtered. The calibration stays equal to the estimator's bias, which is `DriftedCalibration` of the old one. The orientation becomes `UpdatedOrientation` with the remapped gyro, the new bias and the settings' beta. |
| Sdl.DefaultHomeGravity | madgwick_ahrs.py:145-149 | At the default home orientation the predicted gravity is `(0, 0.975, 0.14)`. |
| Sdl.UpIsNormalised | madgwick_ahrs.py:142 | One g along z normalises to itself. |
| Sdl.UpHasUnitMagnitude | madgwick_ahrs.py:138 | Its magnitude is one. |
| Sdl.FlatRestError | madgwick_ahrs.py:166 | Lying flat at the default home orientation, the correction direction is `(0.975, 0, 0)`. |
| Sdl.FlatRestDrift | madgwick_ahrs.py:167 | Scaled by the default drift gain and a 5 ms period it is `(0.00024375, 0, 0)`. |
| Sdl.FlatReading | sdl_controller.py:119-120 | A flat controller reads one g along raw `-z`, which remaps to `+z`. |
| Sdl.FlatRestDrifts | madgwick_ahrs.py:161-167 | Lying flat at the default home orientation with the default settings, the gate is open and one 5 ms update drifts the bias by `(0.00024375, 0, 0)`. |
| Sdl.GoHomeAfterDriftAsWritten | sdl_controller.py:78-131 | Through the loop as written: calibrate, request a go-home, run one correcting pass, request a go-home again. The bias restored is the calibration plus the drift, and differs from the calibration whenever the drift is non-zero. |
| Sdl.DriftShows | madgwick_ahrs.py:167 | Adding a non-zero drift changes the bias. |
| Sdl.RecenterAfterDrift | sdl_controller.py:122-125 | With the estimator holding a copy, the drift of an update lands in the copy only, and a recenter restores exactly the calibration. |
| PositionManager.SelectPositionForEditing | position_manager_gui.py:54-60 | Selecting the selected position deselects it; any other is selected. The sequence selection is left as it is. |
| PositionManager.RemoveSteps | position_manager_gui.py:302 | A step is kept exactly when it does not name the id; the result is no longer than the input and unchanged when no step names the id. |
| PositionManager.RemoveStepsAppend | position_manager_gui.py:302 | Filtering distributes over concatenation. |
| PositionManager.DeletionKeepsProgress | position_manager_gui.py:300-305 | After the filter, a sequence whose index is past its steps restarts; any other keeps its progress, and the invariant holds. |
| PositionManager.DeleteSelectedPosition | position_manager_gui.py:294-312 | The selected position leaves the list. Every sequence loses exactly its steps and restarts if needed. The selection becomes -1. Without a selection nothing changes. |
| PositionManager.ReplaceAt | position_manager_gui.py:218-233 | Replacing one position keeps the others and the length. |
| PositionManager.GuardedAxes | position_manager_gui.py:350-362 | The requested axes, or all six when none is requested, so at least one is enabled. |
| PositionManager.UpdateAxisDetection | position_manager_gui.py:336-364 | The selected position's axes become the guarded request; nothing else changes. |
| PositionManager.UpdatePadding | position_manager_gui.py:329-333 | The selected position's padding becomes the new value; nothing else changes. |
| PositionManager.RenameSelectedPosition | position_manager_gui.py:282-291 | A non-blank answer becomes the stripped name; a blank or cancelled one changes nothing. |
| PositionManager.WithOverrides | position_manager_gui.py:218-233 | Both overrides are set together or both cleared; nothing else about the position changes. |
| PositionManager.OverridesMoveCentres | position_manager_gui.py:206-256 | With overrides set, the effective ranges are centred on them. |
| PositionManager.SetOverrides | position_manager_gui.py:206-256 | Six parsed values set both overrides; a parse failure clears both. |
| PositionManager.ResetOverrides | position_manager_gui.py:259-279 | Both overrides are cleared together. |
| PositionManager.Names | position_manager_gui.py:417-418 | The names of the chosen positions, in order. |
| PositionManager.AllPointsContains | position_manager_gui.py:413-418 | Every sample of every chosen position is in the concatenation. |
| PositionManager.AllPointsFrom | position_manager_gui.py:413-418 | Every sample of the concatenation comes from some chosen position. |
| PositionManager.AllPointsLength | position_manager_gui.py:413-418 | Adding one more chosen position adds exactly its samples to the concatenation's length. |
| PositionManager.CombinedSpansChosen | position_manager_gui.py:413-427 | On every axis the combined position's raw range covers each chosen one. |
| PositionManager.CombinePositions | position_manager_gui.py:413-434 | One position is appended, with the samples concatenated in selection order, the name `"Combined (a & b …)"` and all axes enabled. |
| MotionManager.SelectMotionForEditing | motion_sequence_manager_gui.py:34-58 | Selecting the selected sequence deselects it; any other selects it and clears the position selection. |
| MotionManager.CreateNewMotionSequence | motion_sequence_manager_gui.py:315-323 | A blank or cancelled name changes nothing. Otherwise a sequence with no steps, window 1000, grace 100, no binding and export off is appended and selected. |
| MotionManager.NewSequenceIsIdle | motion_sequence_manager_gui.py:319-322 | That sequence is idle with count 0, so the tick invariant holds from the start. |
| MotionManager.DeleteSelectedMotion | motion_sequence_manager_gui.py:241-249 | Only the selected sequence is removed and the selection becomes -1; without a selection nothing changes. |
| MotionManager.ChosenSteps | motion_sequence_manager_gui.py:290-303 | At most one step per position. Every step is all-`'any'` for a ticked position. |
| MotionManager.ClickOrderIrrelevant | motion_sequence_manager_gui.py:290-303 | Dialogs ticking the same ids give the same steps, whatever the order of the boxes. |
| MotionManager.AllTickedFollowsList | motion_sequence_manager_gui.py:290-303 | With every box ticked, the steps are the saved positions in list order. |
| MotionManager.SavePositions | motion_sequence_manager_gui.py:285-307 | The nested search loop gives the sequence the chosen steps and restarts it; nothing else changes. |
| MotionManager.TruncateToInt | motion_sequence_manager_gui.py:159 | `int(x)` truncates toward zero: the result is within one of `x`, on the same side as zero. |
| MotionManager.TruncationProperties | motion_sequence_manager_gui.py:159 | Truncation is odd and leaves whole numbers alone. |
| MotionManager.UpdateTimeWindow | motion_sequence_manager_gui.py:157-162 | With a selection in range the window becomes the truncated value; otherwise nothing changes. |
| MotionManager.UpdateResetGrace | motion_sequence_manager_gui.py:165-170 | The same for the grace period. |
| MotionManager.UpdateActionBinding | motion_sequence_manager_gui.py:173-180 | The binding becomes the stripped text, or `None` when blank. |
| MotionManager.UpdateExportSetting | motion_sequence_manager_gui.py:183-188 | The export flag becomes the checkbox state. |
| MotionManager.UpdateExportFilePath | motion_sequence_manager_gui.py:191-197 | The path becomes the stripped text, or `None` when blank. |
| MotionManager.RenameSelectedMotion | motion_sequence_manager_gui.py:229-238 | A non-blank answer becomes the stripped name; otherwise nothing changes. |
| MotionManager.ResetExportFileCounter | motion_sequence_manager_gui.py:212-226 | Once confirmed, the export file holds "0" and reads back as 0. Without a path nothing is written. |
| ReferencePoints.Expire | main_app.py:1155-1160 | An entry survives exactly when `now − t ≤ grace`, and survivors keep their time. |
| ReferencePoints.Register | main_app.py:1163-1176 | Each point's active flag is the chain rule and its hit flag is active and within reach. A new hit inserts `id → now` only for an absent id, so old entries keep their times. The newly hit set is exactly the inserted ids. |
| ReferencePoints.RegisterSnoc | main_app.py:1164-1176 | Registering one more point extends the pass by one step. |
| ReferencePoints.MarkedAgainstEarlierHits | main_app.py:1164-1171 | Each point is judged against the history left by the points before it. |
| ReferencePoints.TouchingIsWithinReach | main_app.py:1168-1169 | A tip at the point is within a positive tolerance. |
| ReferencePoints.ChainCompletesInOnePass | main_app.py:1164-1176 | A child listed after its parent activates in the same pass the parent is hit. |
| ReferencePoints.ChainOrderMatters | main_app.py:1164-1176 | Listed before its parent, the child stays inactive on that pass. |
| ReferencePoints.Fired | main_app.py:1184-1223 | No more groups fire than there are groups. |
| ReferencePoints.FiredMembers | main_app.py:1184-1223 | A group fires exactly when it has valid members, one newly hit, all in the history within the grace span, and is strictly past the cooldown. |
| ReferencePoints.GroupsOf | main_app.py:1221 | The queued group records, in firing order. |
| ReferencePoints.HistoryStaysFresh | main_app.py:1155-1230 | After a pass no remembered hit is older than the grace period, and a surviving hit keeps its first time. |
| ReferencePoints.StampRule | main_app.py:1212-1222 | A group is stamped with `now` exactly when it fires; every other stamp is kept. |
| ReferencePoints.FiredIdMeans | main_app.py:1184-1222 | With distinct ids, a group's id is fired exactly when the group fires. |
| ReferencePoints.StampedAt | main_app.py:1222 | A stamp is `now` for a fired group and the old one otherwise. |
| ReferencePoints.ClearRule | main_app.py:1223-1230 | A remembered hit is removed exactly when it is a valid member of a fired group. |
| ReferencePoints.SameIdsAfterRegister | main_app.py:1182 | Registration does not change the set of point ids. |
| ReferencePoints.CooldownIsStrict | main_app.py:1212-1214 | A group does not fire again exactly one interval after it last fired. |
| ReferencePoints.PointsWithout | main_app.py:316-321 | No surviving point has a deleted id or a deleted chain parent; every other point survives, unparented where needed. |
| ReferencePoints.PointsWithoutCompose | main_app.py:317-321 | Deleting one id after a set is deleting their union. |
| ReferencePoints.GroupsWithout | main_app.py:324-326 | Every group keeps its id, name and action and loses exactly the deleted ids. |
| ReferencePoints.GroupsWithoutCompose | main_app.py:324-326 | Removing ids one after another is removing their union. |
| ReferencePoints.GroupsWithoutNothing | main_app.py:324-326 | Removing no id changes nothing. |
| ReferencePoints.NothingDeleted | main_app.py:317-321 | Deleting no id leaves the points unchanged. |
| ReferencePoints.CandidateNameInjective | main_app.py:391-397 | Different counters give different names. |
| ReferencePoints.PutGroup | main_app.py:402 | Dictionary assignment replaces the entry in place or appends it, and keeps the keys distinct. |
| ReferencePoints.PointIndex | main_app.py:498 | The first point with the id, or -1 when none has it. |
| ReferencePoints.GroupIndex | main_app.py:494 | The group with the id, or -1 exactly when the id is not a key. |
| ReferencePoints.ParentChoice | main_app.py:480-481 | The literal "None" means no parent; any other choice is kept. |
| ReferencePoints.ChosenGroup | main_app.py:490-495 | A group is chosen exactly when the choice is a non-"None" id present in the dictionary. |
| ReferencePoints.Reassigned | main_app.py:486-495 | The old id leaves every group, and the new id joins the chosen group only. |
| ReferencePoints.AtMostOneGroup | main_app.py:486-495 | Unless renamed onto an id some group already lists, an edited point ends in at most one group. |
| ReferencePoints.ReferenceState.constructor | global_state.py:40-41 | The state starts with no points and no groups, as there. The other fields (empty histories and stockpile, stockpile mode off, zero counters, no count file) are initial values this model chooses. |
| ReferencePoints.ReferenceState.AddReferencePoint | main_app.py:288-298 | A point at the position, not hit, active and unchained, is appended; nothing else changes. |
| ReferencePoints.ReferenceState.DeleteReferencePoints | main_app.py:310-329 | The selected ids leave the points, every chain parent, the history and every group. |
| ReferencePoints.ReferenceState.CreateGroup | main_app.py:389-406 | The group gets the first unused name in "New Group", "New Group (2)", … and has no points and a blank key-press action. |
| ReferencePoints.ReferenceState.UpdateSelectedPoint | main_app.py:470-515 | As written. On a parse failure nothing changes. Otherwise the groups are reassigned and the first point with the old id takes the new id, position and parent; points chained to the old id keep naming it. Only the groups and points change. |
| ReferencePoints.ReferenceState.UpdateSelectedPointRelinked | main_app.py:470-502 | The corrected edit: the same, and points chained to the old id are relinked to the new one, so chain parents that resolved before still resolve. |
| ReferencePoints.ReferenceState.HandleActionCompletion | main_app.py:634-650 | Both counters rise by one and the total is written to the count file. The action is stockpiled in stockpile mode and executed otherwise. |
| ReferencePoints.ReferenceState.ExecuteStockpiled | main_app.py:1115-1122 | The oldest stockpiled action is released, first in first out; an empty stockpile releases nothing. |
| ReferencePoints.ReferenceState.ProcessTriggered | main_app.py:1234-1236 | Completing the queued groups in order raises both counters by their number and leaves the file at the final total. Their actions are stockpiled or executed in order. |
| ReferencePoints.ReferenceState.CompleteNext | main_app.py:1235-1236 | One more completion extends the state for the first `i` groups to `i + 1`. |
| ReferencePoints.ReferenceState.DetectHits | main_app.py:1150-1231 | The points, history and stamps become those of one hit-detection pass, and the fired groups are returned in order. |
| ReferencePoints.TriedHolds | main_app.py:395-397 | The `j`-th candidate is among the first `n` tried. |
| ReferencePoints.FromTried | main_app.py:395-397 | Every tried name is one of the first `n` candidates. |
| ReferencePoints.NextCandidateIsNew | main_app.py:395-397 | The next candidate differs from every earlier one. |
| ReferencePoints.TryNext | main_app.py:395-397 | A taken candidate shrinks the taken names not yet tried, so the search ends. |
| ReferencePoints.FirstFree | main_app.py:395-397 | The first candidate after a run of taken ones is the first free one. |
| ReferencePoints.FirstFreeName | main_app.py:391-397 | The loop returns an unused name, and every earlier candidate is taken. |
| ReferencePoints.DeleteStep | main_app.py:317-326 | Deleting one more selected id extends the state for the first `i` ids to `i + 1`. |
| ReferencePoints.DeleteAll | main_app.py:317-326 | The deletion loop agrees with `PointsWithout` and `GroupsWithout` on the whole selection, and removes the ids from the history. |
| ReferencePoints.OverwriteCount | main_app.py:592-599 | A later write of the count file replaces an earlier one. |
| ReferencePoints.ActionsOf | main_app.py:645-650 | The actions of the groups, in order. |
| ReferencePoints.ActionsOfSnoc | main_app.py:1235-1236 | One more group adds its action at the end. |
| ReferencePoints.EditedPoints | main_app.py:498-502 | The edit as written: only the first point with the old id changes; without one nothing changes. |
| ReferencePoints.RenameStrandsChildren | main_app.py:498-502 | As written, renaming a parent leaves its child naming an id no point has. |
| ReferencePoints.Relinked | main_app.py:498-502 | Children of the renamed point name the new id; other points are untouched. |
| ReferencePoints.EditKeepsParentsResolved | main_app.py:470-502 | With children relinked, an edit whose new parent is "None" or an existing point keeps every chain parent resolvable. |
| ReferencePoints.HitPass | main_app.py:1150-1231 | The statements of one pass agree with the pass specification. |
| ReferencePoints.RegisterHits | main_app.py:1163-1176 | The registration loop agrees with `Register`. |
| ReferencePoints.CheckGroups | main_app.py:1179-1223 | Skipped without new hits. Otherwise the groups that fire are collected in order and stamped, and their valid members queued for clearing. |
| ReferencePoints.CheckStep | main_app.py:1184-1223 | One more group extends the fired list, the stamps and the ids to clear. |
| ReferencePoints.FiredSnoc | main_app.py:1184-1223 | The fired list of a longer prefix is the shorter one plus the group if it fires. |
| ReferencePoints.StampStep | main_app.py:1222 | Stamping one more group updates only its stamp. |
| ReferencePoints.TestGroup | main_app.py:1185-1219 | The in-place test of one group agrees with the firing rule. |
| ReferencePoints.HitSpan | main_app.py:1197-1200 | The least and greatest hit time of the members, both attained. |

## Left out

- Widget code is not modelled: the tkinter and ttk widgets, layout, dialogs, message boxes, highlighting and tree views. Dialog answers and parsed field values are parameters.
- `visualization.py` (OpenGL rendering), `action_executor.py` and `gui_elements.py` are not part of this model. The action sink is a function parameter that reports whether dispatch raised an error.
- Threads, locks, `threading.Event` and `root.after` are gone: the model is sequential and events are boolean fields. Because of this, the `is_initializing` guard on writes is a parameter.
- `time.monotonic()` is the `now` parameter. Polling sleeps, reconnect backoff and the timing of `record_position_points` are left out.
- Hardware I/O is left out: SDL start-up, sensor reads and the pydualsense connection. Samples and the reading's magnitude are parameters.
- JSON and file I/O are reduced to the parsed records and a path-to-contents map. I/O exceptions are left out, and a JSON `null` looks the same as a missing key.
- Config.DeserializePosition: a JSON `null` reads as a missing key, so a record with `"id": null` or `"detection_axes": null` is rejected. The source accepts such a record (config_manager.py:45) and `SavedPosition` gives it a fresh uuid or all six axes (models.py:8, 13-15). A `null` name or padding, which the source stores as `None`, is rejected too.
- `str.isdigit` is modelled for ASCII digits only.
- `uuid` ids are a `freshId` parameter.
- The numeric step of `update_imu` is the `Integrator` parameter: the sqrt normalisation, the quaternion integration and its renormalisation. The caller supplies the accelerometer magnitude.
- Other floating-point numerics are left out: `euler_to_quaternion`, the arctangents and arcsine of `quaternion_to_euler`, the trigonometric slerp branch and final normalisation, `update_home_from_ui`, and `round(…, 3)` on slider and typed values. Distances are compared squared. `real` is exact where the source uses floats.
- `relevel_gyro`, `manual_reconnect`, the set/delete home position editors and log messages are not modelled.
- `delete_group` (main_app.py:409-421) and the group member list editor are not modelled. Deleting a group drops its dictionary entry, so no reference is left dangling.
- Group `hit_timestamps` are never read, so they are not stored.
- The `index >= len(steps)` branch of the sequence tick is not modelled separately. Under the invariant every tick keeps, it can only be reached with no steps, and that case returns first.
- ReferencePoints.RegisterHits builds the new point list by appending rather than updating the dictionaries in place. No other code holds references to them during the pass.
- The position editor selects a combined position later, via `root.after`. The model does not do this; PositionManager.SelectPositionForEditing is the operation it would then run. The "at least two positions" check of the combine dialog is UI and is left to the caller.
- The hit history keeps its keys when a point is renamed; the model does the same.
- MotionManager.SavePositions: the edited sequence is addressed by its index at save time, not by the sequence object the non-modal dialog captured when it opened (motion_sequence_manager_gui.py:255-256, 304-306). A sequence created or deleted while the dialog is open is not modelled.

## Findings

| source | as written | input that shows it | evidently intended | confidence | as-written member | corrected member |
|---|---|---|---|---|---|---|
| sdl_controller.py:78 | `madgwick_filter.gyro_bias = initial_bias` hands the estimator the calibrated array itself. The in-place `+=` of the drift correction (madgwick_ahrs.py:167) then changes `initial_bias` too, so a recenter or go-home (lines 124, 131) restores the drifted bias. | Lying flat (raw reading (0, 0, -1)) at the default home orientation with the default settings (drift gain 0.05, still-only correction) and a 5 ms period, one update drifts the bias by (0.00024375, 0, 0). A recenter or go-home then restores the calibration plus that drift. | A recenter restores exactly the calibrated bias (the estimator gets a copy). | high, not executed | Sdl.GoHomeAfterDriftAsWritten | Sdl.RecenterAfterDrift |
| main_app.py:498-502 | Editing a point's id renames only that point. Any point chained to it keeps the old id as its chain parent, which no point carries any more, so that child can never become active. | Points `a` and `b` with `b` chained to `a`; rename `a` to `c`. | The children follow the renamed point (chain parent `c`), keeping every chain parent resolvable. | medium, not executed | ReferencePoints.RenameStrandsChildren | ReferencePoints.ReferenceState.UpdateSelectedPointRelinked |


# Magnetometer calibration session, modelled in Dafny

This project models the magnetometer hard-iron calibration of the flight
firmware, found in `applications/app_mag_calib.c`. A session works like this:

- `mag_calib_start` allocates three sample buffers of `MAG_SAMPLE` (3000)
  floats and resets the counter.
- Each call of `mag_calib_update` stores one three-axis reading until the
  buffers are full.
- From then on, every call runs the least-squares sphere fit
  (`sphere_fit_least_squares`) over the full buffers. It stores the fitted
  centre as the offset and the fitted radius, and answers true.
- `mag_callib_get_progress` reports the fill level in percent.
- `mag_calib_get_offset` reads the stored offset.
- `mag_calib_end` frees the buffers and hands the calibration to parameter
  storage.
- `mag_calib_check` judges whether a reading is plausible under the stored
  calibration.

Files:

- `geometry.dfy` (module `Geometry`): axes, three-component vectors, and the
  absolute value.
- `sphere_fit.dfy` (module `SphereFit`): the fit.
  - The reference functions are `SumsOf`, `MomentsOf`, `AuxAt`, `Step` and
    `Iterate`, which `Fit` combines.
  - The loop-level methods `AccumulateMoments`, `Refine` and
    `SphereFitLeastSquares` are proved equal to them.
  - Also proved: exact-arithmetic facts about the loop's coefficients.
- `mag_calib.dfy` (module `MagCalib`): the session state and one pure step
  function per entry point. The firmware's module-level variables become one
  immutable `Session` record.
  - A buffer pointer is `Null`, `Live` or `Freed`. A `Live` buffer holds the
    cells written since it was allocated.
  - Accesses through a `Null` or `Freed` pointer are undefined behaviour in C.
    Here they become an explicit `Undefined` reply, which names the pointer.
  - A `free()` of a block already released is undefined behaviour too. `End`
    records it in its result, and a run of calls stops there.
- `calibration_runs.dfy` (module `CalibrationRuns`): properties of whole runs.
  - What a sequence of readings does to a started session.
  - Arbitrary interleavings of start, update and end from power-up.
  - The teardown run twice.
  - The validity check on chosen calibrations.

Single-precision floats are modelled as reals. The float literals 1e-8f, 0.3f
and FLT_EPSILON are written as the exact binary32 values they denote. `sqrtf`
and `length3` are parameters of the model, because their rounding is not
modelled.

The update that stores the 3000th reading answers false. The fit first runs
on the next call (lines 212-224), and runs again on every later call.

## Model

| member | source | states |
|---|---|---|
| MagCalib.Boot | applications/app_mag_calib.c:11-17 | Before any start, all three pointers are null and the counter is 0. The calibration is the one loaded from storage, and nothing has been saved yet. The session satisfies the invariant. |
| MagCalib.Start | applications/app_mag_calib.c:27-33 | A start leaves three live, empty buffers and a counter of 0. It does not touch the stored calibration or the storage log. |
| MagCalib.Update | applications/app_mag_calib.c:210-225 | The update is defined exactly when all three pointers are live; otherwise the reply names a pointer that is not live. Below capacity, it writes the reading at index `count` of each buffer, keeps the earlier cells, advances the counter by one, keeps the calibration and answers false. At capacity, it leaves buffers and counter alone, stores the fit of the full buffers and answers true. The invariant `count <= MAG_SAMPLE` (buffer length equals the counter) is preserved. |
| MagCalib.FirstFault | applications/app_mag_calib.c:213-215 | The fault names the first pointer, in x, y, z order, that is not live, and says whether it was null or freed. |
| MagCalib.FitCalibration | applications/app_mag_calib.c:219 | The fit over the 3000 buffered readings (cap 1000, threshold 0) stores a radius equal to sqrtf of the mean squared distance of those readings from the stored offset. |
| MagCalib.GetOffset | applications/app_mag_calib.c:227-232 | Returns the stored offset, all three components. |
| MagCalib.GetProgress | applications/app_mag_calib.c:276-279 | Progress is count·100/3000, rounded down: `p·3000 <= count·100 < (p+1)·3000`. For a valid session it is at most 100, and it equals 100 exactly when the buffer is full. |
| MagCalib.End | applications/app_mag_calib.c:243-258 | Every non-null pointer is freed once. The result says whether the free released a live block or freed a block a second time. mx_cal ends null; my_cal and mz_cal are left dangling, non-null. The counter and the calibration stay. The calibration is appended to the storage log exactly once. |
| MagCalib.EndIntended | applications/app_mag_calib.c:243-258 | The corrected teardown: the same frees and the same save, but each pointer ends null. |
| MagCalib.Check | applications/app_mag_calib.c:265-274 | A product of offsets and radius below 1e-8 means invalid, negative products included. Otherwise the radius is non-zero and the result is true exactly when the reading's length divided by the radius lies within 0.3 of 1. |
| MagCalib.CheckIntended | applications/app_mag_calib.c:267-273 | The corrected check: the degenerate test is on the product's magnitude. Otherwise it is the same ratio test. |
| SphereFit.Guard | applications/app_mag_calib.c:171-173 | A divisor below FLT_EPSILON in magnitude is replaced by 1. The result is never below FLT_EPSILON in magnitude, and a divisor that passes is kept as it is. |
| SphereFit.StepWith | applications/app_mag_calib.c:175-178 | The update computed from the carried A2, B2, C2, Q0, Q1 and Q2. Because no divisor is zero, an axis stays where it is exactly when its numerator is zero. |
| SphereFit.Step | applications/app_mag_calib.c:168-178 | The update from a centre, with its auxiliaries computed afresh. A centre is a fixed point exactly when all three numerators vanish. |
| SphereFit.AuxAt | applications/app_mag_calib.c:146-158 | For any centre, Q2 is zero and Rsq is the sum of the three per-axis expansions Σ(mean square) − 2c·mean + c². Lines 191-199 recompute the same values after each committed step. |
| SphereFit.AddSampleAxis | applications/app_mag_calib.c:65-92 | Adding a sample adds, on every axis, its coordinate to the plain sum and its square to the sum of squares. |
| SphereFit.AddSampleCommutes | applications/app_mag_calib.c:63-93 | The accumulated sums do not depend on the order in which two samples are added. |
| SphereFit.StartIsSampleMean | applications/app_mag_calib.c:140-143 | The starting centre is the per-axis average of the samples. |
| SphereFit.Denominators | applications/app_mag_calib.c:168-173 | Every divisor the step uses has magnitude at least FLT_EPSILON. |
| SphereFit.Iterate | applications/app_mag_calib.c:161-200 | The loop runs at most max_iterations passes. If it stops early, it was on a step whose squared length is within delta. It then returns the centre the step started from. If it does not stop early, it ran exactly max_iterations passes. |
| SphereFit.SmallStepStopsAtPreStepCentre | applications/app_mag_calib.c:180-190 | A small enough step ends the loop in that pass, and the pre-step centre is returned. |
| SphereFit.ZeroDeltaStopsOnlyOnZeroStep | applications/app_mag_calib.c:185 | With threshold 0, the loop stops early only on a step of length exactly zero. |
| SphereFit.SquaredStepNonNegative | applications/app_mag_calib.c:181-185 | The squared step compared with delta is never negative. |
| SphereFit.SumsOfAxis | applications/app_mag_calib.c:63-93 | The single pass's per-axis plain sum and sum of squares are the sums of that axis's stream. |
| SphereFit.SpreadExpansion | applications/app_mag_calib.c:63-93 | The sum of squared deviations about c equals Σv² − 2cΣv + n·c². |
| SphereFit.MeanSpread | applications/app_mag_calib.c:95-131 | Each axis's mean squared deviation from c, written with the means the fit divides out. |
| SphereFit.RadiusSqIsMeanSquaredDistance | applications/app_mag_calib.c:146-158 | In exact arithmetic, Rsq for any centre is the mean squared distance of the samples from it. So it is never negative, and the square root at line 205 gets a non-negative argument. |
| SphereFit.RawDenominatorsExpanded | applications/app_mag_calib.c:168-170 | Each raw denominator is 16 times its axis's expansion about the current centre. |
| SphereFit.DenominatorIsAxisSpread | applications/app_mag_calib.c:164-173 | Each raw denominator is 16 times that axis's mean squared deviation from the current centre. So the guard fires only when the samples (nearly) share one coordinate. |
| SphereFit.SpreadNonNegative | applications/app_mag_calib.c:168-170 | A spread is a sum of squares, so it is never negative. |
| SphereFit.Fit | applications/app_mag_calib.c:35-208 | The fitted squared radius is the mean squared distance of the samples from the fitted centre, and is non-negative. With max_iterations 0 the centre is the per-axis average of the samples. |
| SphereFit.AccumulateMoments | applications/app_mag_calib.c:62-131 | The accumulation loop and the division by size compute the means of the first `size` samples. |
| SphereFit.Refine | applications/app_mag_calib.c:140-200 | The refinement loop as written ends where the reference loop ends. Like the firmware, it increments the counter at the top of each pass, computes the step from the carried auxiliaries, breaks on a small step, and otherwise commits the new centre and recomputes the auxiliaries. It holds the final centre's Rsq and the pass count. |
| SphereFit.SphereFitLeastSquares | applications/app_mag_calib.c:35-208 | The outputs are the reference fit's centre and the square root of its squared radius. The loop runs at most max_iterations passes. |
| CalibrationRuns.Feed | applications/app_mag_calib.c:210-225 | A run of updates on a started session keeps every pointer live, keeps the invariant, answers once per reading and saves nothing. |
| CalibrationRuns.FeedCount | applications/app_mag_calib.c:212-217 | After n readings from count c, the counter is min(c + n, 3000). |
| CalibrationRuns.FeedReplies | applications/app_mag_calib.c:212-224 | The i-th update of a run from count c answers true exactly when c + i >= 3000. |
| CalibrationRuns.FeedCells | applications/app_mag_calib.c:212-216 | Each buffer ends as its old cells followed by that axis of the readings that fit, in order. |
| CalibrationRuns.FeedCalibration | applications/app_mag_calib.c:212-224 | A run that never reaches a full-buffer update leaves the calibration alone. Otherwise the final calibration is the fit of the final full buffers. |
| CalibrationRuns.StartedSessionCompletesAfterCapacity | applications/app_mag_calib.c:27-33 | After a start, exactly the first 3000 updates answer false. The 3001st is the first to answer true, and so does every later one. |
| CalibrationRuns.CompletedOffsetIsFitOfFirstReadings | applications/app_mag_calib.c:227-232 | After a start and more than 3000 readings, the offset returned is the fit centre of the first 3000 readings. |
| CalibrationRuns.ProgressNeverDecreases | applications/app_mag_calib.c:276-279 | Progress never decreases across an update, and it reads 100 after every update that answers true. |
| CalibrationRuns.Run | applications/app_mag_calib.c:27-258 | Runs any sequence of start, update and end calls. It stops at the first access through a null or freed pointer and at the first second free(). Every session reached keeps the invariant, and the log of saved calibrations is only ever extended: the old log is a prefix of the new one. |
| CalibrationRuns.EndFreesTwiceExactlyWhenDangling | applications/app_mag_calib.c:243-256 | An end frees some block a second time exactly when the session holds a freed, non-null pointer. |
| CalibrationRuns.DoubleFreeFault | applications/app_mag_calib.c:245-256 | The fault names the first pointer, in x, y, z order, that the end frees a second time. |
| CalibrationRuns.StartEndEndFreesMyCalTwice | applications/app_mag_calib.c:249-251 | From power-up, start, end, end runs into the second free() of my_cal. |
| CalibrationRuns.OffsetChangesOnlyOnCompletion | applications/app_mag_calib.c:212-232 | The offset returned is unchanged by start, by end and by every update that answers false. |
| CalibrationRuns.CountStaysInRange | applications/app_mag_calib.c:212 | From power-up, in every run that has not hit undefined behaviour, the counter stays in 0..3000 and progress in 0..100. |
| CalibrationRuns.UpdateAfterEndIsUndefined | applications/app_mag_calib.c:212-219 | Any update after an end dereferences the null mx_cal. Below capacity that is the write at line 213. At capacity it is the fit's read of `x[i]`. |
| CalibrationRuns.SecondEndFreesTwice | applications/app_mag_calib.c:249-256 | After a start, the first end frees all three buffers once. A second end frees my_cal and mz_cal again. Each end saves the calibration. |
| CalibrationRuns.IntendedEndReleasesOnce | applications/app_mag_calib.c:243-258 | The corrected teardown never frees twice, never leaves a dangling pointer, and a second call frees nothing. |
| CalibrationRuns.StartAndUpdateKeepNoDangling | applications/app_mag_calib.c:27-33 | Start and update never create a dangling pointer. |
| CalibrationRuns.NegativeProductAlwaysRejected | applications/app_mag_calib.c:267-268 | The check as written rejects every calibration whose product of offsets and radius is negative. |
| CalibrationRuns.PlausibleNegativeOffsetRejected | applications/app_mag_calib.c:267-273 | With offset (−1, 2, 3), radius 10 and a reading of length 10, the check as written rejects and the corrected check accepts. |
| CalibrationRuns.ChecksAgreeOnNonNegativeProduct | applications/app_mag_calib.c:267-273 | Both checks agree whenever the product is not negative. |
| CalibrationRuns.IntendedCheckIgnoresOffsetSign | applications/app_mag_calib.c:267 | The corrected check does not depend on the sign of the x offset. |
| CalibrationRuns.KnownGoodFitAccepted | applications/app_mag_calib.c:265-274 | Offset (1, 2, 3), radius 10 and a reading of length 10 pass the check. |
| CalibrationRuns.NeverCalibratedRejected | applications/app_mag_calib.c:267-268 | Zero offsets and radius fail the check for every reading. |

## Left out

- Floating-point rounding: every float is a real.
  - The fit's loop-level facts (the divisor guard, the iteration bound, the
    early stop) hold as stated.
  - The exact-arithmetic identities (Q2 = 0, Rsq = mean squared distance)
    describe the computation without rounding error.
- MagCalib.GetProgress: rounds the exact quotient count·100/3000 down. The
  firmware divides in binary32 and truncates. For counts 1590 and 1770, that
  float product comes out just below 53 and 59, so the firmware reports 52 and
  58. The model reports 53 and 59.
- `sqrtf`, `sqrt` and `length3` are parameters of the model. NaN and infinity
  are not modelled.
- SphereFit.Fit: requires a positive sample count. The firmware always passes
  3000, and a size of 0 would divide by zero.
- The return value 0 of `sphere_fit_least_squares` is not modelled. It is
  constant and never read.
- The contents of freshly allocated memory and malloc failure are not
  modelled. A live buffer holds only the cells written since the start.
- A start while buffers are live leaks them. The model drops the old pointers
  without recording the leak.
- `mag_calib_define_param`, `mag_calib_save_param` and the `param_calib_*`
  storage layer are out of scope. Defining the parameters is modelled as the
  calibration `Boot` is given. Saving is modelled as appending the calibration
  to the `saves` log.
- The `dt` argument of `mag_calib_update` is never read. The `printf` calls
  are left out as I/O.
- `uint16_t` counter overflow cannot happen, because the counter never passes
  3000.
- MagCalib.Update: after a free, the model does not distinguish which
  undefined behaviour follows. Any access through a null or freed pointer is
  reported as `Undefined`, naming the first such pointer.

## Findings

| source | as written | input that shows it | evidently intended | confidence | as-written member | corrected member |
|---|---|---|---|---|---|---|
| applications/app_mag_calib.c:249-256 | The branches for my_cal and mz_cal free their buffer and then set `mx_cal` to NULL. my_cal and mz_cal stay dangling. | `mag_calib_start`, `mag_calib_end`, `mag_calib_end`: the second end passes my_cal and mz_cal to `free` again. | Each branch nulls the pointer it freed, so a second end frees nothing. | high; not executed | CalibrationRuns.SecondEndFreesTwice | CalibrationRuns.IntendedEndReleasesOnce |
| applications/app_mag_calib.c:267 | The degenerate test compares the signed product `x·y·z·r − 0` with 1e-8, so any negative offset product is rejected. | Offset (−1, 2, 3), radius 10, reading (10, 0, 0): the product is −60, so the check returns false although the length ratio is exactly 1. | Compare the magnitude of the product with 1e-8, so a valid fit with an odd number of negative offsets is accepted. | medium; not executed | CalibrationRuns.PlausibleNegativeOffsetRejected | CalibrationRuns.IntendedCheckIgnoresOffsetSign |

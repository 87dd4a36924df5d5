# Klipper cores in Dafny

This project models, in Dafny, the self-contained logic at the heart of several
parts of the Klipper 3D-printer firmware, and proves properties of that model.
The parts are:

- **Kinematics.** The forward maps and endstop wiring of the CoreXY, CoreXZ and
  Hybrid-CoreXY kinematics (`Rails`, `CoreXY`, `CoreXZ`, `HybridCoreXY`).
- **Manual stepper.** Its virtual clock, its GCODE_AXIS registration state
  machine, its homing refusal and its toolhead hooks (`ManualStepper`).
- **Pivot coordinates.** The pivot coordinate transform chain, move segmentation
  and activation (`PivotCoord`).
- **Step compression and sync.** The integer core of step compression
  (`StepCompressMath`) and the step queue, history and buffer
  (`StepCompressQueue`). Also the min-heap ordering of `steppersync_flush`
  (`StepperSync`).
- **SOS filter.** The fixed-point second-order-sections filter on the
  micro-controller (`SosFilterMcu`) and its host-side configuration
  (`SosFilterHost`).
- **HX71x ADC.** Its bit assembly, decoding and buffering on the
  micro-controller (`Hx71xMcu`) and its sample filtering on the host
  (`Hx71xHost`).
- **Eddy-current probe.** The calibration table, its lookups and the sample
  averaging (`ProbeEddyCurrent`).
- **Small parsers and utilities.** The `sensor_debug` hex parser (`SensorDebug`),
  the `graph_steps` log expansion (`GraphSteps`), the `phase_graph` medians and
  phase bucketing (`PhaseGraph`), and the Linux GPIO macros (`LinuxGpio`).
- **Shared helpers.** `Wrappers` holds Option/Result. `Ints` holds fixed-width
  wrap-around and C's truncating division. `Sorting` holds the sort that
  Python's `sorted` and `list.sort` stand for.

Modelling rules:

- Objects whose fields the source updates in place are classes with `modifies`
  frames. Pure computations are functions.
- Each loop is a method proved against a specification function.
- Python floats are modelled as `real`.
- C fixed-width integers are modelled as `int`, with the wrap-around written
  out (`Ints.U32`, `Ints.I32`, `Ints.U64`) where unsigned arithmetic or a
  conversion wraps. Signed int32 products whose overflow C leaves undefined
  are computed exactly; `StepCompressMath.AddRangeUpdate` under "Left out"
  names them.
- Calls into code outside the core are parameters or small stand-in classes.
  Examples are the toolhead, `force_move.calc_move_time`, and cos/sin/sqrt.

## Model

| member | source | states |
|---|---|---|
| Rails.Endstop.AddStepper | klippy/kinematics/corexy.py:16 | `add_stepper` appends exactly that stepper to the endstop's list |
| Rails.Endstop.AddSteppers | klippy/kinematics/corexy.py:15-18 | the registration loop appends a rail's steppers, in order, to another rail's endstop |
| Rails.Rail.SetupItersolve | klippy/kinematics/corexy.py:19-21 | the rail's kernel becomes the one chosen |
| CoreXY.Forward | klippy/kinematics/corexy.py:24-26 | x = (A+B)/2, y = (A-B)/2, z = Z is the position whose corexy stepper positions (x+y, x-y, z) are the given rail positions |
| CoreXY.ForwardOfStepperPositions | klippy/kinematics/corexy.py:24-26 | the forward map inverts the kernels' map: toolhead to rails and back is the identity |
| CoreXY.CoreXYKinematics.constructor | klippy/kinematics/corexy.py:11-21 | every Y stepper is appended to X's first endstop and every X stepper to Y's (also when both share one endstop); kernels '+', '-', 'z' |
| CoreXY.CoreXYKinematics.GetRails | klippy/kinematics/corexy.py:22-23 | rails in x, y, z order and no dual-carriage module |
| CoreXY.CoreXYKinematics.CalcPosition | klippy/kinematics/corexy.py:24-26 | the result is the toolhead position whose stepper positions are the rails' looked-up positions |
| CoreXZ.Forward | klippy/kinematics/corexz.py:24-26 | x = (A+C)/2, y = B, z = (A-C)/2 is the position whose corexz stepper positions are the given ones |
| CoreXZ.ForwardOfStepperPositions | klippy/kinematics/corexz.py:24-26 | toolhead to rails and back is the identity |
| CoreXZ.CoreXZKinematics.constructor | klippy/kinematics/corexz.py:11-21 | every X stepper is appended to Z's first endstop and every Z stepper to X's; kernels '+', 'y', '-' |
| CoreXZ.CoreXZKinematics.GetRails | klippy/kinematics/corexz.py:22-23 | rails in x, y, z order and no dual-carriage module |
| CoreXZ.CoreXZKinematics.CalcPosition | klippy/kinematics/corexz.py:24-26 | the result is the toolhead position whose stepper positions are the rails' looked-up positions |
| HybridCoreXY.ForwardCarriage0 | klippy/kinematics/hybrid_corexy.py:45-46 | x = X + Y, y = Y, z = Z inverts the '-' kernel map of carriage 0 |
| HybridCoreXY.ForwardCarriage1 | klippy/kinematics/hybrid_corexy.py:42-44 | x = DC - Y, y = Y, z = Z inverts the '+' kernel map of the dual carriage |
| HybridCoreXY.HybridCoreXYKinematics.constructor | klippy/kinematics/hybrid_corexy.py:12-37 | X's first stepper, then the dual rail's first stepper if configured, are appended to Y's endstop; the dual rail and module exist together; carriage 0 starts primary, carriage 1 inactive |
| HybridCoreXY.HybridCoreXYKinematics.GetRails | klippy/kinematics/hybrid_corexy.py:38-39 | x, y, z rails, plus exactly one fourth rail and the module when a dual carriage is configured |
| HybridCoreXY.HybridCoreXYKinematics.CalcPosition | klippy/kinematics/hybrid_corexy.py:40-46 | uses the dual-carriage branch exactly when the module exists and reports carriage_1 PRIMARY, else the carriage-0 branch; y, z unchanged |
| HybridCoreXY.HandoffAgrees | klippy/kinematics/hybrid_corexy.py:40-46 | where both carriages describe the same X, the two branches give the same position |
| Rails.DualCarriages.constructor | klippy/kinematics/hybrid_corexy.py:32-35 | carriage 0 is created active and carriage 1 inactive |
| ManualStepper.MoveSegment | klippy/extras/manual_stepper.py:67-70 | the `do_move` trapezoid starts at the command time from the commanded position at rest, with decel_t = accel_t and the `calc_move_time` direction and cruise speed |
| ManualStepper.MoveSegmentReachesTarget | klippy/extras/manual_stepper.py:61-72 | when `calc_move_time` covers the distance, the queued segment ends exactly at MOVE, whatever the acceleration |
| ManualStepper.ProcessSegment | klippy/extras/manual_stepper.py:136-146 | `process_move` appends a segment at print_time from the axis's start position with unit direction and the toolhead move's phase durations |
| ManualStepper.ProcessSegmentTravel | klippy/extras/manual_stepper.py:136-146 | scaling accel, start_v and cruise_v by the axis ratio makes the extra axis travel exactly ratio times the toolhead move's distance |
| ManualStepper.AxisDecision | klippy/extras/manual_stepper.py:115-133 | registered: empty value unregisters, anything else is rejected; unregistered: a single upper-case letter not in XYZEFN registers, empty is ignored, everything else is rejected (each direction stated as iff) |
| ManualStepper.ManualStepperObj.constructor | klippy/extras/manual_stepper.py:11-33 | homing_accel = accel, next_cmd_time = 0, empty queue, no axis registered |
| ManualStepper.ManualStepperObj.SyncPrintTime | klippy/extras/manual_stepper.py:40-46 | afterwards next_cmd_time = max(old next_cmd_time, toolhead last move time) and the toolhead has dwelt up to it; neither clock goes back |
| ManualStepper.ManualStepperObj.Dwell | klippy/extras/manual_stepper.py:169-170 | next_cmd_time grows by max(0, delay), so it never decreases |
| ManualStepper.ManualStepperObj.DoEnable | klippy/extras/manual_stepper.py:47-58 | every stepper of the rail is enabled or disabled, in order, at the synchronised command time |
| ManualStepper.ManualStepperObj.DoSetPosition | klippy/extras/manual_stepper.py:59-60 | the commanded position becomes the given one |
| ManualStepper.ManualStepperObj.DoMove | klippy/extras/manual_stepper.py:61-78 | appends exactly one segment at the synchronised time from the commanded position, which becomes the segment's end; next_cmd_time advances by accel_t + cruise_t + accel_t (a final sync lifts it back to the toolhead time should that sum be negative); activity noted at the new time; resynchronised only when sync; for a positive speed and non-negative accel the clock never goes back |
| ManualStepper.ManualStepperObj.DoHomingMove | klippy/extras/manual_stepper.py:79-88 | without an endstop: the error, and homing_accel and the homing requests unchanged; with one: homing_accel = accel and one manual_home request |
| ManualStepper.ManualStepperObj.CommandWithGcodeAxis | klippy/extras/manual_stepper.py:115-135 | carries out `AxisDecision`: unregister removes the extra axis and step generator and clears the id; register adds them with the current position; ignore and reject change nothing |
| ManualStepper.ManualStepperObj.Cmd | klippy/extras/manual_stepper.py:90-113 | GCODE_AXIS has exactly `CommandWithGcodeAxis`'s effect for each `AxisDecision` case (register, unregister, ignore, reject) and touches no clock, queue, enable or homing state; without it the registration, extra axes and step generators are unchanged; while registered: the error and nothing moves; otherwise ENABLE switches every stepper at the synchronised time, SET_POSITION sets the position, a valid MOVE without STOP_ON_ENDSTOP appends exactly `DoMove`'s segment from that position, SYNC=1 alone synchronises, and without a move the queue is untouched and the position is the SET_POSITION one; homing_accel changes only on a homing move with an endstop; the clock never goes back |
| ManualStepper.ManualStepperObj.CmdUnregistered | klippy/extras/manual_stepper.py:95-113 | for a stepper not registered as a G-code axis: the ENABLE events, the SET_POSITION position, `DoMove`'s segment for a valid MOVE, the SPEED/ACCEL/missing-MOVE/no-endstop errors, the homing request, and homing_accel unchanged off the homing path |
| ManualStepper.ManualStepperObj.CmdMotion | klippy/extras/manual_stepper.py:101-113 | SPEED <= 0 and ACCEL < 0 give their errors and change nothing; STOP_ON_ENDSTOP without MOVE errors, with MOVE and an endstop it hands one request to the homing module with homing_accel = ACCEL, without an endstop it errors; a MOVE queues the `DoMove` segment; SYNC=1 alone synchronises |
| ManualStepper.ManualStepperObj.GetPosition | klippy/extras/manual_stepper.py:162-163 | [commanded position, 0, 0, 0] |
| ManualStepper.ManualStepperObj.CalcPosition | klippy/extras/manual_stepper.py:177-178 | [rail stepper position, 0, 0] |
| ManualStepper.ManualStepperObj.SetPosition | klippy/extras/manual_stepper.py:164-165 | the commanded position becomes newpos[0], as `get_position` then reports |
| ManualStepper.ManualStepperObj.GetLastMoveTime | klippy/extras/manual_stepper.py:166-168 | synchronises, then returns the common clock max(next_cmd_time, toolhead time) |
| ManualStepper.ManualStepperObj.FlushStepGeneration | klippy/extras/manual_stepper.py:160-161 | synchronises both clocks to their maximum |
| ManualStepper.ManualStepperObj.DripMove | klippy/extras/manual_stepper.py:171-172 | a synchronised `do_move` at the homing acceleration: one segment from the commanded position, both clocks at its end (or at the toolhead time should the durations sum negative); for a positive speed the clock never goes back |
| ManualStepper.ManualStepperObj.ProcessMove | klippy/extras/manual_stepper.py:136-146 | appends exactly the projected segment |
| ManualStepper.CalcPositionOfGetPosition | klippy/extras/manual_stepper.py:177-178 | `calc_position` of the rail's own commanded position gives back the first three `get_position` coordinates |
| PivotCoord.Unplane | klippy/extras/pivot_coord.py:74-75 | returning the rotated pair to the coordinate system puts it back in the plane it came from and keeps the rotation axis's own coordinate |
| PivotCoord.UnplanePlane | klippy/extras/pivot_coord.py:63-64 | selecting a plane and putting it back unchanged is the identity |
| PivotCoord.RotateInverse | klippy/extras/pivot_coord.py:72 | the rotation `cn` undone by the opposite angle (cos^2 + sin^2 = 1) restores the pair |
| PivotCoord.StepPos | klippy/extras/pivot_coord.py:57-76 | one stage keeps the length and entries 3 and up, an unregistered stage changes nothing, and the rotation axis's own coordinate is unchanged |
| PivotCoord.StepD2 | klippy/extras/pivot_coord.py:78 | a registered stage writes c0^2 + c1^2 of the pre-rotation plane at its ea_index only; an unregistered one writes nothing |
| PivotCoord.StepOffset | klippy/extras/pivot_coord.py:61-76 | after a registered stage the offset from the pivot is the rotated offset |
| PivotCoord.StepInverse | klippy/extras/pivot_coord.py:57-76 | a stage driven by an extra axis is undone by the same stage with the angle negated |
| PivotCoord.TurnedByInverse | klippy/extras/pivot_coord.py:61-76 | turning the plane of an offset by an angle and back restores the offset |
| PivotCoord.ChainPos | klippy/extras/pivot_coord.py:51-79 | the stages applied in order keep the length and the extra-axis entries |
| PivotCoord.ChainD2 | klippy/extras/pivot_coord.py:56-78 | `pivots_d2` has one entry per coordinate |
| PivotCoord.ChainD2Untouched | klippy/extras/pivot_coord.py:56-78 | `pivots_d2` stays 0 at every index no registered stage names |
| PivotCoord.ChainD2Last | klippy/extras/pivot_coord.py:63-78 | at an active stage's index `pivots_d2` holds c0^2 + c1^2 of that stage's pre-rotation plane (the last stage writing there wins) |
| PivotCoord.ChainInactive | klippy/extras/pivot_coord.py:57-59 | stages whose axis is unregistered leave the coordinate and `pivots_d2` untouched |
| PivotCoord.ChainRoundTrip | klippy/extras/pivot_coord.py:53-68 | the chain applied forward, then in reverse order with the negated multiplier, returns every coordinate |
| PivotCoord.PivotCoordsSpec | klippy/extras/pivot_coord.py:51-79 | `pivot_coords` returns a coordinate and `pivots_d2` of the input's length, with the extra-axis entries passed through |
| PivotCoord.PivotRoundTrip | klippy/extras/pivot_coord.py:80-90 | `get_position` (reverse) undoes the transform `move` sends on, whenever every stage is driven by an extra axis |
| PivotCoord.IndexOf | klippy/extras/pivot_coord.py:48-49 | None exactly when absent, otherwise the first index holding the value |
| PivotCoord.AngularTravel | klippy/extras/pivot_coord.py:92-101 | the travel is never negative |
| PivotCoord.AngularTravelIsMax | klippy/extras/pivot_coord.py:92-101 | the travel is the maximum, starting from 0, of each stage's travel: at least every stage's angular travel (0 for a stage without an axis or whose axis does not move, else the pivot travel over the larger of the two pivot distances) and equal to one of them or 0 |
| PivotCoord.NoPivotMotionNoTravel | klippy/extras/pivot_coord.py:93-95 | when no registered pivot axis changes, the angular travel is 0 |
| PivotCoord.InterpolatedEnd | klippy/extras/pivot_coord.py:106-110 | the n-th of n interpolated positions is the target itself |
| PivotCoord.Segments | klippy/extras/pivot_coord.py:103 | the segment count is ceil(travel * inv_resolution) |
| PivotCoord.ForwardedMoves | klippy/extras/pivot_coord.py:104-114 | n >= 2 segments forward n moves, otherwise exactly one; the last is the transformed target |
| PivotCoord.ForwardedMovesOnLine | klippy/extras/pivot_coord.py:108-114 | move i of n is the transform of the position i/n of the way from the last position to the target |
| PivotCoord.PivotCoordObj.constructor | klippy/extras/pivot_coord.py:9-33 | one unregistered stage per control, inv_resolution = 1/resolution, axis_to_radians = 2 pi / full rotation, inactive; a zero resolution or full rotation and a missing rotate_axis are listed under Left out |
| PivotCoord.PivotCoordObj.UpdateExtraAxes | klippy/extras/pivot_coord.py:42-50 | each stage's index becomes the position of its control in the axis list, or None; nothing else changes; registered indexes are 3 or more |
| PivotCoord.PivotCoordObj.PivotCoords | klippy/extras/pivot_coord.py:51-79 | the result is exactly `PivotCoordsSpec`: the stages in order, or reversed with the angle negated |
| PivotCoord.PivotCoordObj.RunChain | klippy/extras/pivot_coord.py:56-79 | the stage loop computes exactly the chained positions and squared pivot distances of the stages in the order given |
| PivotCoord.PivotCoordObj.GetPosition | klippy/extras/pivot_coord.py:80-85 | returns the reverse transform of the next transform's position and records it and its `pivots_d2` |
| PivotCoord.PivotCoordObj.MaxAngularTravel | klippy/extras/pivot_coord.py:92-101 | the loop computes exactly `AngularTravel` |
| PivotCoord.PivotCoordObj.SendIntermediate | klippy/extras/pivot_coord.py:104-112 | forwards exactly the n - 1 transformed intermediate positions, in order |
| PivotCoord.PivotCoordObj.Move | klippy/extras/pivot_coord.py:86-116 | forwards exactly `ForwardedMoves` for the computed segment count; afterwards last_pos is the new position and last_pivots_d2 the target's |
| PivotCoord.PivotCoordObj.Activate | klippy/extras/pivot_coord.py:117-120 | installs itself and keeps the displaced transform as next; resetting the G-code position runs `get_position`, so the last position and pivot distances become the reverse chain of the displaced transform's position, which is also the G-code position |
| PivotCoord.PivotCoordObj.Deactivate | klippy/extras/pivot_coord.py:121-127 | a no-op while inactive; otherwise reinstalls the displaced transform |
| PivotCoord.PivotCoordObj.Cmd | klippy/extras/pivot_coord.py:117-136 | a missing ACTIVATE, and ACTIVATE while active, are errors that change neither the transforms nor the last position, pivot distances or G-code position; ACTIVATE from inactive is `Activate`: the displaced transform becomes the next transform and the last position, pivot distances and G-code position are its reverse transform; ACTIVATE=0 is `Deactivate`: the displaced transform is reinstalled when active, and nothing else changes |
| StepCompressMath.IdivUp | klippy/chelper/stepcompress.c:74-79 | for d > 0 and either sign of n, the result r satisfies (r-1)d < n <= rd, i.e. it is ceil(n/d) |
| StepCompressMath.IdivDown | klippy/chelper/stepcompress.c:81-86 | for d > 0 and either sign of n, rd <= n < (r+1)d, i.e. it is floor(n/d) |
| StepCompressMath.IdivUnique | klippy/chelper/stepcompress.c:74-86 | any integers with the ceiling and floor brackets are the results of `idiv_up` and `idiv_down` |
| StepCompressMath.QrInit | klippy/chelper/stepcompress.c:102-114 | the view starts at queue_pos and covers min(pending, max_count) steps |
| StepCompressMath.MinmaxPoint | klippy/chelper/stepcompress.c:135-146 | both ends are int32 and maxp is the requested time relative to the last step clock |
| StepCompressMath.MinmaxPointWindow | klippy/chelper/stepcompress.c:135-146 | without wrap-around: maxp is the requested point, minp = point - min(max_error, half the gap to the previous step), and minp never reaches back past the previous step |
| StepCompressMath.AccumulatedClosedForm | klippy/chelper/stepcompress.c:393-411 | summing the gaps as `check_line` does gives interval*n + add*n(n-1)/2 |
| StepCompressMath.AccumulatedIsStepTime | klippy/chelper/stepcompress.c:171-181 | the step_move whose first gap is last_interval + add reaches step k at exactly the closed-form time `add_range_update` bounds |
| StepCompressMath.AddRangeUpdate | klippy/chelper/stepcompress.c:162-188 | fails when no queued step remains; on success count grows by exactly 1 |
| StepCompressMath.AddRangeUpdateSound | klippy/chelper/stepcompress.c:170-187 | on success [minadd, maxadd] is non-empty, narrowed inside the old range, and every add in it puts the new step in its window |
| StepCompressMath.AddRangeUpdateComplete | klippy/chelper/stepcompress.c:170-187 | on success every add of the old range that fits the new step is kept |
| StepCompressMath.AddRangeUpdateFails | klippy/chelper/stepcompress.c:182-183 | when a step remains but the update fails, no add of the range fits it |
| StepCompressMath.AddRangeScan | klippy/chelper/stepcompress.c:190-200 | the scan ends with exactly the int16 adds that fit all `count` steps, the next update fails, and no add fits one step more |
| StepCompressMath.QrAfterMove | klippy/chelper/stepcompress.c:116-128 | the view advances by count steps, keeps queue, end and max_error, and stays within the C field widths |
| StepCompressMath.QrAfterMoveLastStep | klippy/chelper/stepcompress.c:116-128 | without wrap: last_step_clock moves to the time of step count, last_interval becomes that step's gap, last_ideal_step_clock its requested time |
| StepCompressMath.StepTimeSnoc | klippy/chelper/stepcompress.c:121-127 | consecutive closed-form step times differ by the gap interval + k*add |
| StepCompressMath.CheckLineStep | klippy/chelper/stepcompress.c:397-411 | one iteration in uint32 arithmetic advances p and interval exactly as the unbounded sums do, mod 2^32 |
| StepCompressMath.CheckLine | klippy/chelper/stepcompress.c:380-414 | accepts iff the header is valid (count non-zero, not a zero-gap repeat, interval < 2^31) and every step passes its window and overflow tests |
| StepCompressMath.CheckSteps | klippy/chelper/stepcompress.c:391-413 | the loop accepts iff every step's uint32 running time lies in [minp, maxp] and its gap is below 2^31 |
| StepCompressMath.ScannedScheduleChecks | klippy/chelper/stepcompress.c:162-200 | a step_move built from an add `add_range_scan` accepted passes `check_line`, while the windows stay in [0, 2^31) and no gap reaches 2^31 |
| StepCompressQueue.AddMoveLastStep | klippy/chelper/stepcompress.c:519-525 | `add_move`'s ticks put the last step at the running total of all count gaps, and last_interval = interval + add*(count-1) is the last gap |
| StepCompressQueue.TrimHistory | klippy/chelper/stepcompress.c:456-468 | keeps a prefix of the newest-first list; every dropped entry ended by end_clock and the oldest kept one did not |
| StepCompressQueue.Extract | klippy/chelper/stepcompress.c:807-829 | returns no more entries than the history holds, and at most max |
| StepCompressQueue.ExtractSound | klippy/chelper/stepcompress.c:814-818 | every returned entry is from the history and overlaps [start_clock, end_clock) |
| StepCompressQueue.ExtractComplete | klippy/chelper/stepcompress.c:814-818 | on a newest-first history every overlapping entry is returned unless max entries came first |
| StepCompressQueue.GrowAlloc | klippy/chelper/stepcompress.c:643-647 | the doubled size exceeds the steps in use, is at least the old size, and is either the old size or at most twice the steps in use |
| StepCompressQueue.Shuffle | klippy/chelper/stepcompress.c:638-640 | the `memmove` puts the pending steps at the front of the buffer and leaves the rest alone |
| StepCompressQueue.Realloc | klippy/chelper/stepcompress.c:648-649 | the new buffer has the requested size and starts with the old contents |
| StepCompressQueue.StepCompress.constructor | klippy/chelper/stepcompress.c:421-432 | all fields zero, empty queues, direction unknown (-1) |
| StepCompressQueue.StepCompress.Fill | klippy/chelper/stepcompress.c:434-442 | stores max_error and the queue_step message tag |
| StepCompressQueue.StepCompress.SetInvertSdir | klippy/chelper/stepcompress.c:444-454 | stores the normalised flag; flips sdir only when the flag changed and the direction is known, so the direction sent to the MCU keeps its meaning |
| StepCompressQueue.StepCompress.FreeHistory | klippy/chelper/stepcompress.c:456-468 | the loop leaves exactly `TrimHistory` of the old list |
| StepCompressQueue.StepCompress.AddMove | klippy/chelper/stepcompress.c:518-548 | last_step_clock = first_clock + ticks (uint64), last_interval = interval + add*(count-1) (uint32), one queue_step message, one history entry at the front, and last_position moves by +count if sdir else -count |
| StepCompressQueue.StepCompress.View | klippy/chelper/stepcompress.c:102-114 | the queue view starts at queue_pos, ends by queue_next, and is non-empty when steps are pending |
| StepCompressQueue.StepCompress.FlushStep | klippy/chelper/stepcompress.c:557-565 | returns the compressor's step_move for the current queue view; accepted exactly when check_line's conditions hold for it; a rejected move changes nothing; an accepted one sets last_ideal_step_clock to the uint32 distance to its last queued step added to last_step_clock, and emits it through add_move at last_step_clock + interval with add_move's message, history entry, clocks and position |
| StepCompressQueue.StepCompress.EmitMove | klippy/chelper/stepcompress.c:562-565 | the accepted branch: the ideal clock of the move's last step, then add_move's exact new state one interval after the last step clock |
| StepCompressQueue.StepCompress.FlushRound | klippy/chelper/stepcompress.c:557-571 | one pass of the loop keeps the flush invariant; on a rejection nothing moves and the current view's move fails check_line; otherwise the position advances past the emitted steps or the queue is reset |
| StepCompressQueue.StepCompress.QueueFlush | klippy/chelper/stepcompress.c:550-575 | with nothing pending nothing happens; otherwise each message adds one history entry, together moving exactly the steps taken off the queue; it stops at an error, at an empty queue (reset to the start) or once last_step_clock reaches move_clock; an error is returned only while last_step_clock is below move_clock and the compressor's move for the steps still pending fails check_line |
| StepCompressQueue.StepCompress.MakeRoom | klippy/chelper/stepcompress.c:635-653 | afterwards there is room and the pending steps are unchanged; it shuffles when the buffer has a free prefix, otherwise doubles from 1024 |
| StepCompressQueue.StepCompress.Push | klippy/chelper/stepcompress.c:655-656 | the pending steps gain next_step_clock (as uint32) at the end, and next_step_clock becomes 0 |
| StepCompressQueue.StepCompress.QueueAppendExtend | klippy/chelper/stepcompress.c:622-658 | on success the new step is last and the others are the old pending steps less a flushed prefix; with at most 65535 + 2000 pending nothing is flushed |
| StepCompressQueue.StepCompress.ExtractOld | klippy/chelper/stepcompress.c:807-829 | copies exactly `Extract` of the history into the front of the array and leaves the rest untouched |
| StepperSync.HeapRootMin | klippy/chelper/stepcompress.c:900-901 | the root of the move-clock heap, the slot `steppersync_flush` reads as next available, is the earliest slot |
| StepperSync.FindLowest | klippy/chelper/stepcompress.c:941-954 | finds a queue whose head has the lowest req_clock below MAX_CLOCK (the first such queue), or reports that none is due |
| StepperSync.StepperSync.constructor | klippy/chelper/stepcompress.c:855-874 | move_num slots, all 0 |
| StepperSync.StepperSync.HeapReplace | klippy/chelper/stepcompress.c:900-923 | the slots stay a min-heap of uint64 values and their multiset is the old one with the root replaced by req_clock |
| StepperSync.StepperSync.FlushOrder | klippy/chelper/stepcompress.c:937-970 | every queue is its batched messages followed by what remains; a message is batched only if due before MAX_CLOCK and, when it needs a slot, by move_clock; it stops only when nothing is due or the lowest head needs a slot after move_clock; sorted queues give a batch sorted by req_clock; slots claimed and freed balance |
| StepperSync.OrderStep | klippy/chelper/stepcompress.c:941-969 | taking the lowest head keeps the batch sorted and before every remaining head |
| SosFilterMcu.RoundShift | src/sos_filter.c:40-44 | the product scaled by 2^-shift_right and rounded to nearest: the result times 2^shift_right lies within half a unit of the product |
| SosFilterMcu.FixedMul | src/sos_filter.c:36-51 | the rounded product when it fits int32, and shutdown exactly when the rounded product leaves int32 |
| SosFilterMcu.FixedMulUnit | src/sos_filter.c:36-51 | multiplying by 1.0 in the fixed-point format (2^shift_right) returns the value unchanged |
| SosFilterMcu.FixedMulZero | src/sos_filter.c:36-51 | a zero coefficient contributes exactly zero |
| SosFilterMcu.SectionStep | src/sos_filter.c:63-75 | one section keeps its coefficients, keeps every word int32 and yields an int32 output |
| SosFilterMcu.Cascade | src/sos_filter.c:63-75 | applying the sections in order keeps their number and coefficients and every word int32 |
| SosFilterMcu.CascadeSnoc | src/sos_filter.c:63-75 | one more section extends the cascade by exactly one section step, and its overflow shuts the cascade down |
| SosFilterMcu.CascadeNoneExtends | src/sos_filter.c:63-75 | once a section shuts the filter down, no later section brings it back |
| SosFilterMcu.UnitCascade | src/sos_filter.c:55-78 | a cascade of unit sections with zero state passes every sample through unchanged and keeps its state |
| SosFilterMcu.ActiveAcceptedRange | src/sos_filter.c:145-146 | the intended activation check accepts exactly the counts 0 to max_sections, so the negative count reads as a huge uint32 and is refused |
| SosFilterMcu.AsWrittenRejectsFullFilter | src/sos_filter.c:145-146 | as written, activating all max_sections sections shuts down, while the intended check accepts it |
| SosFilterMcu.SosFilter.constructor | src/sos_filter.c:81-90 | max_sections zeroed sections and num_sections = -1, so the filter is not usable yet |
| SosFilterMcu.SosFilter.Update | src/sos_filter.c:55-78 | shutdown before activation; with no live section the sample passes through unchanged; otherwise the output and the new sections are those of Cascade, and sections past the live ones are untouched |
| SosFilterMcu.SosFilter.ApplySections | src/sos_filter.c:63-75 | the section loop computes Cascade of the first n sections in place and leaves the rest unchanged |
| SosFilterMcu.SosFilter.StepSection | src/sos_filter.c:65-74 | one loop pass stores SectionStep's new section at its index and nothing else, or shuts down exactly when SectionStep does |
| SosFilterMcu.SosFilter.SetSection | src/sos_filter.c:102-115 | shutdown exactly when section_idx is past the allocation; otherwise only that section's five coefficients change, each read as int32 |
| SosFilterMcu.SosFilter.SetState | src/sos_filter.c:121-134 | shutdown exactly when section_idx is past the allocation; otherwise only that section's two state words change |
| SosFilterMcu.SosFilter.SetActive | src/sos_filter.c:139-150 | with the intended check: accepted exactly for counts 0 to max_sections, and then the count and the shift are stored; on refusal nothing changes |
| SosFilterHost.AssertIsInt32AsWritten | klippy/extras/sos_filter.py:7-12 | as written, an accepted value comes back unchanged |
| SosFilterHost.AsWrittenAcceptsNonInt32 | klippy/extras/sos_filter.py:7-12 | as written, 2^31 and -2^31-1 are accepted although neither is int32; 2^31 wraps to -2^31 on the MCU |
| SosFilterHost.AssertIsInt32 | klippy/extras/sos_filter.py:9-12 | with int32 bounds: accepted exactly when the value is int32, and then unchanged |
| SosFilterHost.AssertIsInt32Differs | klippy/extras/sos_filter.py:7-12 | the as-written check differs from the intended one at exactly the two values 2^31 and -2^31-1 |
| SosFilterHost.AsFixed | klippy/extras/sos_filter.py:16-24 | with the corrected int32 bound (see Findings): succeeds exactly when val * 2^frac, truncated toward zero, is int32, and returns that truncation |
| SosFilterHost.AsFixedAsWritten | klippy/extras/sos_filter.py:7-24 | `as_fixed_q1`/`as_fixed_q16` as written: succeeds exactly when the truncated scaled value lies within the as-written bounds [-2^31-1, 2^31], and returns it |
| SosFilterHost.AsWrittenQ1FlipsTwo | klippy/extras/sos_filter.py:7-18 | as written, Q1 of 2.0 passes as 2^31, which the MCU reads as -2^31; the corrected conversion reports the overflow |
| SosFilterHost.AsFixedInRange | klippy/extras/sos_filter.py:16-24 | every value whose scaled form lies in [-2^31, 2^31) converts, to an integer within one unit of the scaled value |
| SosFilterHost.FixedRanges | klippy/extras/sos_filter.py:14-24 | Q1 covers [-2, 2) and Q16 covers [-65536, 65536) |
| SosFilterHost.ConvertColumnsMeaning | klippy/extras/sos_filter.py:85-91 | the first k columns convert exactly when column 3, once reached, is 1.0 and every other column fits Q1; the result holds them in order without column 3 |
| SosFilterHost.ConvertSectionMeaning | klippy/extras/sos_filter.py:81-92 | a section converts exactly when it has six coefficients, the fourth is 1.0 and the rest fit Q1; the result is columns 0, 1, 2, 4, 5 in Q1 |
| SosFilterHost.ConvertSections | klippy/extras/sos_filter.py:80-93 | a successful conversion of k sections has k entries |
| SosFilterHost.ConvertSectionsMeaning | klippy/extras/sos_filter.py:80-93 | the first k sections convert exactly when each does, and entry i is section i converted |
| SosFilterHost.ConvertFiltersMeaning | klippy/extras/sos_filter.py:74-94 | the filters convert exactly when there are at most four sections and each converts; the result keeps the count and converts each section |
| SosFilterHost.ConvertSectionQ1 | klippy/extras/sos_filter.py:81-93 | the column loop computes ConvertSection, including which error comes first |
| SosFilterHost.ConvertFiltersToQ1 | klippy/extras/sos_filter.py:74-94 | the section loop computes ConvertFilters, including which error comes first |
| SosFilterHost.CreateFilter | klippy/extras/sos_filter.py:69-71 | a config_sos_filter command that allocates NUM_SECTIONS = 4 sections |
| SosFilterHost.ConfigurationLayout | klippy/extras/sos_filter.py:97-122 | the empty filter is one all-zero section command plus activation of 0; otherwise conversion decides success, and n sections give n section commands, n zero-state resets and the activation of n with shift 30 |
| SosFilterHost.ConfigurationAccepted | klippy/extras/sos_filter.py:97-122 | every command of a successful configuration passes the MCU's checks (with the intended activation check) on a filter made by CreateFilter |
| SosFilterHost.ConfigureFilter | klippy/extras/sos_filter.py:97-122 | the command loops build exactly Configuration |
| SosFilterHost.NewDigitalFilter | klippy/extras/sos_filter.py:31-37 | without a requested design the filter is empty at the given sample rate; any requested design is not modelled |
| Hx71xMcu.BitsValueBound | src/sensor_hx71x.c:72-85 | n clocked-in bits read as a number below 2^n |
| Hx71xMcu.BitsValueAppend | src/sensor_hx71x.c:72-85 | reading a and then b shifts a left by the length of b and adds b |
| Hx71xMcu.AllOnes | src/sensor_hx71x.c:133-134 | a run of n bits reads as 2^n - 1 exactly when every bit is one |
| Hx71xMcu.RawRead | src/sensor_hx71x.c:72-85 | the loop returns the bits read most significant first as a uint32 |
| Hx71xMcu.Decode | src/sensor_hx71x.c:128-136 | the decoded sample is a uint32 |
| Hx71xMcu.DecodeMeaning | src/sensor_hx71x.c:123-136 | the error marker exactly when some gain/channel pulse after the 24 data bits read zero; otherwise the int32 reading is the 24 data bits as a two's complement number |
| Hx71xMcu.SampleBytes | src/sensor_hx71x.c:139-142 | four bytes, each below 256 |
| Hx71xMcu.SampleBytesRoundTrip | src/sensor_hx71x.c:139-142 | reading the four bytes back little-endian gives the sample |
| Hx71xMcu.Hx71xAdc.constructor | src/sensor_hx71x.c:150-164 | the given gain/channel, nothing pending, no timer, the chip powered down and an empty buffer |
| Hx71xMcu.Hx71xAdc.Event | src/sensor_hx71x.c:101-115 | a wake-up while a read is pending counts one possible overflow; when data is ready the read is flagged and the next wake-up is 8 periods later, otherwise one period, with uint32 wrap-around |
| Hx71xMcu.Hx71xAdc.ReadAdc | src/sensor_hx71x.c:119-146 | clears the pending flag, appends the four bytes of the decoded sample and leaves the rest of the buffer alone; when another sample would not fit, the buffer goes out as a report and is emptied |
| Hx71xMcu.Hx71xAdc.Query | src/sensor_hx71x.c:170-189 | stops the timer and clears the pending flag; zero ticks powers the chip down and keeps the buffer, the overflow count and the wake time; otherwise the chip wakes, the buffer and overflow count are reset and the timer is due one period after now |
| Hx71xMcu.ConfigHx71x | src/sensor_hx71x.c:150-164 | shutdown exactly when gain/channel is outside 1 to 4; otherwise a powered-down sensor with that gain/channel |
| Hx71xHost.SurvivorsAppend | klippy/extras/hx71x.py:83-91 | dropping error samples distributes over concatenation, so the kept samples keep their order |
| Hx71xHost.SurvivorsMeaning | klippy/extras/hx71x.py:83-91 | every sample is either kept or counted as an error; no kept value is the marker; each other sample is kept as often as it occurs |
| Hx71xHost.ErrorValueIsMinInt32 | klippy/extras/hx71x.py:86 | for an int32 reading, the marker test singles out -2^31 alone |
| Hx71xHost.ErrorMarkerEndToEnd | klippy/extras/hx71x.py:86 | the host drops the int32 reading of a decoded transfer exactly when some pulse after the 24 data bits read zero on the MCU |
| Hx71xHost.Hx71xBase.constructor | klippy/extras/hx71x.py:16-22 | both counters start at zero |
| Hx71xHost.Hx71xBase.ConvertSamples | klippy/extras/hx71x.py:83-91 | compacts the batch in place: the kept prefix is exactly the non-marker samples in order, and the error counter grows by the number of markers |
| Hx71xHost.Hx71xBase.ProcessBatch | klippy/extras/hx71x.py:111-127 | an empty batch counts a failure when the overflow count moved and forces a restart after more than four in a row, resetting the count; any data clears the count and is returned with the error and overflow counters |
| Hx71xHost.CheckPins | klippy/extras/hx71x.py:24-35 | accepted exactly when both pins are on one MCU, giving that MCU and the two pin names |
| Hx71xHost.GainChoicesAccepted | klippy/extras/hx71x.py:130-146 | every gain/channel choice of either chip, the default included, passes the MCU's range check |
| ProbeEddyCurrent.BisectFromMeaning | klippy/extras/probe_eddy_current.py:81 | on an ascending list, the binary search keeps its invariant: everything before the insertion point is at most x and everything from it on is greater |
| ProbeEddyCurrent.BisectMeaning | klippy/extras/probe_eddy_current.py:81 | bisect_right's insertion point splits an ascending table into the entries at most x and those greater than x |
| ProbeEddyCurrent.FreqToHeightMeaning | klippy/extras/probe_eddy_current.py:79-99 | an empty table or a frequency at or above the last entry gives -99.9; below the first entry gives 99.9; anything else lies on the line through the two entries around it |
| ProbeEddyCurrent.InterpolateOnSegment | klippy/extras/probe_eddy_current.py:92-94 | the gain/offset interpolation lies on the line through the two entries and meets both endpoints |
| ProbeEddyCurrent.FreqToHeightAtEntry | klippy/extras/probe_eddy_current.py:79-99 | with distinct frequencies, every table entry but the last maps to its own height |
| ProbeEddyCurrent.HeightToFreqMeaning | klippy/extras/probe_eddy_current.py:100-114 | for heights that fall as the frequency rises, a height is accepted exactly when it lies in [last height, first height), and the result lies on the line through the two entries around it |
| ProbeEddyCurrent.SegmentRange | klippy/extras/probe_eddy_current.py:88-94 | on a segment whose heights fall, a frequency in [f0, f1) gives a height in (z1, z0] |
| ProbeEddyCurrent.SegmentIndexUnique | klippy/extras/probe_eddy_current.py:104-105 | with strictly falling heights, a height falls in at most one segment |
| ProbeEddyCurrent.SegmentRoundTrip | klippy/extras/probe_eddy_current.py:79-114 | the height of a frequency inside segment i, looked up again in whatever segment contains it, gives back that frequency |
| ProbeEddyCurrent.FreqHeightRoundTrip | klippy/extras/probe_eddy_current.py:96-114 | for strictly ascending frequencies and strictly falling heights, height_to_freq(freq_to_height(f)) == f for every f strictly inside the table |
| ProbeEddyCurrent.BackFromSegment | klippy/extras/probe_eddy_current.py:100-114 | the height of a frequency on segment i maps back to that frequency |
| ProbeEddyCurrent.HeightInTable | klippy/extras/probe_eddy_current.py:79-95 | the height of a frequency inside the table lies in [last height, first height) |
| ProbeEddyCurrent.EddyCalibration.constructor | klippy/extras/probe_eddy_current.py:28-30 | an empty table |
| ProbeEddyCurrent.EddyCalibration.LoadCalibration | klippy/extras/probe_eddy_current.py:75-78 | the two lists, zipped, are the swapped (frequency, height) points sorted as tuples: same length, sorted, and a permutation of the input |
| ProbeEddyCurrent.EddyCalibration.ApplyCalibration | klippy/extras/probe_eddy_current.py:79-95 | every sample keeps its time and frequency and gets the table height of its frequency |
| ProbeEddyCurrent.ScanLengthMeaning | klippy/extras/probe_eddy_current.py:276-281 | every scanned message starts at or before end_time, and the scan stops at the first that starts after it |
| ProbeEddyCurrent.DiscardMeaning | klippy/extras/probe_eddy_current.py:282-289 | the deleted prefix ends with a message that ended before start_time, and no message after it ended before start_time |
| ProbeEddyCurrent.MeanBounds | klippy/extras/probe_eddy_current.py:285-293 | when any sample fell in the window, the average lies between the smallest and largest frequency averaged |
| ProbeEddyCurrent.ProbedMeaning | klippy/extras/probe_eddy_current.py:311-327 | pull_probed succeeds exactly when every result has a reading whose height is strictly inside the sentinels, and then returns each position with Z set to z_offset + (toolhead Z - sensor height), in order |
| ProbeEddyCurrent.AcceptedInsideTable | klippy/extras/probe_eddy_current.py:318-321 | an accepted reading lies inside the table, because frequencies outside it map to the rejected sentinels |
| ProbeEddyCurrent.ProbedErrExtends | klippy/extras/probe_eddy_current.py:314-321 | the first rejected result decides the error; later results do not change it |
| ProbeEddyCurrent.EddyGatherSamples.constructor | klippy/extras/probe_eddy_current.py:235-244 | the calibration and offset stored; no messages, windows or results; not stopped |
| ProbeEddyCurrent.EddyGatherSamples.PullFreq | klippy/extras/probe_eddy_current.py:271-293 | the result is the mean of the frequencies timed inside the window over the scanned messages, 0 when none; the messages up to the last skipped one are deleted |
| ProbeEddyCurrent.EddyGatherSamples.CheckSamples | klippy/extras/probe_eddy_current.py:301-310 | the messages and waiting windows become what CheckSpec leaves, and the results gain Recorded of the windows it closed: per closed window, in order, the mean `_pull_freq` computes over the messages it scans and the toolhead position given or looked up; earlier results are kept and it stops only when no data or window is left or the newest sample is before the first open window's end |
| ProbeEddyCurrent.PullWindow | klippy/extras/probe_eddy_current.py:271-290 | the messages `_pull_freq` scans are a prefix of the queue and the ones it keeps a suffix, all non-empty |
| ProbeEddyCurrent.CheckSpecMeaning | klippy/extras/probe_eddy_current.py:301-310 | the waiting windows lose a prefix and exactly those windows are closed, in order; the first is closed over the messages `_pull_freq` scans from the current queue; and it stops only with no messages, no windows, or the first open window's end still ahead of the newest sample |
| ProbeEddyCurrent.CheckSpecWindows | klippy/extras/probe_eddy_current.py:301-310 | the windows closed are a prefix of the waiting ones, in order, and the rest stay waiting |
| ProbeEddyCurrent.ClosesPrefixCons | klippy/extras/probe_eddy_current.py:308-310 | closing the first window and then a prefix of the rest closes a prefix of all of them |
| ProbeEddyCurrent.CheckSpecStops | klippy/extras/probe_eddy_current.py:302-305 | the loop stops only with no messages, no windows, or the first window's end still ahead of the newest sample |
| ProbeEddyCurrent.GatheredCarried | klippy/extras/probe_eddy_current.py:302-310 | the loop's invariant carries over one closed window: what is left after the closed windows, closing one more, is what is left after those plus that one |
| ProbeEddyCurrent.EddyGatherSamples.CloseWindows | klippy/extras/probe_eddy_current.py:302-310 | the loop leaves the messages and windows CheckSpec leaves and appends Recorded of the windows it closes |
| ProbeEddyCurrent.EddyGatherSamples.CloseFirst | klippy/extras/probe_eddy_current.py:303-310 | one iteration closes the first window and keeps the loop's invariant, one window further |
| ProbeEddyCurrent.EddyGatherSamples.TakeWindow | klippy/extras/probe_eddy_current.py:303-310 | the first window is closed over the messages `_pull_freq` scans, those it keeps remain, the window leaves the queue and its averaged frequency and position are appended to the results |
| ProbeEddyCurrent.CheckSpecIdempotent | klippy/extras/probe_eddy_current.py:301-310 | a second `_check_samples` on what the first left closes nothing |
| ProbeEddyCurrent.RecordedMeaning | klippy/extras/probe_eddy_current.py:285-293 | one result per closed window, in order: the average of the frequencies timed inside that window over the messages scanned for it (0 when none) and its toolhead position |
| ProbeEddyCurrent.RecordedAppend | klippy/extras/probe_eddy_current.py:308 | results of windows closed one after another are appended in that order |
| ProbeEddyCurrent.EddyGatherSamples.AddMeasurement | klippy/extras/probe_eddy_current.py:250-256 | after finish, drops all messages, changes nothing else and asks to be unsubscribed; otherwise the message is queued and the state becomes CheckSpec of the longer queue, with Recorded (averaged frequency and position) of each window it closes appended; no open window is left whose end the data has reached |
| ProbeEddyCurrent.EddyGatherSamples.Finish | klippy/extras/probe_eddy_current.py:257-258 | later messages are refused |
| ProbeEddyCurrent.EddyGatherSamples.NoteProbe | klippy/extras/probe_eddy_current.py:328-330 | the window is queued with its given position, and the state becomes CheckSpec of the longer window queue, with Recorded (averaged frequency and position) of each closed window appended; only windows from the front are closed, one result each |
| ProbeEddyCurrent.EddyGatherSamples.NoteProbeAndPosition | klippy/extras/probe_eddy_current.py:331-333 | the window is queued with its lookup time, and the state becomes CheckSpec of the longer window queue, with Recorded (averaged frequency and position looked up at that time) of each closed window appended; only windows from the front are closed, one result each |
| ProbeEddyCurrent.EddyGatherSamples.PullProbed | klippy/extras/probe_eddy_current.py:311-327 | the result is Probed of the stored results; they are cleared on success and kept on error |
| ProbeEddyCurrent.StartGather | klippy/extras/probe_eddy_current.py:245-248 | fails exactly on a probe whose table has at most two points; otherwise an empty gatherer |
| SensorDebug.HexDigit | klippy/extras/sensor_debug.py:26 | a hex digit of either case has a value below 16 |
| SensorDebug.BytesBE | klippy/extras/sensor_debug.py:28-31 | exactly n values, each a byte |
| SensorDebug.ParseBuffer | klippy/extras/sensor_debug.py:23-32 | the byte loop and the final reverse compute ParseSpec: nothing for the empty string, failure when the text is not hex, otherwise the low len/2 bytes of the value, most significant first |
| SensorDebug.FormatHex | klippy/extras/sensor_debug.py:47-48 | two characters per byte |
| SensorDebug.ParseThenFormat | klippy/extras/sensor_debug.py:23-48 | parsing an even-length hex string and formatting the bytes again gives the string back in lower case, so last_request echoes the WRITE argument |
| SensorDebug.FormatHexIsHex | klippy/extras/sensor_debug.py:47-48 | the formatted text is hex and reads as the bytes' big-endian value |
| SensorDebug.FormatThenParse | klippy/extras/sensor_debug.py:23-48 | formatting bytes as hex and parsing the text gives the bytes back |
| SensorDebug.ParseKeepsLowBytes | klippy/extras/sensor_debug.py:26-31 | the parsed bytes are the value modulo 2^(8 * len/2), so the leading digit of an odd-length string is dropped |
| SensorDebug.SensorDebugger.constructor | klippy/extras/sensor_debug.py:12 | both status strings start empty |
| SensorDebug.SensorDebugger.CmdSensorDebug | klippy/extras/sensor_debug.py:34-53 | fails exactly when WRITE does not parse, and then the status is unchanged; otherwise the status is the request bytes and the response bytes, each as lower-case hex |
| GraphSteps.DecimalTextValue | scripts/graph_steps.py:11 | the decimal text of n is a run of digits whose value is n |
| GraphSteps.ParseFormatInt | scripts/graph_steps.py:11-19 | int() reads back what "%d" writes, negative numbers included |
| GraphSteps.EqIndex | scripts/graph_steps.py:19 | the split point is the first '=' of the token, or its end when there is none |
| GraphSteps.LineOfStepper | scripts/graph_steps.py:16-19 | only queue_step lines whose second token is "oid=" followed by a number reading back as the stepper's oid contribute |
| GraphSteps.Emit | scripts/graph_steps.py:35-38 | one step time per step of the command |
| GraphSteps.AddFactorStep | scripts/graph_steps.py:25 | count * (count - 1) // 2 grows by count from count to count + 1 |
| GraphSteps.AdvanceClosedForm | scripts/graph_steps.py:23-38 | the closed form used for skipped steps (interval * n + add * n(n-1)/2) equals stepping n times with the interval growing by add after each step |
| GraphSteps.AdvanceSplit | scripts/graph_steps.py:29-38 | stepping a then b steps is stepping a + b, the second part with the interval grown by add * a |
| GraphSteps.EmitDrop | scripts/graph_steps.py:29-38 | dropping the first s steps of a command leaves the command that starts at the s-th step time with the grown interval and count - s steps |
| GraphSteps.Truncate | scripts/graph_steps.py:39-40 | `del out[k:]` keeps a prefix of the output: its first k entries for k >= 0 (all if fewer), and all but the last -k for negative k (none if fewer) |
| GraphSteps.QueueStep | scripts/graph_steps.py:20-41 | the loop body for one command computes Consume: skip, time, output and whether the loop stops |
| GraphSteps.ConsumeSkipped | scripts/graph_steps.py:23-27 | a command entirely inside the skip adds nothing, consumes its steps from the skip and moves the time past all of them |
| GraphSteps.ConsumeEmitted | scripts/graph_steps.py:29-41 | a command reaching past the skip appends exactly its steps after the skip; it stops with the output cut to step_count, or continues with fewer than step_count entries |
| GraphSteps.RunMeaning | scripts/graph_steps.py:15-42 | from any state that has not stopped, the rest of the run outputs the current output plus the later commands' step times after the skip, cut to step_count |
| GraphSteps.ParseLog | scripts/graph_steps.py:10-42 | the loops compute ParseLogSpec, including the first exception a line raises |
| GraphSteps.ParseLogMeaning | scripts/graph_steps.py:10-42 | the output is the stepper's step times, in log order, with the first skip dropped and cut to step_count |
| GraphSteps.ParseLogBound | scripts/graph_steps.py:39-41 | the output never has more than step_count entries, whatever the log |
| GraphSteps.RunBound | scripts/graph_steps.py:39-41 | from an output of at most step_count entries, the run never exceeds step_count |
| PhaseGraph.Mask | scripts/motan/phase_graph.py:29 | x & (4096 - 1) is in [0, 4096) and differs from x by a multiple of 4096 |
| PhaseGraph.ExpansionForward | scripts/motan/phase_graph.py:41-45 | when the new reading is one driver step ahead, expand_count forward-tagged sub-phases walk up one at a time from the previous reading and end on the new reading's phase |
| PhaseGraph.ExpansionBackward | scripts/motan/phase_graph.py:46-50 | when the new reading is one step behind and not one ahead, expand_count backward-tagged sub-phases walk down one at a time and end on the new reading's phase |
| PhaseGraph.ExpansionOtherwise | scripts/motan/phase_graph.py:41-52 | the first reading and any reading neither one step ahead nor one behind add nothing |
| PhaseGraph.MaskAdd | scripts/motan/phase_graph.py:44-49 | masking before or after adding gives the same phase |
| PhaseGraph.PhasesInRange | scripts/motan/phase_graph.py:34-53 | every emitted sub-phase is a direction tag 0 or 1 and a phase in [0, 4096), so it indexes a bucket |
| PhaseGraph.GetPhases | scripts/motan/phase_graph.py:22-53 | the reading loop emits exactly PhasesOf the readings, each scaled by NUM_PHASES // (microsteps * 4) and compared with the previous scaled reading |
| PhaseGraph.MedianSplits | scripts/motan/phase_graph.py:58-65 | for a sorted bucket, the lower half lies at or below the median and the upper half at or above it; an odd bucket's median is one of its elements |
| PhaseGraph.MedianOrderFree | scripts/motan/phase_graph.py:55-67 | the median after sorting depends only on the bucket's contents, not on the order samples arrived in |
| PhaseGraph.CalcMedian | scripts/motan/phase_graph.py:55-67 | every bucket is sorted in place and the output holds one median per bucket (0 for an empty one) |
| PhaseGraph.NewBuckets | scripts/motan/phase_graph.py:77-78 | two lists of 4096 empty buckets |
| PhaseGraph.AddSample | scripts/motan/phase_graph.py:81 | the bucket set keeps its shape |
| PhaseGraph.FillMeaning | scripts/motan/phase_graph.py:80-81 | each bucket receives, in order, exactly the samples tagged with its direction and phase |
| PhaseGraph.ConvertAll | scripts/motan/phase_graph.py:71-81 | every bucket set keeps its shape |
| PhaseGraph.ConvertKeys | scripts/motan/phase_graph.py:74-79 | afterwards the run has a bucket set for every named dataset, and every other entry is as it was |
| PhaseGraph.ConvertUntouched | scripts/motan/phase_graph.py:74-79 | a dataset not named in the graphs keeps its entry, or its absence |
| PhaseGraph.ConvertMeaning | scripts/motan/phase_graph.py:71-81 | each bucket of a named dataset holds what it held before (nothing, for a new one) followed by that dataset's samples for its sub-phase, once per time the dataset is named |
| PhaseGraph.ConvertStep | scripts/motan/phase_graph.py:72-81 | the last dataset named adds its samples to its own bucket set and leaves the others as they were |
| PhaseGraph.ConvertAllSnoc | scripts/motan/phase_graph.py:72-81 | one more dataset replaces only its own entry, with its old or new buckets filled by its samples |
| PhaseGraph.AddAll | scripts/motan/phase_graph.py:80-81 | appending along zip(ds, phases) computes Fill over the shorter of the two |
| PhaseGraph.PhaseSets.constructor | scripts/motan/phase_graph.py:69-81 | no bucket sets |
| PhaseGraph.PhaseSets.ConvertGraph | scripts/motan/phase_graph.py:72-81 | the inner loop continues ConvertAll over one graph's datasets |
| PhaseGraph.PhaseSets.AddDataset | scripts/motan/phase_graph.py:73-81 | the run's bucket set for the dataset, created empty when missing, receives its samples paired with the sub-phases; no other entry changes |
| PhaseGraph.ConvertGraphStep | scripts/motan/phase_graph.py:72-81 | converting one more dataset of a graph replaces only its own entry, filled with its samples |
| PhaseGraph.PhaseSets.ConvertToPhases | scripts/motan/phase_graph.py:69-81 | the bucket sets become ConvertAll of the old ones over every dataset of every graph, in order |
| LinuxGpio.PortOfGpio | src/linux/internal.h:9-11 | packing a port and a line below 288 and taking the port back out gives the port |
| LinuxGpio.PinOfGpio | src/linux/internal.h:9-12 | packing a port and a line below 288 and taking the line back out gives the line |
| LinuxGpio.GpioOfParts | src/linux/internal.h:10-12 | splitting any pin number and packing the parts again gives the pin back, negative numbers included, because C's / and % truncate toward zero |
| LinuxGpio.PinInRange | src/linux/internal.h:11-12 | the line of a non-negative pin number is one of its port's 288, and its port is non-negative |
| LinuxGpio.NegativePortLost | src/linux/internal.h:10-11 | a negative port does not survive: port -1, line 1 packs to -287, whose port reads as 0 |
| LinuxGpio.NsecsPerTick | src/linux/internal.h:14-15 | the whole nanoseconds per tick, rounded down: the largest r with r * CONFIG_CLOCK_FREQ <= 10^9 |
| Sorting.Insert | klippy/extras/probe_eddy_current.py:76 | one element longer, with exactly the new element added to the contents |
| Sorting.InsertSorted | klippy/extras/probe_eddy_current.py:76 | inserting into a sorted list under a total order keeps it sorted |
| Sorting.Sort | klippy/extras/probe_eddy_current.py:76 | the result has the input's length and contents |
| Sorting.SortSorted | klippy/extras/probe_eddy_current.py:76 | under a total order the result is sorted |
| Sorting.SortedUnique | scripts/motan/phase_graph.py:58 | under a total order, two sorted permutations of the same contents are equal |
| Sorting.SortIsTheSortedPermutation | scripts/motan/phase_graph.py:58 | any sorted permutation of a list is what sorted() returns |

## Left out

- `src/linux/console.c` is not part of this model: it is pty setup, a reader thread and a mutex, which is I/O and concurrency.
- `klippy/extmgr.py` is not part of this model: it launches subprocesses, serves webhooks and waits on the reactor.
- `scripts/graph_extruder.py` is not part of this model: it is floating-point motion smoothing feeding plots.
- `src/sos_filter.h` is not part of this model: it holds only two prototypes.
- Floating point: Python floats and C doubles are exact `real`s throughout. Rounding, NaN and infinities are not modelled.
- StepCompressMath.AddRangeUpdate: the int32 products and sums `interval*nextcount`, `minadd*nextaddfactor`, `maxadd*nextaddfactor` and `nextcount*(nextcount+1)/2` (klippy/chelper/stepcompress.c:171-181) are computed exactly. In C they are signed int32 arithmetic, whose overflow is undefined behaviour; the model promises nothing about what compiled code does when they overflow. The inputs are bounded (`count` below 65536, `interval` a uint32 read as int32, `add` within int16), but these bounds do not keep every product inside int32.
- StepCompressQueue.StepCompress.QueueFlush: the least-squares fit (`calc_leastsquares`, `compress_leastsquares`) and `wrap_compress` are double-precision code. The compressor is therefore a function parameter, constrained only by `CompressorBounded`.
- The time conversion in `stepcompress_append`, `calc_last_step_print_time` and the `sqrt` branch of `stepcompress_find_past_position` are floating-point code and are not modelled.
- Message encoding and `serialqueue_send_batch`: a flushed step move is recorded as a value, not encoded. `serialqueue` and `sensor_bulk` are not part of this model.
- PivotCoord.PivotCoordObj.constructor: requires a non-zero `resolution` and `axis_full_rotation`; with either at 0 the source's `1. / resolution` or `2. * math.pi / full_rotation` raises ZeroDivisionError while the configuration is read (klippy/extras/pivot_coord.py:15-18), which the model does not reproduce. A stage's `rotate_axis` is one of x, y, z (`Axis`); the source's default for a missing `rotate_axis_<n>` is None (klippy/extras/pivot_coord.py:26-27), which makes `pivot_coords` raise KeyError at the plane lookup once that stage's control is registered, and the model has no such stage.
- PivotCoord.PivotCoordObj.Activate: `reset_last_position` reads the position only once the printer is ready; the model always reads it. The displaced transform's position must cover every registered stage's axis (`CoversStages`); Python would raise IndexError otherwise.
- PivotCoord: `cos`, `sin` and `sqrt` are function parameters. The properties that need trigonometric identities assume them through the `TrigLaws` precondition. The G-code and printer-object lookups are left out; the toolhead and G-code move objects are small stand-in classes.
- ManualStepper: `force_move.calc_move_time` is a function parameter. The methods assume only that its phase times are non-negative for a positive speed and a non-negative acceleration (`NonNegativeTimes`); a negative speed may give negative times, which `DoMove` follows. That a segment ends at MOVE is proved for results that cover the distance (`MoveSegmentReachesTarget`).
- ManualStepper: the homing module, `idex_modes` and the chelper stepper FFI are left out. A homing move is recorded as a request value, and the trapezoid queue is a list of appended segments.
- ManualStepper: the axis-letter check uses ASCII `A`..`Z` for Python's `isupper`; other upper-case Unicode letters are not modelled.
- Hx71xMcu: GPIO timing, IRQ handling and the bulk-sensor transport are left out. The bits read from the chip are an input sequence, and a report logs the buffered bytes and empties the buffer.
- Hx71xHost.Hx71xBase.ConvertSamples: does not model `round(ptime, 6)`; the print time is kept as computed.
- Hx71xHost.Hx71xBase.ProcessBatch: stopping and restarting measurements (`_finish_measurements`, `_start_measurements`) is reported as a `restart` flag, not performed.
- ProbeEddyCurrent: the regression and tap-threshold estimation, homing and trsync, reactor pauses, calibration moves and LDC1612 I/O are left out.
- ProbeEddyCurrent.EddyCalibration.ApplyCalibration: does not model `round(zpos, 6)`; the interpolated height is kept as computed.
- ProbeEddyCurrent.EddyGatherSamples: `_await_samples` waits on the reactor and is not modelled. The samples it would wait for are given to the methods directly.
- ProbeEddyCurrent.EddyGatherSamples.CheckSamples: `_lookup_toolhead_pos` is a function parameter.
- ProbeEddyCurrent.EddyGatherSamples.PullProbed: when a later result fails, Python has already changed earlier positions in place; the model returns either the error or the whole new list, so this aliasing is not captured.
- SosFilterHost.NewDigitalFilter: the SciPy filter design is left out. The model is the empty filter that carries no sections.
- SosFilterHost.Configuration: returns the command list instead of sending it over the MCU connection.
- SensorDebug.ParseBuffer: Python's `int(value, 16)` also accepts a `0x` prefix, underscores, surrounding whitespace and a sign. The model accepts only hex digits and returns `None` otherwise.
- SensorDebug.SensorDebugger.CmdSensorDebug: the SPI/I2C transfer is left out; the bytes it would return are a parameter.
- GraphSteps.ParseLog: the model's `int(v)` accepts only an optional sign and ASCII decimal digits. Python's `int` also accepts `_` separators and non-ASCII decimal digits; for such tokens the model reports the ValueError where `parse_log` carries on.
- GraphSteps: file opening and plotting are left out. A log is a list of lines, each given as its list of tokens.
- PhaseGraph: the reading times and their interpolation in `get_phase_times`, the `readlog`/`analyzers` datasets and the plot parameters are left out. A graph is a list of dataset names.
- PhaseGraph.PhaseSets.ConvertToPhases: a missing dataset name, a `KeyError` in Python, is a precondition.
- SosFilterHost.AsFixed: uses the int32 bounds, not the as-written ones, so Q1 of 2.0 (and anything truncating to 2^31 or -2^31-1) is an overflow error in the model where the source passes it on; `AsFixedAsWritten` keeps the as-written conversion and `AsWrittenQ1FlipsTwo` shows the difference (see Findings). The conversions and the configuration built on `AsFixed` inherit the corrected bound.
- Where the documentation and the code differ, the model follows the code. The two exceptions are the bugs under Findings: the corrected comparison is used in `SosFilterMcu.SosFilter.SetActive`, and the corrected int32 bounds in `SosFilterHost.AsFixed`; the as-written versions are kept beside them.

## Findings

| source | as written | input that shows it | evidently intended | confidence | as-written member | corrected member |
|---|---|---|---|---|---|---|
| klippy/extras/sos_filter.py:7-12 | `MAX_INT32 = 2**31` and `MIN_INT32 = -(2**31)-1` bound the range check | the value 2^31 is accepted, although it does not fit in an int32 | accept exactly -2^31 .. 2^31-1 | not executed | SosFilterHost.AsWrittenAcceptsNonInt32 | SosFilterHost.AssertIsInt32 |
| src/sos_filter.c:145-146 | `set_active` shuts down when `num_sections >= max_sections` | 4 sections with `max_sections` = 4: the host accepts 4 sections and configures 4 | shut down only when `num_sections > max_sections` | not executed | SosFilterMcu.AsWrittenRejectsFullFilter | SosFilterMcu.ActiveAcceptedRange |

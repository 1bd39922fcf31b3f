# Verified model of the EtherCAT master's core

This project models, in Dafny, the parts of the master on which motion safety and
data integrity rest, and proves properties of them that hold for every input,
every run and every interleaving.

| files | part of the system |
|---|---|
| `Handoff`, `Ring`, `Seqlock` | the three lock-free exchanges between the RT loop and other threads, each as a state machine whose steps are the single atomic loads and stores (copying is several steps and can be seen torn), plus the same code as a class used by one thread |
| `DcLoop`, `DcProofs`, `DcAcquire`, `DcFrozen`, `DcGate`, `DcWindow` | the distributed-clock phase lock: unwrapping of the 32-bit time, reply-age gate, control law with anti-windup, lock supervision, and how it acquires |
| `Bus`, `RecoverHandover`, `Recovery` | the bus state machine, the request/answer protocol between RT loop and monitor around a full recovery, and the per-slave recovery planner |
| `Setpoints`, `Exchange` | tick-keyed setpoints and the output slot of the exchange hook |
| `Bits`, `Pdo`, `PdoTable` | bit-level access to the process image and the entry table that hands out bit ranges |
| `Axis`, `AxisHook` | the CiA 402 axis: commands, latches, controlword walk, cyclic setpoints, profile-position handshake and homing, as functions and as the code that updates the axis record in place (each method equals its function; the results are in the modules below) |
| `AxisRuns`, `AxisWatch`, `AxisSafety`, `AxisMotion`, `AxisPoints`, `AxisRing`, `AxisRecord` | runs of an axis, an observer that sees events, ring and targets only, and what holds in every run: enabling, steps, points, setpoints, the packed state record |
| `AxisPlant`, `AxisShutdown`, `AxisWait` | an axis with its drive, the shutdown walk-down and the wait around it |
| `JsonText`, `JsonRfc`, `JsonTree`, `JsonGrammar`, `JsonParser`, `JsonWalk` | the JSON tokenizer, the string escaper it must undo, and the grammar of RFC 8259 |
| `Arith`, `Wrappers` | facts on division and powers of two; an optional value |

How the pieces fit:

- Code that changes state in place is a class (`Dc`, `BusFsm`, `Planner`,
  `OutputSlot`, `EntryTable`, `CiaAxis`, `Parser`, `Writer`, `TwoSlot`,
  `SpscRing`, `Record`) whose methods have the branches and loops of the C code.
  Each method is proved equal to a step of a value-level specification, and the
  properties of whole runs are lemmas about sequences of such steps: an arbitrary
  sequence of events is the schedule, so there is no bound on its length.
- Concurrent code is a function from an arbitrary sequence of "this thread takes
  its next step" events to a state. A theorem over all such sequences is a
  theorem over all interleavings. Release/acquire pairs are modelled as
  sequentially consistent steps; the no-race theorems are what justifies that
  for the plain data.
- 32-bit counters, the sequence number and the ring counters wrap explicitly;
  division truncates toward zero as in C where C divides.

Findings:

- `ecm_json.h` calls the tokenizer strict. Within room and depth it refuses no JSON
  text, but it accepts more than RFC 8259 in two ways, both inside strings: the set
  of escape letters is searched as a C string, so a backslash before a NUL byte passes
  (`NulEscapeAccepted`), and bytes from 0x80 on need not be UTF-8
  (`BadByteAccepted`). `StrictIff` and, for whole texts, `DocumentIsGrammar` say
  that there is no third way.
- `ecm_dc.h` says that refusals which look like index reuse do not count toward
  the short resynchronisation limit. The code keeps one count for both kinds, so
  two old replies followed by one stray sample take that sample as a clock step
  (`MixedRunIsTaken`). `DecidesAsDescribedIff` says exactly when code and
  description decide alike.
- `ecm_dc.h` describes lock as a number of consecutive errors inside a window and
  unlock as one error beyond a limit. The code judges the truncated mean of each
  evaluation window (`WindowDecides`). The two decide alike over a run of errors if
  and only if no run of inside errors straddles two acquiring windows, no acquiring
  window with its mean inside has an error outside, and in a locked window every error
  beyond the limit is the last one and takes the mean there (`DecideAlikeIff`, with the
  windows as blocks of the error list and each starting as the means before it decide). They part on
  `StraddlingRunDoesNotLock`, `CancellingErrorsLock`, `OneErrorStaysLocked` and
  `CancellingErrorsStayLocked`.
- A re-anchor and an unlock keep the integrator, and while acquiring it is frozen.
  From zero the loop locks within 200 samples (`LockedWithin200`). With a share of
  o ns in the output it comes to rest up to 8|o| + 7 ns off the setpoint, so it locks
  from every phase if and only if that is inside the lock window, and otherwise there
  is a phase from which it never locks (`FrozenLocksIff`, with `FrozenInput` at 1 ms
  and o = 20000).
- The phase error is described as at most half a cycle; that holds if and only if
  the cycle is an even number of nanoseconds (`HalfCycleIff`).
- The seqlock is safe below 2^31 writes during one read and that bound is exact:
  with 2^31 a mixed record is accepted (`HalfWritesCanTear`).
- The handoff needs its second look at the other slot: without it the second item
  can be delivered before the first (`NoRecheckReorders`).
- A quick stop commanded after the shutdown request can keep an axis in Quick stop
  active for ever (`QuickStopHoldsUp`). `WalkDownIff` says exactly when: if the
  quick stop is still pending after a good reply the axis never comes down unless
  something ends it, otherwise it does. Quick stops commanded in other
  states do no harm (`WalkDownTerminates`), except before the first good reply, when
  the state last seen may be stale (`StaleQuickHoldsUp`). The wait ends in any case
  (`WaitEnds`).
- The step limit is meant to compare a CSP setpoint with the actual position until
  the axis is armed (comment at `ecm_cia402_axis.c:373`). The code compares it with
  the cyclic target sent last, and after a change from CSV to CSP that is a velocity
  (`SpeedTakenForPosition`). `FirstTargetIs` says what the first target after a mode
  change is in every run; it is bounded for every setpoint if and only if the axis does
  not run yet in that tick (with 0x6061 mapped: the drive does not show the new mode
  yet) or the target sent last was a position (`FirstTargetBoundedIff`).
- Unwrapping is exact if and only if reference and host time between accepted
  samples differ by more than -2^31 and at most 2^31 ns (`UnwrapExactIff`).

## Model

| member | source | states |
|---|---|---|
| `Handoff.DeliveredInOrder` | libecmaster/api/ecm_api.c:34-89 | in every interleaving of one producer and one consumer, the delivered items followed by the items in full slots are exactly the commits, whole and in commit order |
| `Handoff.NoSlotRace` | libecmaster/diag/ecm_diag.c:71-107 | in every interleaving no slot is open to writing by the producer while the consumer may read it |
| `Handoff.FailuresAreHonest` | libecmaster/api/ecm_api.c:34-78 | a put is dropped only if both slots were full at its first load, a get answers "empty" only if both were empty at its first load, and offers = commits + drops + abandoned + the one in progress |
| `Handoff.NoRecheckReorders` | libecmaster/api/ecm_api.c:78-84 | without the second look at the other slot, a concrete interleaving delivers the second commit before the first |
| `Handoff.TwoSlot.Put` | libecmaster/diag/ecm_diag.c:71-86 | used by one thread, a put appends to the queue of full slots exactly if fewer than two are full, and otherwise counts a drop |
| `Handoff.TwoSlot.Get` | libecmaster/diag/ecm_diag.c:88-107 | a get removes and returns the oldest item, and fails exactly when there is none |
| `Ring.EffectiveCap` | libecmaster/xchg/ecm_xchg.c:29-37 | a requested power of two up to 512 is kept and everything else settles on 512; the capacity always divides the 2^64 range of the counters |
| `Ring.DistanceIsOccupancy` | libecmaster/xchg/ecm_xchg.c:41-43 | the unsigned difference of the reduced counters is the true number of waiting elements, however often either counter has wrapped |
| `Ring.RingIsFifo` | libecmaster/xchg/ecm_xchg.c:39-62 | in every interleaving and across any number of counter wraps, what was popped is the first pushes in order and whole, and the rest sits intact in its slots within the capacity |
| `Ring.StepRefinesQueue` | libecmaster/policy/ecm_policy.c:120-138 | the publishing step of the producer appends the offered element, below capacity; the popping step of the consumer removes the front, which is what was peeked; every other step leaves the abstract queue as it is |
| `Ring.RefusalsAreHonest` | libecmaster/xchg/ecm_xchg.c:39-56 | a push is refused only when the queue was full at its tail load, a peek finds nothing only when it was empty at its head load, and no offer disappears |
| `Ring.NoSlotRace` | libecmaster/policy/ecm_policy.c:147-171 | the slot being written is never the slot being copied out |
| `Ring.SpscRing.Push` | libecmaster/xchg/ecm_xchg.c:39-47 | appends to the queue exactly if it is below capacity, otherwise counts a drop, with wrapping counters over an array |
| `Ring.SpscRing.Peek` | libecmaster/xchg/ecm_xchg.c:49-56 | returns the front of the queue, and fails exactly when it is empty |
| `Ring.SpscRing.Pop` | libecmaster/xchg/ecm_xchg.c:58-62 | removes the front of the queue |
| `Seqlock.AcceptedCopyIsOneRecord` | libecmaster/xchg/ecm_xchg.c:66-116 | with one writer and any number of readers, in every interleaving a copy accepted with fewer than `half` writes since its first load (2^31 for the 32-bit number) equals the one record that was current at that load |
| `Seqlock.HalfWritesCanTear` | libecmaster/xchg/ecm_xchg.c:96-116 | the bound is exact: for every `half`, with `half` writes during the read a mixed copy equal to no record is accepted |
| `Seqlock.Record.Write` | libecmaster/xchg/ecm_xchg.c:66-75 | stores the whole record word by word and advances the number by two modulo its range |
| `Seqlock.Record.Read` | libecmaster/xchg/ecm_xchg.c:96-116 | undisturbed, returns the stored record, and gives up exactly when the number is odd or there are no tries |
| `DcLoop.FloorDiv` | libecmaster/core/ecm_dc.c:10-14 | the correction of the truncating quotient is the floor quotient |
| `DcLoop.PosMod` | libecmaster/core/ecm_dc.c:16-20 | the correction of the truncating remainder is the non-negative remainder |
| `DcLoop.Dc.Anchor` | libecmaster/core/ecm_dc.c:49-63 | starts acquiring from the low 32 bits, with the SYNC0 event placed by the signed 32-bit difference; integrator kept |
| `DcLoop.Dc.CheckAge` | libecmaster/core/ecm_dc.c:92-122 | the reply-age gate with its two resynchronisation limits: counters, run length and refusal equal the specification of `Gated` |
| `DcLoop.Dc.Unwrap` | libecmaster/core/ecm_dc.c:68-80 | advances the extended time and wrap count as `Unwrapped` says, whose exactness is `DeltaExactIff` |
| `DcLoop.Dc.Error` | libecmaster/core/ecm_dc.c:126-131 | computes the phase error whose meaning is `PhaseErrorMeaning` |
| `DcLoop.Dc.Control` | libecmaster/core/ecm_dc.c:133-142 | PI law with clamp and anti-windup, equal to `Controlled` |
| `DcLoop.Dc.Supervise` | libecmaster/core/ecm_dc.c:144-154 | window mean, lock and unlock, equal to `Supervised` |
| `DcLoop.Dc.Update` | libecmaster/core/ecm_dc.c:82-157 | one sample through all stages equals one step of the runs the other theorems speak about, and returns the adjustment |
| `DcProofs.DeltaExactIff` | libecmaster/core/ecm_dc.c:68-74 | the elapsed reference time is found exactly if and only if it differs from elapsed host time by more than -2^31 and at most 2^31 ns, for gaps of any length |
| `DcProofs.UnwrapExactIff` | libecmaster/core/ecm_dc.c:65-80 | over every run the extended time is reference time up to the anchor constant after every prefix, if and only if every accepted sample met that bound |
| `DcProofs.WrapsAreCounted` | libecmaster/core/ecm_dc.c:74-77 | over every run the wrap counter is the number of multiples of 2^32 the extended time has crossed |
| `DcProofs.RefusalsAreFew` | libecmaster/core/ecm_dc.c:92-122 | from the anchor on, at any time of any run, at most two new samples in a row are refused for their age, 255 with the reuse window on, none with the gate off |
| `DcProofs.PhaseErrorMeaning` | libecmaster/core/ecm_dc.c:127-131 | the error is congruent to phase minus setpoint modulo the cycle and lies in a window of exactly one cycle around zero |
| `DcProofs.ErrorIsTruePhase` | libecmaster/core/ecm_dc.c:123-131 | after the anchor, in every such run the error of an accepted sample is the true phase of the frame against SYNC0 modulo the cycle, with no jump at a 2^32 wrap |
| `DcProofs.RunBounded` | libecmaster/core/ecm_dc.c:127-142 | for any samples whatever and across re-anchors, the integrator stays within ki*(max_adjust + E/kp + 1), E the largest error, and the adjustment within its clamp |
| `DcProofs.DeadlinesAdvance` | apps/ecm_run/ecm_run.c:4420-4422 | with the default configuration every deadline step is between 19/20 and 21/20 of a cycle |
| `DcGate.DecidesAsDescribedIff` | libecmaster/core/ecm_dc.c:100-121 | for every configuration and run of samples the gate decides as its description says if and only if no plain stray sample arrives with fewer than two plain but at least two refusals in the current run |
| `DcGate.MixedRunIsTaken` | libecmaster/core/ecm_dc.c:82-124 | right after an anchor, two samples 50 ns behind and one 20 ns ahead, with a gate of 10 and a reuse window of 100: the code refuses two and takes the third as a clock step, the description refuses all three |
| `DcWindow.WindowDecides` | libecmaster/core/ecm_dc.c:144-154 | over a whole window, the phase afterwards follows exactly from the truncated mean of its errors |
| `DcWindow.DecideAlikeIff` | libecmaster/core/ecm_dc.c:144-154 | for every configuration, either phase and every run of errors from the start of a window, code and description agree after every sample if and only if no index k of the error list parts them: in a window that starts locked, error k is beyond the unlock limit without being the last of its window and taking the mean there; in one that starts acquiring, it closes the window with a mean inside although not all errors are, or completes lock_samples inside errors that started in the acquiring window before |
| `DcWindow.WindowIsRemainder` | libecmaster/core/ecm_dc.c:144-154 | the evaluation windows are consecutive blocks of lock_samples errors, whatever the phase: before error k the code holds the sum since the last block ended and the phase that the means of the whole blocks decide |
| `DcWindow.OffsetIsRemainder` | libecmaster/core/ecm_dc.c:146-153 | error k stands at place k modulo lock_samples of its window |
| `DcWindow.MeanBelowIff` | libecmaster/core/ecm_dc.c:147-149 | the truncated mean of a window is below a bound if and only if the magnitude of its sum is below lock_samples times the bound |
| `DcWindow.AllInsideLocks` | libecmaster/core/ecm_dc.c:144-154 | errors that are all inside lock if they fill one evaluation window |
| `DcWindow.StraddlingRunDoesNotLock` | libecmaster/core/ecm_dc.c:146-149 | a run of inside errors over two windows locks as described and not in the code |
| `DcWindow.CancellingErrorsLock` | libecmaster/core/ecm_dc.c:147-149 | for every window of at least two samples there are errors, every one outside, on which the code locks |
| `DcWindow.CancellingErrorsStayLocked` | libecmaster/core/ecm_dc.c:147-151 | and errors, every one beyond the unlock limit, on which it stays locked although the first unlocks as described |
| `DcWindow.OneErrorStaysLocked` | libecmaster/core/ecm_dc.c:146-151 | an error beyond the limit that does not close its window unlocks as described and not in the code |
| `DcWindow.HalfCycleIff` | libecmaster/core/ecm_dc.c:127-131 | the error is at most half a cycle for every phase if and only if the cycle is even |
| `DcAcquire.AnswerClosesIn` | libecmaster/core/ecm_dc.c:137-142 | with a constant integral share the clamped answer closes in on the point where both shares cancel, by at least the clamped eighth, and never crosses it |
| `DcAcquire.CycledTracks` | libecmaster/core/ecm_dc.c:126-157 | one acquire cycle with the reference at host rate and no integral share keeps the sign of the error and shrinks its magnitude by exactly the clamped eighth, strictly from 8 ns on |
| `DcAcquire.SmallAfter98` | libecmaster/core/ecm_dc.c:24-39 | for every cycle from 800 ns and every starting error, 98 such steps end inside the lock window |
| `DcAcquire.LockedWithin200` | libecmaster/core/ecm_dc.c:82-157 | from any initial phase, with the default configuration and the reference at host rate, the loop is LOCKED by sample 200 |
| `DcFrozen.FrozenLocksIff` | libecmaster/core/ecm_dc.c:133-157 | acquiring with any integrator whose point of rest lies within half a cycle, the loop is LOCKED by sample 400 from every phase if and only if the farthest error it can rest at is inside the lock window; otherwise there is a sample after which it never locks |
| `DcFrozen.FrozenInput` | libecmaster/core/ecm_dc.c:133-157 | 1 ms, integrator 256 * 20000, error -160000: no adjustment and never LOCKED |
| `Bus.RunCounterExact` | libecmaster/policy/ecm_policy.c:61-82 | in every run the counter is exactly the length of the trailing run of cycles without a motion frame, and below the limit while cyclic |
| `Bus.RunMeansHealthy` | libecmaster/policy/ecm_policy.c:61-82 | in every run, while cyclic the state is RUN and not DEGRADED if and only if the last motion cycle and the last IO result since the bus came up were good |
| `Bus.LostExactly` | libecmaster/policy/ecm_policy.c:61-82 | from a cyclic state the next input leads to LOST if and only if it completes n_lost consecutive cycles without a motion frame |
| `Bus.RunOnlyAfterRecovery` | libecmaster/policy/ecm_policy.c:84-105 | from LOST every run back to a cyclic state passes a recovery that succeeded, reported while in RECOVER |
| `Bus.BusFsm.Cycle` | libecmaster/policy/ecm_policy.c:61-82 | one cycle equals a step of those runs; it reports a change exactly if the state changed |
| `Bus.BusFsm.Probe` | libecmaster/policy/ecm_policy.c:89-95 | one probe result equals a step of those runs |
| `Bus.BusFsm.RecoverDone` | libecmaster/policy/ecm_policy.c:97-105 | one recovery answer equals a step of those runs |
| `RecoverHandover.BusHasOneOwner` | apps/ecm_run/ecm_run.c:4345-4371 | in no interleaving does the RT loop use the bus while the monitor is inside its full recovery |
| `RecoverHandover.AnswersMatchEntries` | apps/ecm_run/ecm_run.c:2906-2917 | each entry into RECOVER has at most one answer, at most one entry is open, and the j-th exit uses the result of the j-th recovery, although both generation counters wrap |
| `RecoverHandover.DisabledNeverSucceeds` | apps/ecm_run/ecm_run.c:2911-2913 | with recovery disabled the monitor never enters the full recovery and every answer is negative |
| `RecoverHandover.AnswerArrives` | apps/ecm_run/ecm_run.c:2906-2917 | at any point of any run, six further monitor steps interleaved with the RT loop in any way answer the open request |
| `Recovery.AttemptsAreBounded` | libecmaster/policy/ecm_policy.c:254-313 | over every sequence of reads and operator resets, ACK + RECONFIG actions never exceed max_attempts * (recoveries + resets + 1) |
| `Recovery.AttemptsAreBackedOff` | libecmaster/policy/ecm_policy.c:294-309 | in every run consecutive attempts of one unhealthy episode are at least backoff0 * 2^(j-1) apart, j the number of the earlier one, exponent capped at 20 |
| `Recovery.NoActionAfterRefusal` | libecmaster/policy/ecm_policy.c:282-290 | after a configuration-class AL error no action is issued until a healthy read or an operator reset |
| `Recovery.Planner.Decide` | libecmaster/policy/ecm_policy.c:254-313 | one decision equals a step of those runs for that slave and leaves the others alone; an index out of range changes nothing; recovery and giving up are reported exactly when they happen |
| `Recovery.Planner.OperatorReset` | libecmaster/policy/ecm_policy.c:232-241 | clears one slave's failure state and leaves the others alone |
| `Setpoints.DrainTakesPrefix` | libecmaster/xchg/ecm_xchg.c:173-191 | one drain takes a prefix of the ring, skips at most its budget, and the entry it uses is the last one taken and keyed to the next frame |
| `Setpoints.DrainSkipsOnlyUnusable` | libecm_cia402/ecm_cia402_axis.c:350-369 | everything skipped could not go out in the next frame, and unless the budget is spent nothing for that frame or before is left |
| `Exchange.NeverReplayed` | libecmaster/xchg/ecm_xchg.c:166-196 | in every run of pushes and hooks, with the outputs usable or not in any pattern, a setpoint is used, with its own value, only by the hook of the tick before its key and at most once; pushed = used + late + dropped + queued |
| `AxisRing.AxisNeverReplays` | libecm_cia402/ecm_cia402_axis.c:350-369 | in every run of an axis, through disables and bus losses, the value a tick takes is that of a setpoint pushed for the next tick, no setpoint is taken twice, and pushes = used + late + dropped + queued in the counters the axis publishes |
| `Exchange.HookIsBounded` | libecmaster/xchg/ecm_xchg.c:173-191 | one hook drops at most sixteen entries and uses at most one, none without a bus |
| `Exchange.OutputSlot.Hook` | libecmaster/xchg/ecm_xchg.c:166-196 | the loop over the ring equals one drain; counters, hold-last-value and the value written follow from it |
| `Pdo.Get` | libecmaster/pdo/ecm_pdo.c:120-134 | for any bit offset and up to 64 bits the result has exactly the addressed bits of the image |
| `Pdo.Set` | libecmaster/pdo/ecm_pdo.c:136-149 | the addressed bits of the image become the low bits of the value and every other bit is unchanged |
| `Pdo.GetAfterSet` | libecmaster/pdo/ecm_pdo.c:120-149 | a get after a set returns the value modulo 2^bits |
| `Pdo.SetKeepsOthers` | libecmaster/pdo/ecm_pdo.c:136-149 | a set leaves what any disjoint range reads unchanged |
| `PdoTable.BuildTiles` | libecmaster/pdo/ecm_pdo.c:29-45 | after any sequence of adds the entries of each slave and direction tile their range: in order, no overlap, no gap |
| `PdoTable.HandlesDisjoint` | libecmaster/pdo/ecm_pdo.c:86-105 | for located slaves whose non-empty regions are disjoint, handles of different entries of a group name disjoint bits |
| `PdoTable.SetNeverDisturbs` | libecmaster/pdo/ecm_pdo.c:86-149 | a set through one entry's handle never changes a get through another's |
| `PdoTable.EntryTable.Add` | libecmaster/pdo/ecm_pdo.c:29-45 | accepts exactly well-formed entries while there is room and appends them at the end of their range |
| `PdoTable.EntryTable.Bind` | libecmaster/pdo/ecm_pdo.c:86-118 | binds the first entry of the object; fails exactly for padding, an object not mapped, or one longer than 64 bits |
| `AxisSafety.TargetIsLeave` | libecm_cia402/ecm_cia402_axis.c:174-341 | over every run of commands, frames, losses, errors and setpoints the axis wants to be enabled exactly while an observer of the events says it has leave; never after shutdown |
| `AxisSafety.LeaveNeedsEnable` | libecm_cia402/ecm_cia402_axis.c:174-448 | leave stands if and only if some ENABLE was accepted and no cause has come since: shutdown, DISABLE, quick stop, fault reset or refused ENABLE; lost bus, monitor error, drive fault, departure from Operation enabled, a drive state unchanged for longer than the step timeout, a setpoint too far from the last target, a point unanswered for longer than the timeout |
| `AxisSafety.NeverEnabledByItself` | libecm_cia402/ecm_cia402_axis.c:242-469 | in every run a frame carries Enable operation if and only if the bus is up, leave stands, no reset pulse is in progress, and the drive was last seen in Operation enabled or in Switched on with the mode asked for |
| `AxisSafety.TickEnableBit` | libecm_cia402/ecm_cia402_axis.c:301-341 | the same for one tick from any axis state |
| `AxisSafety.BitFourIsTheOffer` | libecm_cia402/ecm_cia402_axis.c:420-448 | in PP a frame carries bit 4 if and only if the observer has a point on offer to a running axis and no reset pulse takes the controlword |
| `AxisMotion.StepsAreBounded` | libecm_cia402/ecm_cia402_axis.c:345-404 | in every run a CSP target written is the actual position, the cyclic target sent last, or the setpoint of the next frame at most the limit away from that; the target sent last is a position, and successive targets differ by at most the limit or the later is the actual position, except for the first target after a mode change; outside Operation enabled it always is the actual position |
| `AxisMotion.FirstTargetIs` | libecm_cia402/ecm_cia402_axis.c:204-213 | in every run the first CSP target after a mode change, or ever, is the setpoint of the next frame exactly if the axis runs and it is within the limit of the cyclic target sent last, position or velocity; else the actual position |
| `AxisMotion.FirstTargetBoundedIff` | libecm_cia402/ecm_cia402_axis.c:371-387 | that target is, for every setpoint, the actual position or near a position sent last if and only if the axis does not run in that tick or the target sent last was a position |
| `AxisMotion.SpeedTakenForPosition` | libecm_cia402/ecm_cia402_axis.c:373-375 | a run from start-up without 0x6061 mapped: velocity 50 in CSV, then CSP with limit 100 and setpoint 60: 60 is written as target position, wherever the axis is |
| `AxisRuns.LastCyclicIsSent` | libecm_cia402/ecm_cia402_axis.c:402-410 | in every run the value new setpoints are compared with is the cyclic target last on the wire, 0 before the first |
| `AxisPoints.PointsConservedInOrder` | libecm_cia402/ecm_cia402_axis.c:215-224 | in every run applied points = acknowledged + lost + waiting + on offer, and points start in the order they were accepted |
| `AxisPoints.HandshakeOnTheWire` | libecm_cia402/ecm_cia402_axis.c:411-448 | in every run two successive frames with bit 4 up carry the same point and target, and a new point starts only after a frame with bit 4 low |
| `AxisShutdown.WalkDownIff` | libecm_cia402/ecm_cia402_axis.c:137-152 | at any time of any run, with setpoints, commands, lost frames, outages and faults, after shutdown and whatever followed, take a good reply: if no quick stop is pending after it, six cycles whose frames arrive both ways and no further quick stop leave drive and axis down; if one is, the axis is never down while nothing ends the quick stop |
| `AxisShutdown.TargetIsPending` | libecm_cia402/ecm_cia402_axis.c:196-203 | a quick stop is pending exactly if one was commanded since shutdown and since then came no DISABLE, FAULT_RESET, outage or monitor error and every state seen was Operation enabled or Quick stop active |
| `AxisShutdown.WalkDownTerminates` | libecm_cia402/ecm_cia402_axis.c:302-330 | after shutdown and a first good reply, with every quick stop commanded in a state it does not apply to, the axis is never wanted enabled and comes down within six good cycles of a further good reply |
| `AxisShutdown.WorkRunsOut` | libecm_cia402/ecm_cia402_axis.c:321-328 | on the way down, through commands, setpoints, faults and lost frames, the remaining work falls with every cycle whose frames arrive |
| `AxisShutdown.HeldForEver` | libecm_cia402/ecm_cia402_axis.c:317-320 | a quick stop in force in Operation enabled or Quick stop active stays in force through any cycles, setpoints and commands but DISABLE and FAULT_RESET, without faults and monitor errors |
| `AxisShutdown.QuickStopHoldsUp` | libecm_cia402/ecm_cia402_axis.c:317-320 | a run from start-up: shutdown, a quick stop while Operation enabled is seen, and for every number of good cycles after it the axis is not down |
| `AxisShutdown.StaleQuickHoldsUp` | libecm_cia402/ecm_cia402_axis.c:317-320 | the same with the quick stop commanded before the first good reply, while the state last seen is still unknown |
| `AxisWait.WaitEnds` | apps/ecm_run/ecm_run.c:352-369 | whatever the drives do, the wait ends within max_ticks and reports success exactly if the axes were down at some test in that time |
| `AxisWait.ObeyingDrivesEndTheWait` | apps/ecm_run/ecm_run.c:352-369 | with any number of axes, each shut down at any time of any run, drives that obey, frames that arrive, and setpoints and commands other than a quick stop at any time, the wait succeeds if it may last seven ticks |
| `AxisHook.CiaAxis.ApplyCommand` | libecm_cia402/ecm_cia402_axis.c:174-240 | one command equals a step of those runs |
| `AxisHook.CiaAxis.TakeSetpoint` | libecm_cia402/ecm_cia402_axis.c:350-369 | the loop over the axis's setpoint ring equals one drain with its counters |
| `AxisHook.CiaAxis.Rt` | libecm_cia402/ecm_cia402_axis.c:242-469 | one tick of the hook equals a step of those runs: new axis state, ring and output image |
| `AxisRecord.ExtractsBack` | libecm_cia402/ecm_cia402_axis.c:471-485 | in any layout of disjoint fields that fit, every packed field is extracted as it was |
| `AxisRecord.ReadsBack` | libecm_cia402/ecm_cia402_axis.c:534-550 | decoding the published words gives the axis state they came from, 32-bit counters modulo 2^32 |
| `AxisRecord.RunInRange` | libecm_cia402/ecm_cia402_axis.c:242-485 | every axis state reachable with wire-sized inputs fits its fields, among them at most 16 points and the bounds on both phases |
| `AxisRecord.ReaderSeesOneTick` | libecm_cia402/ecm_cia402_axis.c:471-550 | for every run of an axis with wire-sized inputs and every schedule in which the hook publishes its ticks, a reader that accepts a copy, with fewer than 2^31 writes meanwhile, decodes exactly the axis state of the last tick published when it began |
| `JsonText.StringRoundTrip` | libecmaster/api/ecm_json.c:37-61 | wherever the literal of a NUL-free byte string stands, the scanner accepts it, stops at its closing quote, and unescaping gives the bytes back |
| `JsonText.Writer.Str` | libecmaster/api/ecm_api.c:200-209 | the buffer gets exactly the literal, and overflow is flagged exactly when it does not fit with its terminator |
| `JsonText.StringValue` | libecmaster/api/ecm_json.c:187-216 | a string token is unescaped completely exactly if the result fits the buffer with its terminator |
| `JsonText.ScannedIsWhole` | libecmaster/api/ecm_json.c:43-59 | whatever the scanner accepts as a string can be unescaped element by element |
| `JsonRfc.StrictIff` | libecmaster/api/ecm_json.c:43-59 | contents up to a quote are an RFC 8259 string, over well-formed UTF-8, if and only if the scanner accepts them up to that quote, no backslash stands before a NUL, and the bytes are well-formed UTF-8 |
| `JsonRfc.NulEscapeAccepted` | libecmaster/api/ecm_json.c:54-56 | a string with a backslash before a NUL is accepted and is not RFC 8259 |
| `JsonRfc.BadByteAccepted` | libecmaster/api/ecm_json.c:44-47 | the string byte 0xFF is accepted and is not RFC 8259 |
| `JsonRfc.NumbersAreRfc` | libecmaster/api/ecm_json.c:63-87 | what is taken as a number is a number of RFC 8259 section 6 |
| `JsonRfc.RfcNumbersAreTaken` | libecmaster/api/ecm_json.c:63-87 | every such number is taken whole when the next character cannot belong to it |
| `JsonGrammar.DescentIsGrammar` | libecmaster/api/ecm_json.c:100-143 | where what follows cannot be part of a number, the descent finds a value with a given tree and clean strings if and only if RFC 8259, with its own strings and numbers, derives that tree there; the derivation is unique |
| `JsonGrammar.DocumentIsGrammar` | libecmaster/api/ecm_json.c:145-158 | a text is a JSON text of RFC 8259 with a given tree if and only if it is accepted with that tree and no string has a backslash before a NUL or bytes that are not UTF-8 |
| `JsonGrammar.ParsedWellFormed` | libecmaster/api/ecm_json.c:100-143 | trees of accepted values have nested and ordered spans, leaves without children, and objects of key-value pairs |
| `JsonGrammar.LiteralIsDocument` | libecmaster/api/ecm_api.c:200-209 | escaping a NUL-free string, tokenizing the text and unescaping its one token gives the string back |
| `JsonTree.SubtreeIsRun` | libecmaster/api/ecm_json.c:100-128 | preorder: the descendants of a token by parent links are exactly the run of tokens after it, as long as its subtree |
| `JsonTree.SizeIsChildCount` | libecmaster/api/ecm_json.c:114-121 | a token's size is exactly the number of tokens that name it as parent |
| `JsonTree.ParentsAreContainers` | libecmaster/api/ecm_json.c:25-31 | every token but the first has an earlier object or array as parent |
| `JsonTree.SpansNest` | libecmaster/api/ecm_json.c:100-128 | a descendant's span lies strictly inside, the span of every other later token strictly after |
| `JsonParser.Parse` | libecmaster/api/ecm_json.c:145-158 | accepts exactly the documents with at most max tokens and 16 levels, and then the array is their preorder tree; -1 only if there is no document, -2 and -3 only if there is none that fits |
| `JsonParser.Parser.Value` | libecmaster/api/ecm_json.c:130-143 | from any cursor position: either the cursor has passed the value and the array grew by its tree, or the refusal is honest |
| `JsonParser.Parser.Container` | libecmaster/api/ecm_json.c:100-108 | the same for an object or array, with the depth limit |
| `JsonParser.Parser.AllItems` | libecmaster/api/ecm_json.c:109-128 | the loop over the items grows the array by exactly their trees and counts them in the container's size |
| `JsonParser.Parser.String` | libecmaster/api/ecm_json.c:37-61 | the same for a string token |
| `JsonParser.Parser.Number` | libecmaster/api/ecm_json.c:63-87 | the same for a number token |
| `JsonParser.Parser.Literal` | libecmaster/api/ecm_json.c:89-98 | the same for true, false and null |
| `JsonParser.Parser.Tok` | libecmaster/api/ecm_json.c:25-31 | appends one token exactly if there is room, otherwise refuses and changes nothing |
| `JsonWalk.HoldsOne` | libecmaster/api/ecm_json.c:100-128 | the token array determines the tree |
| `JsonWalk.Skip` | libecmaster/api/ecm_json.c:160-170 | returns the first token outside the subtree: of all later tokens exactly those before the result are below i |
| `JsonWalk.Get` | libecmaster/api/ecm_json.c:172-185 | returns the value token of the first member whose key bytes match, and -1 exactly when the token is no object or no member matches |

## Left out

- SOEM calls, sockets, clocks, files, threads and start-up: frame results, times and thread switches are inputs of the model.
- The memory model below sequential consistency: each load or store is one step, and release/acquire is represented by the no-race theorems only.
- The mailbox job queue and the fence mutex around SDO traffic.
- Statusword decoding: the drive state arrives decoded together with the raw word.
- `ecm_cia402_rt` around the axes: the order of the axes in a tick and the limit of commands per tick; axes are modelled one by one, and together where the wait asks for all of them.
- The command loop and the state publication of `ecm_xchg_rt`; the seqlock behind the publication is modelled.
- The event records the bus state machine hands out with a transition, and its per-state tick counters.
- Homing: the phases are modelled as part of the tick, but not what "attained" means when frames are lost.
- JSON numbers as 64-bit integers or doubles, and the error offset the tokenizer reports.
- Test-only branches that switch single latches or memory orders off.
- The control socket, report formatting, ENI tooling, SHA-256, histograms and freshness counters.
- AxisMotion.StepsAreBounded: targets and limits are unbounded integers, so a 64-bit overflow of a setpoint difference is not modelled.
- AxisShutdown.WalkDownIff: the drive follows the CiA 402 transitions, and in a bus outage it stays or falls to a state that counts as down; after the good reply the bus stays up.
- AxisSafety.LeaveNeedsEnable: ticks are unbounded numbers; the unsigned wrap of a tick difference, when ticks run backwards, is not modelled.
- DcAcquire.LockedWithin200: the reference clock runs at host rate, the cycle is at least 800 ns and 21/20 of it below 2^32 ns.
- DcFrozen.FrozenLocksIff: the same clock and cycles; integral shares from a sixteenth of the cycle on, where the point of rest lies beyond half a cycle and the error keeps turning, are not covered.
- DcProofs.RunBounded: E is half a cycle rounded up, which for an even cycle is exactly half a cycle.
- Recovery.AttemptsAreBackedOff: time is an unbounded number, so the 64-bit sum of time and backoff does not wrap.
- Seqlock.AcceptedCopyIsOneRecord: the pause between tries is not modelled; each try is one reader.
- JsonParser.Parse: the token array is the sequence of tokens written so far; what a refused parse leaves in it is not stated.

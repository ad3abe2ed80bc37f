# TGPIO verification model

A Dafny model of the Time-Aware GPIO drivers: the Linux PTP driver (`src/tgpio-ptp-input.c`) and the
Windows driver (`windows/driver/hw.c`, `windows/driver/ioctl.c`). `dafny verify dfyconfig.toml` checks
all of it.

The output hardware is a toggle engine. On each edge it toggles a level flop nobody can read, and its
compare register COMPV advances by its interval register PIV. The driver keeps a software mirror of the
flop and updates it from how far COMPV has moved. Everything the driver says about polarity rests on
that mirror, so the centre of the model is a register block in which the hardware may fire any number
of edges before every single 32-bit access. How many try to is an input, the schedule, so every routine
is a function of it, and the conservation laws over whole runs hold for every schedule and say which of
its edges matter.

| file | what it models |
|---|---|
| `Arith.dfy` | machine integers, results, the integer facts the rest leans on |
| `Rescale.dfy` | counts rescaled between two rates in 64-bit arithmetic |
| `PhcClock.dfy`, `RoundTrip.dfy` | the anchored clock, its frequency correction and its inverse |
| `ClockRuns.dfy` | gettime, settime, adjtime, adjfine and the rate refinement over whole runs |
| `Quantization.dfy` | a half period realized in whole counter cycles |
| `StartTiming.dfy` | the first edge, the prime edge and the first wake |
| `ToggleEngine.dfy` | the hardware engine as a value, and free runs of it |
| `Interleaving.dfy` | schedules of edges against register accesses, the compare read and the invert window as functions of one |
| `Arming.dfy` | the first compare of a waveform from the tracked level and the counter |
| `TogglePort.dfy` | the register block, the mirror, and every routine that touches either |
| `WindowsDriver.dfy`, `WindowsRequests.dfy` | the Windows block, and runs of its serialized requests |
| `LinuxSpec.dfy` | what the Linux routines decide, and the edges they lose, as functions of what they find |
| `LinuxOutput.dfy`, `LinuxRuns.dfy` | the Linux worker's routines, and runs of the worker |
| `Nudge.dfy` | the phase readback and the decision taken from it |
| `Duty.dfy`, `DutyRuns.dfy`, `DutyTiming.dfy` | asymmetric waveforms, their per-edge service on the block, and services in time |
| `SoftwarePath.dfy` | one edge per worker wake |
| `Reconciler.dfy` | publishers, worker, timer and teardown as interleaved steps |
| `RateRing.dfy` | the realtime-rate ring |
| `Tdc.dfy` | start/stop pairing of captures |

## Vocabulary

- The mirror is *right* when the flop equals the mirror, adjusted by the parity of the edges generated
  since the checkpoint (`Port.Right`). It is *faithful* when the count the next fold would make has the
  parity of those edges (`Port.Faithful`). A Linux block is *settled* when its mirror is right as soon as
  the next fold finds what it expects (`LinuxBlock.Settled`).
- An edge *strays* when it fires where the driver cannot count it. Both inverts, the interval refresh and
  the nudge fold first and rewrite a register later without folding again; the edges in that *window*,
  after the fold's last low-word read and before the rewrite takes effect, stray (`InvertWindow`,
  `FreqStray`). Edges anywhere else in a call, as in the Linux invert's deliberate wait, do not.
  Arming and stopping clear EN before they fold, so no edge can stray there. A duty fold assumes at most
  one edge since the last visit and mistakes every further one.
- A schedule says how many edges try to fire before the k-th register access, and a world what the k-th
  consultation of the clocks and of the newest request shows. Both are fixed and unconstrained.
- `Engine.Fires` runs the engine freely; `Ran` relates two engines of one free run, and `Generated` says
  that all edges between them came from the first one's waveform.

## Where the code does less than its description

- `tgpio_rescale_common` is exact for every count only if the product of the rates fits 64 bits
  (`RescaleExactIff`).
- ART to nanoseconds to ART is the identity except for a slowed clock read exactly 2^63 - 1 base
  nanoseconds from its anchor, where the inverse reports a range error (`ArtRoundTrip`,
  `ExceptionExists`).
- A nudge is a fixed point unless it aims at counter value 1 or 2, where the delay is not subtracted. Then
  another correction follows exactly when the edge, read two cycles late, is live and has left the
  dead-band at a time it may be moved (`NudgeRepeatsIff`); an output shifted early by its offset on a
  counter that has just started is such a case (`NudgeRepeatsAtCounterStart`).
- When a software prime fails while the old waveform was a duty one, the block is disabled with COMPV
  already cleared and the fold runs again; it counts an edge that never fired unless the checkpoint was
  zero (`LinuxBlock.PrimeSoftware`, `FailPrime`).
- An asymmetric waveform is exact exactly if both halves share the high word of PIV (`ExactIff`).
- A work run records a newest request it does not leave armed exactly when it arms a duty output against a
  newer running request for a flip and then cannot arm its own snapshot (`UndoneIff`; an input is in
  `UndoArm`). The block is disabled, and no later work run arms it while requests keep that generation
  (`DisabledForGood`).
- One cancel round does not stop the timer (`OneRoundIsNotEnough`); the second one does.

## Model

| member | source | states |
|---|---|---|
| Rescale.RescaleIsExact | src/tgpio-ptp-input.c:982-1022 | while the product of the rates fits, the split wrapping computation returns the floored or half-up quotient of the unbounded product, and a range error exactly when that exceeds S64_MAX |
| Rescale.RescaleExactIff | src/tgpio-ptp-input.c:982-1011 | it does so for every count if and only if (src - 1) * dst is below 2^64 |
| Rescale.WrapShows | src/tgpio-ptp-input.c:995-1003 | otherwise src - 1 is a count whose result is visibly wrong |
| Rescale.RescaleMonotone | src/tgpio-ptp-input.c:982-1022 | more cycles never read as less time, and an error is never followed by a success |
| PhcClock.CyclesDeltaToNsExact | src/tgpio-ptp-input.c:1057-1073 | the signed conversion carries the sign over the exact quotient of the magnitude |
| PhcClock.NsDeltaToCyclesExact | src/tgpio-ptp-input.c:1075-1092 | the same for nanoseconds to cycles |
| PhcClock.ApplyPpbExact | src/tgpio-ptp-input.c:1104-1122 | inside the servo range the split correction never wraps and is the product over 1e9 truncated toward zero |
| PhcClock.BaseToAdjustedExact | src/tgpio-ptp-input.c:1124-1128 | the corrected interval is the reference magnitude with the sign of the input, or a range error |
| PhcClock.AdjustedToBaseExact | src/tgpio-ptp-input.c:1130-1155 | the inverse is the floored quotient by 1e9 + ppb with the sign of the input, or a range error exactly when it exceeds S64_MAX |
| PhcClock.BaseAfterAdjusted | src/tgpio-ptp-input.c:1104-1155 | base to adjusted to base differs by at most one nanosecond, and in a known direction |
| PhcClock.AdjustedAfterBase | src/tgpio-ptp-input.c:1104-1155 | adjusted to base to adjusted is the identity for ppb <= 0 and loses at most two nanoseconds for ppb > 0 |
| RoundTrip.BaseDeltaRoundTrip | src/tgpio-ptp-input.c:1104-1155 | the same for signed intervals with their range errors: at most one nanosecond |
| RoundTrip.AdjustedDeltaRoundTrip | src/tgpio-ptp-input.c:1104-1155 | the same the other way, and it always succeeds again |
| RoundTrip.CorrectionMonotone | src/tgpio-ptp-input.c:1104-1155 | both maps keep the order of signed intervals |
| RoundTrip.CorrectionOdd | src/tgpio-ptp-input.c:1104-1155 | both maps commute with negation, range errors included, but for a result of S64_MIN, which has no negation |
| PhcClock.ArtToNsExact | src/tgpio-ptp-input.c:1169-1196 | the clock reading is the anchor plus the exact elapsed reference, before and after the anchor, and a range error exactly when the cycles, the base interval, the elapsed time or the sum does not fit |
| PhcClock.NsToArtExact | src/tgpio-ptp-input.c:1198-1231 | the inverse is the anchor plus the nearest whole cycle, with its range errors |
| PhcClock.AnchorReadsBack | src/tgpio-ptp-input.c:1158-1196 | an anchored clock reads its anchor time at its anchor |
| PhcClock.ArtToNsMonotone | src/tgpio-ptp-input.c:1169-1196 | later counter values never read earlier times |
| RoundTrip.ArtRoundTrip | src/tgpio-ptp-input.c:1169-1231 | up to 250 MHz any in-range counter value converts to nanoseconds and back to itself, or to a range error exactly when its base interval read back exceeds S64_MAX |
| RoundTrip.ExceptionOnlyAtTheEnd | src/tgpio-ptp-input.c:1130-1155 | that needs a slowed clock exactly 2^63 - 1 base nanoseconds from its anchor |
| RoundTrip.ExceptionExists | src/tgpio-ptp-input.c:1130-1231 | a 38.4 MHz clock and a reading for which it happens |
| RoundTrip.NsRoundTrip | src/tgpio-ptp-input.c:1169-1231 | nanoseconds to ART and back move by less than (1e9 + ppb) / (2 hz) + 4 ns |
| ClockRuns.PhcDevice.Get | src/tgpio-ptp-input.c:4591-4611 | gettime reads the model at its sample and refuses a negative time |
| ClockRuns.PhcDevice.Set | src/tgpio-ptp-input.c:4613-4660 | settime re-anchors at the sample or leaves the clock alone, with its error cases |
| ClockRuns.PhcDevice.Adjust | src/tgpio-ptp-input.c:4662-4711 | adjtime re-anchors at the sample, shifted, or leaves the clock alone |
| ClockRuns.PhcDevice.AdjustFine | src/tgpio-ptp-input.c:4713-4760 | adjfine re-anchors at the sample with a new rate, or leaves the clock alone |
| ClockRuns.PhcDevice.ApplyRefinement | src/tgpio-ptp-input.c:2270-2307 | the refinement re-anchors with a new base rate, and does nothing if nothing changed |
| ClockRuns.RequestedPpbPinned | src/tgpio-ptp-input.c:4737-4739 | the rate a servo asks for is the requested fraction of 2^-16 ppm rounded toward zero to whole ppb, and the range check is on that |
| ClockRuns.TimespecExact | src/tgpio-ptp-input.c:4613-4636 | the time settime installs is sec * 1e9 + nsec, saturated in the last representable second |
| ClockRuns.AcceptedExactly | src/tgpio-ptp-input.c:4591-4760 | exactly when each callback is accepted, and the time it then reports or installs; a refused one leaves the clock alone |
| ClockRuns.ServoRateTakesHold | src/tgpio-ptp-input.c:4713-4760 | after an accepted adjfine a reading advances by cycles * (1e9 + requested ppb) / hz to within 3 ns |
| ClockRuns.ReanchorsExactly | src/tgpio-ptp-input.c:4662-4760 | every re-anchor is phase-continuous at its sample, and adjtime shifts the reading by exactly delta |
| ClockRuns.TimeNeverGoesBack | src/tgpio-ptp-input.c:4591-4760 | across any run of readings, servo updates, refinements and forward shifts the reported times never decrease |
| ClockRuns.RunAccuracy | src/tgpio-ptp-input.c:1169-1196 | after any run a reading differs by less than 3 ns per segment since the clock was set from the exact rational integral of the rates asked for plus the adjtime sum; that integral is computed from the accepted operations alone |
| Quantization.IntervalCyclesExact | src/tgpio-ptp-input.c:1250-1272 | a converted interval is the nearest whole number of cycles of its base length |
| Quantization.QuantizationBound | src/tgpio-ptp-input.c:1829-1868 | the realized half differs from the request by less than (1e9 + ppb) / (2 hz) + 3 ns, at ppb 0 by at most half a cycle and half a nanosecond; the reported period error is the realized period less the request |
| StartTiming.AlignmentIsEarliest | src/tgpio-ptp-input.c:3055-3085 | the aligned first edge is the least requested + k * period not before the limit, except exactly in the fallback |
| StartTiming.RearmsKeepTheGrid | src/tgpio-ptp-input.c:3055-3085 | however often one request is re-armed, first edges stay in one residue class modulo the period |
| StartTiming.WakesPrecedeTheEdge | src/tgpio-ptp-input.c:3087-3146 | now, prime, timer start and first edge are a lead apart in this order; the real wake is not after the timer start and less than one real nanosecond before it |
| StartTiming.FirstEdgeIsRequested | src/tgpio-ptp-input.c:3087-3146 | with room for three leads from now the first edge is the earliest point of the request's own grid, or the earliest time at all outside it; prime and wake are two leads and one before, the lead being 20 ms in hardware and otherwise a quarter of the smaller half within 1 ns and 20 ms |
| ToggleEngine.Engine.FiresShape | src/tgpio-ptp-input.c:1357-1363 | after n edges COMPV has advanced by n * PIV and the flop toggled n times |
| ToggleEngine.Engine.FiresOnGrid | src/tgpio-ptp-input.c:3227-3284 | a symmetric waveform stays on the grid of its rises however many edges it generates |
| ToggleEngine.RisesStayOnGrid | windows/driver/hw.c:220-258 | every rise a symmetric waveform generates between re-programmings is on its grid |
| ToggleEngine.ShiftByHalf | src/tgpio-ptp-input.c:3883-3884 | moving the pending compare by one half moves every later rise to the other slot |
| Interleaving.ReadRuns | src/tgpio-ptp-input.c:1364-1377 | for every schedule the word-read retry loop ends, and what it saw lies on the same free run, before where it ended |
| Interleaving.WindowIsForward | windows/driver/hw.c:284-298 | the window of an invert is never negative, and empty for a stopped block |
| Interleaving.QuietInvert | windows/driver/hw.c:284-298 | with an empty window and no overflow an invert is a free run whose pending compare moves by exactly one interval |
| Interleaving.QuietInvertShifts | windows/driver/hw.c:284-298 | that is so whenever the edge counts at the fold's last low-word read and at the pause are equal and one more interval fits the counter |
| Arming.ArmedOnGrid | src/tgpio-ptp-input.c:3227-3264 | for either tracked level, both slots and any push the first rise is congruent to the request modulo high + low, the first toggle is not before the deadline, and a pushed one at most a period after it |
| Arming.PushFailsExactly | src/tgpio-ptp-input.c:3248-3257 | the push fails exactly when the first slot past the deadline does not fit the counter |
| Arming.StartFollowsMirror | src/tgpio-ptp-input.c:3221-3264 | right after arming rises are on the requested grid if the tracked level was right and half a period off if not |
| TogglePort.Port.constructor | src/tgpio-ptp-input.c:3812-3818 | from power-on the mirror is right exactly if the flop is low |
| TogglePort.Port.WriteCompv | src/tgpio-ptp-input.c:1344-1349 | two stores replace the compare of a block that cannot reload and nothing else |
| TogglePort.Port.WritePiv | src/tgpio-ptp-input.c:1351-1356 | two stores on a running block change the interval atomically when the high word is unchanged |
| TogglePort.Port.ReadCompv | src/tgpio-ptp-input.c:1364-1377 | whatever edges fire between the word reads, the retry loop ends and returns the 64-bit value COMPV held at the last low-word read |
| TogglePort.WordReads | windows/driver/hw.c:65-78 | equal high words around a low word pin all 64 bits, and otherwise the high word has strictly grown |
| TogglePort.Port.Fold | src/tgpio-ptp-input.c:1412-1422 | a fold keeps the mirror right, or wrong, exactly if the count is faithful, leaves it faithful, and touches no hardware |
| TogglePort.Port.FoldSingle | src/tgpio-ptp-input.c:1396-1407 | the duty fold keeps it exactly if COMPV did not move or an odd number of edges had fired |
| TogglePort.Port.NextFoldIsTrue | src/tgpio-ptp-input.c:1412-1422 | rightness means the flop: the next fold arrives at the true level exactly if the mirror is right and its count faithful, or neither |
| TogglePort.Port.InvertPending | windows/driver/hw.c:284-298 | fold and shift: for every schedule the block afterwards, and the edges lost, which are those of the window alone |
| TogglePort.Port.RefreshInterval | src/tgpio-ptp-input.c:3764-3770 | the hot interval refresh leaves level and compare alone; edges since the checkpoint stay at the old interval |
| TogglePort.Port.WriteCompvPaused | src/tgpio-ptp-input.c:3723-3733 | the paused rewrite moves only the pending compare; the mirror turns wrong exactly if an odd number of edges fired since the checkpoint |
| TogglePort.Port.ShiftPending | windows/driver/hw.c:293-297 | the pending compare moves one interval on, unless that overflows, with the same exact effect on the mirror |
| TogglePort.Port.Arm | src/tgpio-ptp-input.c:3266-3285 | mode, interval, compare and bookkeeping are in place before EN, so no edge fires early |
| TogglePort.Port.FreeRunKeepsMirror | src/tgpio-ptp-input.c:1379-1387 | hardware edges alone never change whether the mirror is right |
| WindowsDriver.WindowsBlock.HwStartOutput | windows/driver/hw.c:175-260 | every status, the exact registers and bookkeeping of a started block, all edges of the call from the old waveform, and the mirror kept; whatever the level, the first rise is on the grid of the requested edge, or of now plus the start delay, less two cycles, and no toggle is due before now plus the margin |
| WindowsDriver.StartIsRequested | windows/driver/hw.c:196-245 | the slot and the push keep that grid and that margin for any request |
| WindowsDriver.WindowsBlock.HwStopOutput | windows/driver/hw.c:262-277 | the block is stopped and cleared with no premise about edges, and a right mirror then equals the flop |
| WindowsDriver.WindowsBlock.HwInvertOutput | windows/driver/hw.c:284-298 | for every schedule the mirror flips between right and wrong exactly if an even number of edges fired between the fold's last low-word read and the pause; the engine afterwards is the schedule's, shifted by one interval |
| WindowsDriver.WindowsBlock.HwSetInput | windows/driver/hw.c:136-151 | switching to input stops the waveform and keeps the mirror |
| WindowsDriver.WindowsBlock.HwGetBlock | windows/driver/ioctl.c:219-252 | reporting folds on demand, keeps the mirror and leaves the waveform running |
| WindowsRequests.RequestQueue.ServeStart | windows/driver/ioctl.c:147-178 | exactly when each status is returned; a successful start puts its first rise on the grid of the requested edge and not before now plus the margin, and makes that edge and half the target, so rises are on it, or half a period off if the mirror is wrong |
| WindowsRequests.RequestQueue.ServeInvert | windows/driver/ioctl.c:200-217 | the invert's exact effect for every schedule; the target stays sure unless an edge fell into the window or the shift ran off the counter |
| WindowsRequests.RequestQueue.ServeInput | windows/driver/ioctl.c:64-102 | switching to input stops an output first and changes nothing about the mirror |
| WindowsRequests.RequestQueue.Handle | windows/driver/ioctl.c:254-297 | every request does what its specification says for every schedule, and each edge generated during it keeps the promise in force when it began |
| WindowsRequests.RequestQueue.Serve | windows/driver/ioctl.c:254-297 | a run of requests is a chain of such answers from the block found to the block left, with a status each, and the ledger has one kept promise for every edge |
| WindowsRequests.RightnessOverRuns | windows/driver/hw.c:284-298 | over any run and schedule the mirror's rightness changes with the parity of inverts plus edges inside their windows, and with nothing else |
| WindowsRequests.QuietInvertsFlip | windows/driver/hw.c:279-283 | with no edge in any window, whatever fires elsewhere, every invert flips it: one repairs a wrong mirror for good |
| WindowsRequests.TargetIsLastStart | windows/driver/hw.c:175-260 | while inverts are clean the grid promised at any time is the requested edge and half of the last successful start |
| WindowsRequests.EveryEdgeIsPromised | windows/driver/hw.c:220-258 | in a run without inverts from a right mirror every edge fired is promised the grid of the last successful start before its request, so every rise is on it |
| WindowsRequests.KeptByWaveform | windows/driver/hw.c:175-260 | the edges of a free run keep the promise in force, whatever their number |
| LinuxSpec.PlanOnGrid | src/tgpio-ptp-input.c:3227-3264 | the armed plan puts the first rise on the requested grid for either level, not before the deadline, and the pending edge consumes the half that follows it |
| LinuxSpec.PlanFollowsRequest | src/tgpio-ptp-input.c:3194-3264 | an accepted plan consumes the nearest whole number of cycles of the half that follows its pending edge, and its first rise is on the grid both halves make from the compare of the primed edge |
| LinuxSpec.PlanIsNotLate | src/tgpio-ptp-input.c:3235-3257 | no toggle is due before the counter read at arming plus two milliseconds, if that can be computed and fits |
| LinuxSpec.PlanWaveform | src/tgpio-ptp-input.c:3227-3284 | the engine a symmetric plan programs follows the requested grid, or its other slot if the tracked level was wrong |
| LinuxSpec.PlanRises | src/tgpio-ptp-input.c:3227-3284 | from a right mirror every rise an armed symmetric output ever generates has a compare congruent to the requested one modulo high + low |
| LinuxSpec.WindowParity | src/tgpio-ptp-input.c:3753-3770 | after a refresh with n edges in the window the next fold is faithful exactly if floor(n * old / new) - n is even |
| LinuxSpec.ArmedWhereRequested | src/tgpio-ptp-input.c:3689-3711 | an armed output takes its first edge from the request by the clock of its sample, and primes and wakes two leads and one before |
| LinuxSpec.FollowsTheRate | src/tgpio-ptp-input.c:3758-3771 | a refreshed interval is the nearest whole number of cycles of the half at the new rate, if the high word is unchanged |
| LinuxSpec.FreqDecisionExact | src/tgpio-ptp-input.c:3772-3805 | the decision of a frequency update against the request itself: the pending edge is compared with the nearest point of the request's half-period grid, re-armed beyond a quarter half, left inside the dead-band or within 20 ms, otherwise moved onto that point; an unreadable phase is left alone |
| LinuxSpec.AwaitedEndsWell | src/tgpio-ptp-input.c:3868-3877 | an invert's wait ends with its last round finding the phase unreadable or at least 20 ms ahead of that round's clock, unless all rounds are used up |
| LinuxSpec.FlipWaits | src/tgpio-ptp-input.c:3868-3888 | a flip of a free-running output shifts it from where such a wait of up to fifty rounds ends |
| LinuxSpec.VisitAsksForTheEdge | src/tgpio-ptp-input.c:3930-3956 | the wake a duty visit asks for is ten milliseconds after the pending edge it read, by the clocks of its own sample, rounded down by less than one real nanosecond; an edge read late counts as pending now |
| LinuxOutput.LinuxBlock.Fold | src/tgpio-ptp-input.c:1388-1423 | by phase: a symmetric fold never strays, a duty fold strays by all edges but one |
| LinuxOutput.LinuxBlock.DisableOutputHw | src/tgpio-ptp-input.c:3148-3165 | the block is stopped and cleared and the mirror kept, with the exact exception of a duty fold |
| LinuxOutput.LinuxBlock.ProgramOutputEdge | src/tgpio-ptp-input.c:3018-3048 | compare and polarity of one software edge, or nothing at all if its time does not convert |
| LinuxOutput.LinuxBlock.PrimeSoftware | src/tgpio-ptp-input.c:3466-3473 | the falling prime, or a disabled block whose mirror flips exactly if the old phase was duty and the checkpoint not zero |
| LinuxOutput.LinuxBlock.ArmOutput | src/tgpio-ptp-input.c:3434-3487 | priming succeeds exactly if its edge converts, leaves the recorded waveform, and never strays from a symmetric one |
| LinuxOutput.LinuxBlock.ArmHardwarePeriodic | src/tgpio-ptp-input.c:3183-3295 | arming follows the plan exactly, or fails and leaves nothing running; no toggle is due before the counter just read plus two milliseconds; an asymmetric output asks for its first visit the service delay from now; the mirror is kept |
| LinuxOutput.LinuxBlock.ReconcileArm | src/tgpio-ptp-input.c:3689-3711 | the full cycle succeeds exactly if its timing can be computed and a software prime converts; then the output waits for a first rising edge where the request wants it, with its halves, mode, wake and generations, and a software prime is a falling edge two leads before; otherwise it disables the block and applies neither generation |
| LinuxOutput.LinuxBlock.RefreshPiv | src/tgpio-ptp-input.c:3758-3771 | the interval follows the rate only if the high word is unchanged, with the exact stray of the window |
| LinuxOutput.LinuxBlock.NudgePending | src/tgpio-ptp-input.c:3795-3800 | the pending compare becomes the converted slot; edges since the checkpoint are lost |
| LinuxOutput.LinuxBlock.ApplyFreq | src/tgpio-ptp-input.c:3744-3805 | for every schedule exactly the edges between the fold's last low-word read and the last register rewrite stray, by the refresh's miscount or, after a nudge, all of them; a block left running has the refreshed interval; by the phase read after the refresh it is left, its pending compare becomes the counter value of its slot, or it is armed as requested |
| LinuxOutput.LinuxBlock.Act | src/tgpio-ptp-input.c:3772-3805 | the decision is the one the live phase asks for; keep and nudge leave what they should, and a restart primes the block exactly if its arm succeeds at the next sample |
| LinuxOutput.LinuxBlock.DrainLow | src/tgpio-ptp-input.c:3819-3834 | the bounded drain folds only; a level still high afterwards was looked at thirty times more, and with a right mirror it is the level at the last look; it never strays for a symmetric output, and for a duty one by exactly what its folds mistake |
| LinuxOutput.LinuxBlock.StopWork | src/tgpio-ptp-input.c:3972-3978 | a stopped request leaves the block disabled; with a right mirror it was stopped from a moment whose last look showed the line low, unless it had been looked at thirty times more; exactly the edges its folds mistake stray |
| LinuxOutput.LinuxBlock.Invert | src/tgpio-ptp-input.c:3841-3888 | a flip exactly if an even number of edges strayed; of a symmetric engine those after the wait and the fold, never those of the wait, and the engine is shifted by one interval; a stopped one is untouched; a duty one is re-armed to the newest running request exactly if that arm succeeds at this sample |
| LinuxOutput.LinuxBlock.DutyService | src/tgpio-ptp-input.c:3899-3956 | for every schedule the level and the pending interval of a visit, and a next wake ten milliseconds after the pending edge it reads, or in 100 ms if a clock cannot be read; it gives up exactly if the pending edge it reads is in the last two counter values; with one edge and none during the visit exactly the pending interval changes and the mirror shows the level |
| LinuxOutput.LinuxBlock.SoftwareStep | src/tgpio-ptp-input.c:4040-4078 | one wake leaves the compare and the polarity of the edge that was due and advances the cadence, or disables the block |
| LinuxOutput.LinuxBlock.Progress | src/tgpio-ptp-input.c:3987-4040 | success, phase, generations and cadence of every path: a new generation arms as requested, exactly if its arm succeeds; a new frequency refreshes and acts on the phase, or leaves a primed output to its wake; everything else continues |
| LinuxOutput.LinuxBlock.Continue | src/tgpio-ptp-input.c:4016-4078 | success, phase and cadence for every phase: a primed block is armed by its plan or disabled, a duty block is serviced unless at the end of the counter, a software block is left with the compare and polarity of the edge that was due, a free-running one is left alone |
| LinuxOutput.LinuxBlock.OutputWork | src/tgpio-ptp-input.c:3959-4078 | one work run, for every schedule and world: its success, phase, EN, generations, cadence and strays are functions of what it found; rightness changes with the parity of applied flips and strays; an output armed for the snapshot is armed as it asks, a frequency update acts on the phase read or waits for the wake, a software wake programs the edge that was due, a stop first waits for a high line; an invert alone leaves the free run, shifted; a run with nothing to do touches nothing |
| LinuxSpec.OutcomeReconciles | src/tgpio-ptp-input.c:3959-4002 | every outcome reconciles the generations as the worker protocol assumes, all of them if nothing failed |
| LinuxSpec.UndoneIff | src/tgpio-ptp-input.c:3851-3863 | a work run records a newest generation other than its snapshot's exactly if a duty output due for a flip is armed against it and the snapshot's arm then fails; the block is left with EN clear |
| LinuxSpec.DisabledStaysDisabled | src/tgpio-ptp-input.c:3987-4078 | a work run never sets EN of a disabled block while the request's generation counts as applied |
| LinuxSpec.QuietWindowsLoseNothing | src/tgpio-ptp-input.c:3744-3888 | equal edge counts at the fold and at the rewrite, for an invert and for a frequency update, mean that nothing strays |
| LinuxRuns.Works | src/tgpio-ptp-input.c:3959-4078 | any number of work runs with edges between and during them, each with its outcome, its plan if it arms, and its strays, chained from the block found to the block left |
| LinuxRuns.ConservationOverRuns | src/tgpio-ptp-input.c:3959-4078 | over any such run rightness changes with the parity of the applied flips and of the strays of its work runs |
| LinuxRuns.StaysSymmetric | src/tgpio-ptp-input.c:3183-3295 | a symmetric output never becomes a duty one unless one is requested |
| LinuxRuns.QuietWindowsKeepTheMirror | src/tgpio-ptp-input.c:3836-3888 | with symmetric requests and no strays in a window the mirror flips with the applied flips and never otherwise |
| LinuxRuns.QuietVisitsKeepTheMirror | src/tgpio-ptp-input.c:3890-3918 | the same over any mixture of outputs, with no edge inside a window of a symmetric one and at most one edge since the checkpoint at each work run of a duty one, spurious wakes included |
| LinuxRuns.DisabledForGood | src/tgpio-ptp-input.c:3987-4078 | EN of a disabled block stays clear over every run whose requests keep the generation recorded as applied |
| LinuxRuns.IdleRunsStayOnGrid | src/tgpio-ptp-input.c:4012-4040 | until a work run has something to do, every rise of an armed symmetric output stays on its grid across work runs |
| LinuxRuns.ArmedRunsStayOnGrid | src/tgpio-ptp-input.c:3227-3284 | from the work run that arms a symmetric output with a right mirror, every rise until there is something else to do is on the grid of the primed first edge |
| LinuxRuns.NewConfigurationStaysOnGrid | src/tgpio-ptp-input.c:3689-4078 | a new symmetric configuration, whatever it replaces, primed and armed by any later work run: the first edge is where the request wants it by the clock of that sample, and every rise until there is something else to do is on its grid |
| LinuxRuns.SoftwareRunsProgramEveryEdge | src/tgpio-ptp-input.c:4040-4078 | over any run of successful software wakes the k-th leaves the compare of the first edge plus an exact sum of intervals, with alternating polarity |
| LinuxRuns.FlipsFollowTheMirror | src/tgpio-ptp-input.c:3836-3888 | over any run of work runs that at most flip, with no edge in a window and room for the shift, rises stay on the grid the mirror promises |
| LinuxRuns.OneFlipRepairs | src/tgpio-ptp-input.c:3836-3841 | one such flip of a wrong mirror puts every rise from it on back onto the grid, until there is something else to do |
| DutyRuns.ServeDuty | src/tgpio-ptp-input.c:3899-3956 | any number of visits, with the edges the schedule has before and during each: the block afterwards is a function of both, and it gives up exactly at the first visit that reads a pending edge in the last two counter values |
| DutyRuns.OnePerVisitIsExact | src/tgpio-ptp-input.c:3889-3956 | with one edge before each visit and none during it that block is the visited engine of the exact halves, its mirror shows the level, nothing strays, and each visit reads the compare as it is |
| DutyTiming.ServedInTime | src/tgpio-ptp-input.c:3932-3956 | if every wake is served within a latency its halves leave room for, exactly one edge comes before each visit and none during it, over any number of visits; each wake is the one the visit before asked for |
| DutyTiming.ShortestHalfIsRoomy | src/tgpio-ptp-input.c:5439-5447 | halves of 50 ms, the shortest the driver accepts, leave room for 30 ms of latency |
| DutyRuns.FailPrime | src/tgpio-ptp-input.c:3449-3473 | a right duty output whose software prime cannot be converted ends disabled with a wrong mirror, unless its first fold was itself off by an odd number |
| DutyRuns.ReachDuty | src/tgpio-ptp-input.c:3183-3295 | such an output, in step and before its first edge, is reached by priming and arming, whatever the schedule |
| DutyRuns.BreakMirror | src/tgpio-ptp-input.c:3449-3473 | and its prime does fail, with an offset that puts the prime edge before the counter began: the right mirror found ends right only if an odd number of edges beyond one fires before the stop |
| DutyRuns.UndoArm | src/tgpio-ptp-input.c:3851-3863 | a running duty output found right, and a work run of it that records the newest request and leaves EN clear; the next work run leaves it so |
| Nudge.GridErrorBounds | src/tgpio-ptp-input.c:3347-3348 | the error is the signed distance to the nearest half-period slot |
| Nudge.PhaseReadsExactly | src/tgpio-ptp-input.c:3308-3348 | exactly when a phase can be read, and the logical time it then reads for the pending edge |
| Nudge.CompareComesOut | src/tgpio-ptp-input.c:2998-3016 | an edge comes out two cycles after its compare, within half a cycle and four nanoseconds of its time plus the offset; aims at the first two counter values are not moved |
| Nudge.NearSlotIsKept | src/tgpio-ptp-input.c:3308-3348 | a phase read near a slot keeps that slot and stays in the dead-band |
| Nudge.NudgeIsFixedPoint | src/tgpio-ptp-input.c:3744-3805 | after a nudge, at any later time with the clock unchanged, the same slot is read with an error inside the open dead-band, so neither a nudge nor a restart follows, unless the aimed counter value is 1 or 2; the aimed slot is at most a quarter half-period away |
| Nudge.TickCovers | src/tgpio-ptp-input.c:3778-3788 | up to 120 MHz every tolerance the driver accepts, one tick or more, is a dead-band wide enough for that |
| Nudge.NudgeRepeatsIff | src/tgpio-ptp-input.c:3012-3013 | another correction follows exactly when the aimed counter value is 1 or 2 and the edge, read two cycles late, is live and has strayed |
| Nudge.StraysByDisplacement | src/tgpio-ptp-input.c:3308-3348 | an edge displaced by up to a quarter half-period strays exactly if the displacement reaches the tolerance while it may still be moved, and is aimed at the same slot again |
| Nudge.NudgeRepeatsAtCounterStart | src/tgpio-ptp-input.c:3012-3013 | it happens, with a clock reading of that very counter: an output shifted 80 ms early at counter value 0 |
| Duty.ExactIff | src/tgpio-ptp-input.c:3909-3918 | with one visit per edge every edge consumes the half that follows it, forever, if and only if both halves share a high word |
| Duty.HalvesAreExact | src/tgpio-ptp-input.c:3889-3918 | the k-th rise comes exactly k * (high + low) cycles after the first and the fall exactly high later |
| Duty.DutyRisesOnGrid | src/tgpio-ptp-input.c:3889-3918 | from either level every rise of a visited duty waveform is on the grid of the first one |
| Duty.VisitFollowsTheEdge | src/tgpio-ptp-input.c:3932-3956 | the delay computed from a readable pending edge lands after that edge and at most the service delay later by the clock |
| SoftwarePath.EdgesOnSchedule | src/tgpio-ptp-input.c:4044-4070 | edges alternate and each is due an exact sum of intervals after the first, whatever the rate did |
| SoftwarePath.NoDrift | src/tgpio-ptp-input.c:4066-4068 | the k-th rise is due first + k * (high + low) and the k-th fall high later |
| SoftwarePath.WakesOnSchedule | src/tgpio-ptp-input.c:4071-4077 | each wake is due the sum of converted intervals after the first |
| SoftwarePath.LeadNeverShrinks | src/tgpio-ptp-input.c:1233-1248 | the real-time lead of a wake over its edge never shrinks and grows by less than one nanosecond per half |
| SoftwarePath.LeadBounded | src/tgpio-ptp-input.c:4044-4078 | over k halves it gains less than k nanoseconds |
| Reconciler.StepKeepsTeardownInv | src/tgpio-ptp-input.c:4824-4843 | what every step of every participant keeps of the teardown protocol |
| Reconciler.TeardownQuiesces | src/tgpio-ptp-input.c:4824-4843 | in every interleaving, when teardown returns no timer is armed or firing and no work is queued or running |
| Reconciler.QuietIsFinal | src/tgpio-ptp-input.c:4833-4843 | and no step of anybody is possible afterwards |
| Reconciler.WakesAreServed | src/tgpio-ptp-input.c:3666-3682 | an armed timer is not lost: until a worker takes its next snapshot it stays armed or firing, or the work is queued or entered |
| Reconciler.OneRoundIsNotEnough | src/tgpio-ptp-input.c:4833-4843 | an interleaving in which one round of cancels leaves the timer armed |
| Reconciler.StepKeepsWorkerInv | src/tgpio-ptp-input.c:3959-3987 | a request newer than the last snapshot always has a worker on its way, and flips keep their parities |
| Reconciler.RequestIsWhatWasPublished | src/tgpio-ptp-input.c:4081-4122 | in every run the request carries the fields of the last configuration with no stop after it, and its generations count the publications that asked for an arm, for a rate while running, and for a flip |
| Reconciler.PublicationIsActedOn | src/tgpio-ptp-input.c:4338-4386 | every configuration, clock step or rate change published to a running output asks for a generation not applied before; with no stop after it, in every converged state a work run has since found an older one applied and acted on this or a newer one, until a counter has wrapped |
| Reconciler.Convergence | src/tgpio-ptp-input.c:3959-4122 | in every reachable state with nothing queued, running or about to be scheduled the last snapshot is the request, inverts performed have the parity of inverts requested, and if no arm and no edge failed since a new configuration was last acted on all three applied generations are the request's |
| Reconciler.ConvergedOnWhatIsInForce | src/tgpio-ptp-input.c:3959-4002 | there the last snapshot carries what was last published, field by field, and of a running output the inverts performed have the parity of the flips published |
| Reconciler.FailureSticks | src/tgpio-ptp-input.c:3987-4078 | a failure counts until a work run acts on a new generation; finding its generation recorded does not clear it |
| Reconciler.AppliedWasRequested | src/tgpio-ptp-input.c:3689-3711 | whatever fails, the applied configuration and frequency are together those of one request made during the run |
| Reconciler.EveryScheduleConverges | src/tgpio-ptp-input.c:3959-4016 | once publishers pause every schedule takes only so many steps per timer firing, can take no more exactly when it has converged, and has looked at the request they left |
| Reconciler.ConvergesAlone | src/tgpio-ptp-input.c:3959-4016 | from any serving state there is a schedule, with arms that succeed, that gets there |
| RateRing.Ring.Push | src/tgpio-ptp-input.c:2139-2187 | the array ring refines a list of the latest samples with the published rate, step and backward resets included |
| RateRing.EveryRateIsMeasured | src/tgpio-ptp-input.c:2139-2187 | at any time the ring holds the latest samples, all of one clock setting, and a published rate is the positive ratio of two of them at most eight apart that span at least four seconds |
| RateRing.HoldsTheLastEight | src/tgpio-ptp-input.c:2174-2187 | until a reset it holds exactly the last min(n, 8) |
| RateRing.PublishesTheAdvance | src/tgpio-ptp-input.c:2139-2187 | what each sample does: an advance of both over four seconds or more under one setting is published as it is, a shorter one changes nothing, a backward step of either drops rate and samples, a clock set drops the samples; otherwise the latest eight stay |
| Tdc.Pairing.Record | src/tgpio-ptp-input.c:2771-2828 | the fields are the trace specification's measurements, extremes, wrapped sum, pending capture and lost events |
| Tdc.CompletesEverySecond | src/tgpio-ptp-input.c:2787-2808 | a capture completes a pair exactly at every second one of an alternating stretch |
| Tdc.CapturesAreConserved | src/tgpio-ptp-input.c:2787-2808 | captures = 2 * pairs + re-arms + pending |
| Tdc.NoMoreThanPairs | src/tgpio-ptp-input.c:2808-2814 | a dropped duration still consumes its pair |
| Tdc.NothingElseIsDropped | src/tgpio-ptp-input.c:2808-2814 | if every duration converts, every pair is measured |
| Tdc.EventsAreConserved | src/tgpio-ptp-input.c:2785-2790 | while the event counter advances by 1 to 4096 per capture, events = captures + lost |
| Tdc.SwappedRolesNegate | src/tgpio-ptp-input.c:2800-2815 | swapping the roles negates every measurement |
| Tdc.StopAfterStart | src/tgpio-ptp-input.c:2800-2815 | a measurement is what the cycles between start and stop are worth, positive when the stop comes after its start |
| Tdc.SumBetweenExtremes | src/tgpio-ptp-input.c:2818-2823 | count * min <= sum <= count * max |

## Left out

- Realtime clock mode: conversions through the kernel's timekeeping (`src/tgpio-ptp-input.c:1752-1766`, `3350-3376`) are not part of this model; every clock here is the anchored model.
- Reading the counter and CLOCK_REALTIME: samples are parameters or come from the world; each routine converts with one snapshot of the clock, so a rate change in the middle of a routine is not modelled.
- The end of the counter: the hardware fires no edge whose next compare would not fit 64 bits.
- The edges of a software-driven output: a single-shot compare never toggles the modelled flop.
- LinuxOutput.LinuxBlock.DrainLow: does not state that the level is low afterwards, because the wait is bounded and an edge may fire before EN is cleared.
- Nudge.NudgeIsFixedPoint: asks for a dead-band wider than half a cycle and the conversion losses; for counters above 120 MHz a tolerance of one tick need not be.
- Generations are 32-bit and compared for equality: 2^32 publications between two work runs would go unnoticed, in the model as in the code.
- The seqlock around the request: a publisher's write and the worker's snapshot are single steps.
- New requests during teardown other than a disable still in progress: the interfaces are unregistered first.
- DutyTiming.ServedInTime: takes as premises that clock and real time run together to within a microsecond between a visit's sample and the next visit, and that a visit begins and ends within the latency of its wake.
- Reconciler.PublicationIsActedOn: says that a work run acted, not that its arm succeeded; `Convergence` says what follows if it did.
- Signed overflow in the duty service's delay and in kernel time sums is modelled as wrap-around; a phase comparison with the clock in its last 20 ms is modelled without overflow.
- The calibration of the base rate, the TSC arithmetic of the Windows driver and CPUID detection: the counter is abstract.
- The interval statistics, the auto-polarity verdict and the PPS feed of inputs.
- Module parameters, MMIO mapping, PTP and PPS registration, debugfs, IOCTL buffers, logging, status formatting, the command-line tool and the TUI: no property of their own.

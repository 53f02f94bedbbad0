# Fixed-timestep real-time simulation core

This project models a small real-time control loop in four layers:

- **Measuring.** Each iteration reads a monotonic millisecond clock and computes the time since the last iteration.
- **Clamping.** That delta is clamped to at most 50 ms (`MAX_DT_SECONDS`) and banked in a time accumulator.
- **Stepping.** A deterministic engine spends the banked time in fixed 10 ms ticks (`FIXED_DT_SECONDS`). It runs at most 5 ticks per iteration (`MAX_SIMULATION_STEPS_PER_FRAME`). When it hits that cap, it throws away the rest of the backlog so the loop cannot fall further and further behind.
- **Displaying.** A presentation layer blends the previous and the current simulated state. It uses the fraction of a tick still banked.

External intent arrives as commands (`Accelerate` by a value, or `Stop`) through a bounded FIFO channel of 32 entries that drops commands when full. Each tick applies at most 4 queued commands, oldest first. It then makes one Euler update of a one-dimensional state (position, velocity, validity flag). A state whose position would become negative becomes invalid, with position and velocity zero. An invalid state never changes again.

Layout:

- `config.dfy` (`SimConfig`) holds the constants.
- `state_model.dfy` (`StateModel`) holds commands, the physical state and the per-tick rules (`applyCommand`, `updateSystem`). Both rules mutate a `SystemState&` in main.cpp. Because that state is a plain value struct, they are modelled as functions from the old value to the new one.
- `interpolation.dfy` (`Interpolation`) holds the display blend.
- `frame_spec.dfy` (`FrameSpec`) holds the frame controller as pure functions: one fixed step, the capped step loop, one whole iteration. It also holds the lemmas about them.
- `simulation.dfy` (`Simulation`) holds the `Engine` class. Its fields are the loop's mutable state (current and previous state, clock anchor, accumulator, channel), and its methods are the imperative loops of main.cpp. Each method is proved to compute exactly the corresponding `FrameSpec` function, and the class invariant `Valid` is preserved:
  - the channel holds at most 32 commands;
  - the accumulator lies in [0, one tick);
  - the states never have a negative position while valid.

The constants (main.cpp:14-20, and the per-step command limit at main.cpp:115) are in `SimConfig`. Quantities are exact reals and timestamps are unbounded integers of milliseconds.

## Model

| member | source | states |
|---|---|---|
| StateModel.ApplyCommand | main.cpp:70-80 | an invalid state is returned unchanged; `Accelerate` adds its value to the velocity; `Stop` sets the velocity to 0; position and validity never change; the non-negative-position invariant holds after iff it held before |
| StateModel.UpdateSystem | main.cpp:51-60 | an invalid state is returned unchanged; a valid state whose integrated position is non-negative moves to it and keeps velocity and validity; otherwise it becomes `(0, 0, invalid)`; a valid state's result never has a negative position; the invariant is preserved |
| StateModel.ApplyAll | main.cpp:115-121 | applying a batch front-first never changes position or validity, leaves an invalid state alone, and preserves the invariant |
| StateModel.ApplyAllSnoc | main.cpp:117-121 | one more command at the back of a batch acts on the state the batch reached (FIFO order of the drain) |
| StateModel.ApplyAllConcat | main.cpp:117-121 | a batch splits into two batches applied in order |
| StateModel.StopResetsVelocity | main.cpp:76-78 | a `Stop` anywhere in a batch erases every acceleration before it: the batch acts like the commands after the `Stop`, started from velocity 0 |
| StateModel.FrozenWhenInvalid | main.cpp:51-52 | once invalid, no commands and no tick change the state |
| StateModel.EvolveScenarios | main.cpp:51-60 | `(0, 1, valid)` over 10 ms becomes `(0.01, 1, valid)`; `(0, -5, valid)` becomes `(0, 0, invalid)` |
| Interpolation.Blend | main.cpp:84-85 | the blend of a value with itself is that value; alpha 0 gives the first end and alpha 1 the second |
| Interpolation.BlendBetween | main.cpp:84-85 | a blend with alpha in [0, 1] lies between its two ends |
| Interpolation.InterpolateState | main.cpp:82-86 | the result takes `valid` from the current state; alpha 0 gives the previous position and velocity; alpha 1 gives the current state |
| Interpolation.InterpolateSameState | main.cpp:82-86 | blending a state with itself gives it back for every alpha |
| Interpolation.InterpolateBetween | main.cpp:82-86 | for alpha in [0, 1] the display position and velocity lie between those of the two states |
| FrameSpec.Bank | main.cpp:98-107 | only the anchor and the accumulator change; the anchor becomes `now`; with a monotonic clock at most 50 ms is banked; below 50 ms the delta is banked exactly |
| FrameSpec.ClampDt | main.cpp:101-106 | converts to seconds and never exceeds `MAX_DT_SECONDS`; equals it exactly when the delta is at least 50 ms; below that it is the delta over 1000; a non-negative delta gives a non-negative result |
| FrameSpec.DrainCount | main.cpp:115-121 | a step drains at most 4 commands and at most what is queued, and stops only at 4 or at an empty queue |
| FrameSpec.FixedStep | main.cpp:113-125 | the previous state becomes the old current state; the queue loses exactly its first `DrainCount` commands (all of them when at most 4 wait); the accumulator drops by one tick; an invalid state stays put; the invariant is preserved |
| FrameSpec.Settle | main.cpp:128-130 | only the accumulator can change; hitting the cap empties it; below the cap the frame is unchanged |
| FrameSpec.StepCount | main.cpp:109-126 | the loop runs at most 5 steps; when it stops below the cap, less than one tick remains; a non-negative accumulator stays non-negative; it steps only with a whole tick banked |
| FrameSpec.Steps | main.cpp:109-126 | k steps spend exactly k ticks, never lengthen the queue, keep the clock anchor and preserve the invariant of both states |
| FrameSpec.Advance | main.cpp:98-138 | one iteration reports the raw delta and moves the anchor to `now`; steps ≤ 5; at the cap the accumulator is 0, below it less than a tick remains, and with a monotonic clock it lies in [0, one tick); the display is the new previous and current state blended by the banked fraction of a tick, and its `valid` is the current state's; the queue never grows; the invariant is preserved |
| FrameSpec.DrainedSuffix | main.cpp:115-121 | draining one more step after k steps' worth leaves the queue minus its first min(n, 4(k+1)) commands |
| FrameSpec.StepsDrainFifo | main.cpp:115-121 | after k steps the queue is exactly the old queue minus its first min(n, 4k) commands |
| FrameSpec.StepsFrozen | main.cpp:109-126 | an invalid current state passes through any number of steps unchanged and becomes the previous state |
| FrameSpec.StepCountReachesCap | main.cpp:112 | with at least the remaining number of ticks banked, the loop runs to the cap |
| FrameSpec.StepWithoutCommands | main.cpp:117-123 | a step with an empty queue is one Euler update |
| FrameSpec.StepsFixedSlices | main.cpp:123 | for a valid state moving forward with no commands, k steps keep the state valid and the velocity unchanged, and advance the position by exactly k × velocity × 10 ms |
| FrameSpec.SlicesIsProduct | main.cpp:123-124 | k repeated slices of d add up to k·d, the closed form behind `StepsFixedSlices` |
| FrameSpec.StepsIgnorePrevious | main.cpp:113 | once a step has run, the frame no longer depends on what the previous state was before the loop |
| FrameSpec.StepsRebank | main.cpp:109-126 | moving the anchor and the accumulator before k steps is the same as moving them after, less k ticks: the steps themselves never read the clock or the accumulator |
| FrameSpec.StepsCompose | main.cpp:109-126 | a steps followed by b steps are a + b steps: the fixed step is the only thing the loop repeats |
| FrameSpec.StepCountIs | main.cpp:112 | below the cap, the loop runs exactly the number of whole ticks banked |
| FrameSpec.StepCountSplit | main.cpp:112 | below the cap, the ticks spent on a smaller banked amount plus those the remainder then buys equal the ticks of the whole amount |
| FrameSpec.AdvanceBelowCap | main.cpp:98-130 | below the cap an iteration's frame is its steps on the old frame, re-anchored at `now` with the banked time less the ticks spent |
| FrameSpec.AdvanceSplitCounts | main.cpp:98-130 | splitting a short delta (under 50 ms, no cap hit) into two iterations spends the same total number of ticks and leaves the same accumulator |
| FrameSpec.AdvanceSplit | main.cpp:98-138 | two iterations at `mid` and `now` reach the same frame and the same display as one iteration at `now`, when the whole delta is under 50 ms and the cap is not hit: the evolution does not depend on how the real time is split into iterations |
| FrameSpec.AdvanceLongDelta | main.cpp:104-130 | a delta of at least 50 ms (a stall) runs exactly 5 steps and leaves an accumulator of 0 |
| FrameSpec.AdvanceTimeAccounting | main.cpp:107-130 | banked time is either spent in whole ticks, kept, or discarded by the cap; the discarded part is under one tick, and is 0 when the cap was not hit |
| FrameSpec.AdvanceAlphaInRange | main.cpp:137 | with a monotonic clock the blend factor lies in [0, 1) |
| FrameSpec.AdvanceDrainsFifo | main.cpp:109-126 | an iteration removes exactly the first min(n, 4·steps) queued commands |
| FrameSpec.AdvanceFrozen | main.cpp:98-138 | an invalid state is frozen across an iteration; once a step has run, the display shows that frozen state |
| FrameSpec.AdvanceDisplayBetween | main.cpp:137-138 | the display position lies between the previous and the current position |
| FrameSpec.AdvanceWithoutStep | main.cpp:107-112 | with less than one tick banked, no step runs and nothing but the anchor and the accumulator changes |
| FrameSpec.BurstIteration | main.cpp:109-134 | ten queued `Accelerate(0.1)` commands and a 16 ms iteration from `(0, 1, valid)`: one step, six commands left waiting, current state `(0.014, 1.4, valid)` |
| FrameSpec.Offer | main.cpp:62-68 | a command is appended iff fewer than 32 wait, otherwise the channel is unchanged; a channel within the bound stays within it |
| FrameSpec.Admit | main.cpp:132-134 | offering commands one by one keeps the old channel as a prefix; the result is a prefix of old channel plus commands, of length min(old + offered, 32); a full channel takes nothing |
| FrameSpec.FirstDisplayAsWritten | main.cpp:89-138 | main.cpp's first iteration as written, with `previousState` left unset: the display reads an unset previous state exactly when less than one tick (10 ms) has passed since the clock was first read |
| FrameSpec.FirstDisplayIgnoresPlaceholder | main.cpp:89-138 | whenever a step has run, the first display does not depend on what `previousState` held, so modelling the unset value by a placeholder is sound |
| FrameSpec.FirstDisplayReadsUnset | main.cpp:89-138 | from the initial state `(0, 1, valid)`, a first iteration in the same millisecond as the initial clock reading reads the unset previous state |
| FrameSpec.FirstDisplayInitialised | main.cpp:89-138 | with previous initialised to the initial state, that first display is defined and equals the initial state |
| Simulation.Engine.constructor | main.cpp:90-93 | starts at `(0, 1, valid)` with previous equal to current, the anchor at the given clock reading, accumulator 0, empty channel; the invariant holds |
| Simulation.Engine.EnqueueCommand | main.cpp:62-68 | accepted iff fewer than 32 commands wait; an accepted command is appended at the back, a refused one changes nothing; the new channel is `Offer` of the old one; nothing else changes; the invariant is preserved |
| Simulation.Engine.RunFixedStep | main.cpp:113-125 | the in-place step (snapshot, drain loop with pops, update, spend) leaves exactly `FixedStep` of the old state |
| Simulation.Engine.RunStepLoop | main.cpp:109-126 | the capped while loop runs `StepCount` steps and leaves exactly `Steps` of the old state |
| Simulation.Engine.MeasureAndBank | main.cpp:98-107 | returns the raw delta, moves the anchor, banks the clamped delta |
| Simulation.Engine.AdvanceOneIteration | main.cpp:98-138 | with a monotonic clock the iteration preserves the invariant, and its delta, step count, display state and new state are exactly those of `Advance` |
| Simulation.Engine.InputBurst | main.cpp:132-134 | ten `Accelerate(0.1)` enqueues leave the channel `Admit`-ed and change nothing else; the invariant is preserved |
| Simulation.Engine.RunIteration | main.cpp:95-138 | one pass of the main loop is `Advance` followed by the burst; the invariant is preserved |
| Simulation.FullQueueScenario | main.cpp:62-68 | thirty-two enqueues fill the channel and the thirty-third is refused with the length still 32 |
| Simulation.StallScenario | main.cpp:104-130 | on a fresh engine, a 200 ms stall runs exactly 5 steps and leaves accumulator 0 |
| Simulation.BurstScenario | main.cpp:109-134 | on a fresh engine, the burst then a 16 ms iteration runs one step, leaves six commands waiting and velocity 1.4 |

## Left out

- The clock (`nowMs`, `steady_clock`): each iteration takes the timestamp as a parameter. `steady_clock` never goes backwards, so `Engine.AdvanceOneIteration` and `Engine.RunIteration` require a timestamp no earlier than the previous one. The pure `Advance` has no such requirement, and like main.cpp it banks a negative delta unclamped.
- 64-bit integer width of timestamps: timestamps are unbounded integers, so wrap-around is not modelled. It cannot be reached from a steady clock in practice.
- IEEE-754 double rounding: positions, velocities, the accumulator and the constants 0.01 and 0.05 are exact reals. Repeated subtraction of 0.01 in binary may land just below a tick boundary where the model lands on it.
- Console output and the 16 ms `sleep_for` at the end of each iteration are I/O and pacing. The display state they print is returned by the model.
- The infinite `while (true)` loop: one pass is `Engine.RunIteration`; repeating it is left to a caller.
- Threading and locking around the queue: main.cpp is single-threaded.
- The uninitialised `previousState`: the engine initialises it to the initial current state. The behaviour as written is recorded under Findings.
- Simulation.BurstScenario: does not run main.cpp's first iteration at the clock's starting millisecond before the burst. That iteration runs no step, which `FrameSpec.AdvanceWithoutStep` states for every input.
- Whether hitting the step cap should also flush stale queued commands: main.cpp drops only time, and so does the model.

## Findings

| source | as written | input that shows it | evidently intended | confidence | as-written member | corrected member |
|---|---|---|---|---|---|---|
| main.cpp:91-138 | `previousState` is declared without a value and is assigned only inside the step loop, yet the first display blends it | the first iteration, whose clock reading is within 10 ms of the initial one (usually the same millisecond): no step runs | the first display shows a defined state, the initial one | high; not executed | FrameSpec.FirstDisplayAsWritten (exhibited by FrameSpec.FirstDisplayReadsUnset) | FrameSpec.FirstDisplayInitialised (with Simulation.Engine.constructor setting previous to current) |

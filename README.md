# Traffic-light task generator: simulator and animation sequencer

This project models the core of a generator of traffic-light reasoning tasks and proves
properties of that model. Each task shows a crossroad with two lights, A on the left and
B on the right. Exactly one of them is red, and each may run a countdown. The generator
does four things:

1. It samples an initial scene and, for the hardest task type, an elapsed time.
2. It simulates the final scene.
3. It renders both scenes as stills.
4. It builds the ground-truth video as a list of frames. The video holds the first still,
   replays the countdowns one time unit at a time, then holds the final still.

Modules, one per file:

- `Wrappers` and `Sequences`: an optional value and the associativity of concatenation.
- `Scenes`: the two-light scene, the switched scene (A green, B red, both timers stopped),
  and the floored countdown `Sub`.
- `Simulator`: the state-transition simulator `CalculateFinalState`.
  - It is an imperative loop that jumps from one zero event to the next.
  - Its result is proved equal to a closed form, `Advance`.
  - `Advance` is proved equal to a unit-by-unit reference, `Ticks`.
  - A ghost trace records which check switched the lights (`Fired`).
- `Renderer`: the decisions a rendered still is made of:
  - lamp positions;
  - the fill colour per state;
  - the captions;
  - whether a countdown label is drawn.
- `Sequencer`: the frame-list builder `CreateCountdownAnimationFrames`.
  - It is an imperative loop over time units and is proved equal to the recursive walk
    `AnimationFrames`.
  - The sequencer is generic over the render function, so the frame type is abstract.
  - The main theorem is `AnimationOfSwitch`. For every generated task with a running countdown
    the frame list is:
    - `hold` initial stills;
    - `fpc` frames for each unit `0 .. min(first zero, 30) - 1`;
    - `hold` stills of the switched scene.
- `Sampler`: the task sampler `GenerateTaskData`.
  - The random integers are a `Draws` parameter, each required to lie in the range the
    sampler asks for.
  - `SampledTaskSwitches` proves that every task with a running countdown ends switched, and
    which check fires.
- `Tasks`: `GenerateTaskPair` composes the sampler, the simulator, the renderer and the
  sequencer with the default holds (5 frames, 2 frames per unit).

Behaviour taken from the code where it differs from the rule as usually described:

- **A non-counting green B counts as expired.**
  - The simulator checks only red-A-at-zero, then green-B-at-zero (src/generator.py:235-248).
  - A green B whose countdown is 0 is therefore "expired" from the first pass on.
  - So red 5 / green 0 with an explicit 2 units ends switched through the green-B check
    (`Simulator.Scenarios`, `Simulator.IdleGreenBSwitchesAtOnce`).
  - The generator never asks this: types 1 and 2 use the automatic horizon.
- **Ties go to A.** When both lights reach zero in the same pass, the red-A check wins.
- **The zero-edge detector lags two units.**
  - At unit `t` the sequencer compares the countdown of unit `t - 2` with that of unit `t`
    (src/generator.py:504-545).
  - So a light counts as "just reached zero" at its zero unit and also at the unit after it.
  - On generated tasks the walk stops at the first zero, so this never shows. The model keeps
    the lag (`Sequencer.WalkStep`, `Sequencer.EntryWalk`).
- **The trim never meets `frames[:-0]`.**
  - The trim `frames[:-frames_per_countdown]` would empty the list when
    `frames_per_countdown` is 0.
  - That branch is unreachable: with no frames per unit the list never exceeds the hold
    (`Sequencer.TrimmedLength`).

## Model

| member | source | states |
|---|---|---|
| Simulator.AutoHorizon | src/generator.py:191-201 | The automatic horizon is 0 exactly when neither light counts. Otherwise it is one of the running countdowns, and no running countdown is smaller. |
| Simulator.Advance | src/generator.py:206-248 | The simulated scene never has larger countdowns. It keeps exactly one light red. If any colour changed, it is the switched scene; if no colour changed, it is the plain countdown. |
| Simulator.AdvanceAdditive | src/generator.py:206-225 | Simulating `j` units and then `k` more is the same as simulating `j + k` units. |
| Simulator.SwitchedIsFixed | src/generator.py:235-248 | A switched scene is a steady state. |
| Simulator.NothingToSimulate | src/generator.py:204-222 | With no time, or no running countdown, the scene comes back unchanged. |
| Simulator.CountsNonIncreasing | src/generator.py:227-231 | Countdowns never increase as more time is simulated. |
| Simulator.AdvanceIsTicks | src/generator.py:181-248 | Jumping between zero events equals ticking one unit at a time: all countdowns drop by one, then the red-A check, then the green-B check. |
| Simulator.FiredExactlyOnSwitch | src/generator.py:234-248 | A check fires exactly when the simulation switches the lights. The red-A check needs a red A due within the time; the green-B check needs a green B due within the time. |
| Simulator.PassPreserves | src/generator.py:206-248 | One pass of the loop preserves the outcome of the remaining budget and contributes its check to the trace. |
| Simulator.JumpToNextEvent | src/generator.py:207-248 | One pass consumes the time to the next zero event, capped by the budget. It is positive. It then applies the first check that holds. |
| Simulator.CalculateFinalState | src/generator.py:169-255 | The final state is the closed form at the horizon: the explicit elapsed time, else the automatic one. At most one check fires, and one fires exactly when the result is not a plain countdown. |
| Simulator.RedAFirstOrTied | src/generator.py:208-212 | With red A reaching zero no later than a running green B, including a tie, the red-A check fires and the lights switch. |
| Simulator.GreenBFirst | src/generator.py:213-215 | With green B reaching zero strictly first, the green-B check fires and the lights switch. |
| Simulator.IdleGreenBSwitchesAtOnce | src/generator.py:242-248 | A non-counting green B triggers the green-B check for any positive time shorter than A's countdown. |
| Simulator.Scenarios | src/generator.py:191-248 | Worked cases. Red 5 / green 0 automatic switches by red A after 5 units. Red 10 / green 4 switches by green B after 4. The tie 6 / 6 over 6 units goes to red A. Red 5 / green 0 over 2 units switches by green B. |
| Renderer.LayoutFor | src/generator.py:314-323 | The lamps are placed symmetrically, A left of B, both inside the image horizontally and not overlapping, on the horizontal centre line. |
| Renderer.Render | src/generator.py:261-337 | A's lamp is left of B's. A fill is red exactly for a red light. A label is drawn exactly for a running countdown, or at zero when configured, and it shows that countdown. |
| Renderer.RenderInjective | src/generator.py:351-377 | Two scenes rendered alike are the same scene. |
| Sequencer.StepUnit | src/generator.py:502-545 | One unit of the walk: countdowns recomputed from the initial ones, the zero-edge rules with the tie going to A, and the lagging countdowns moved up. |
| Sequencer.CreateCountdownAnimationFrames | src/generator.py:432-580 | The loop's frame list equals the recursive walk: both holds, the unit groups, the stop on reaching the final scene or the cap of 30, and the trim of the last group. |
| Sequencer.StepBeforeFirstZero | src/generator.py:504-536 | Before the first zero of a red-A / green-B scene, nothing just reaches zero; the walk only counts down. |
| Sequencer.StepAtFirstZero | src/generator.py:517-536 | At the first zero, the expiring light's rule switches the lights. |
| Sequencer.WalkFromEntry | src/generator.py:502-568 | From any unit before the first zero or the cap, the walk renders the countdown groups up to there. It then renders the group of the switched scene, or of the countdown at the cap. |
| Sequencer.AnimationOfSwitch | src/generator.py:432-580 | The frame list of a generated task: `hold` initial stills, `fpc` frames per unit before the first zero (at most 30 units), `hold` switched stills. Its length is `2*hold + fpc*min(first zero, 30)`. |
| Sequencer.GroupsLength | src/generator.py:552-554 | Each unit contributes exactly `fpc` frames. |
| Sequencer.WalkLength | src/generator.py:500-568 | The walk renders `fpc` frames per unit. It renders at least one unit, and no more than the last countdown plus two or the cap allows. |
| Sequencer.TrimmedLength | src/generator.py:570-574 | The trim removes one group only when more than one unit was rendered. It keeps the initial hold. |
| Sequencer.AnimationHolds | src/generator.py:475-580 | Every frame list starts with `hold` initial stills and ends with `hold` final stills. |
| Sequencer.AnimationLength | src/generator.py:475-580 | The length is two holds plus one group per rendered unit but the trimmed last one. It is never more than two holds plus 30 groups. |
| Sampler.ServedType | src/generator.py:164-166 | An unknown task type is served as type 1. Types 1 to 4 are served as themselves. |
| Sampler.GenerateTaskData | src/generator.py:108-167 | Every task starts with A red and B green. Types 1 and 2 run A only, within the configured range. The counts and the elapsed time are the draws. Type 3 runs B (3 to 7) shorter than A. Type 4 asks about a time two to eight units past the larger countdown. Only type 4 carries an elapsed time. |
| Sampler.SampledTaskSwitches | src/generator.py:108-255 | Every sampled task with a running countdown ends switched. Types 1 and 2 switch by red A, type 3 by green B, and type 4 by whichever light runs out first, A on a tie. |
| Sampler.DefaultTasksCount | src/config.py:59-67 | Under the default ranges (2..10 and 8..20), A's countdown is 2 to 20 and the first zero comes after 2 to 20 units. |
| Tasks.GenerateTaskPair | src/generator.py:36-92 | A task with a running countdown ends in the switched scene. Its video is the initial hold, two frames per unit before the first zero (at most 30 units), and the switched hold. An idle task ends unchanged, with a video of ten initial stills. |
| Tasks.CapNeverBites | src/generator.py:567-568 | With configured countdowns of at most 30, the safety cap never truncates the video. Under the defaults the video has 14 to 50 frames. |

## Left out

- `_select_task_type` (src/generator.py:98-106) draws a float and accumulates probabilities. Its choice is the `taskType` parameter of the sampler, and any integer is accepted.
- The random source: each integer draw is a parameter, required to lie in the range requested of the source.
- An empty configured range makes the random source raise an error. `GenerateTaskData` requires a draw from the range, so this error path is not modelled.
- Sampler.GenerateTaskData: counts are natural numbers, so a negative configured countdown is not modelled.
- The pixels of a still are not modelled: background, roads, dashed lines, disc outlines, fonts and text boxes. A `Renderer.Frame` records everything that decides them: image size, lamp centres, radius, fill, caption and countdown label.
- The label and countdown text positions depend on font metrics and are not modelled.
- The sequencer takes the render function as a parameter. `Tasks.GenerateTaskPair` instantiates it with `Renderer.Render`.
- Video encoding, temporary files and the `generate_videos` switch are not modelled. `Tasks.GenerateTaskPair` always builds the frame list that would be encoded.
- Prompt text (src/prompts.py), task identifiers, the configuration schema and the command-line driver are not modelled.
- Sequencer.CreateCountdownAnimationFrames: the holds and frames per unit are parameters. The defaults are 5 and 2.
- Simulator.CalculateFinalState: the light states are the two-valued `LightState`, so string states other than "red" and "green" are not modelled.
- Simulator.CalculateFinalState: countdowns and the elapsed time are natural numbers. A negative elapsed time, which the source returns unchanged because its loop does not run, is not modelled; the sampler never produces one.

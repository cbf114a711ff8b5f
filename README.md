# Spinning-cat animation: the timed rotation state machine

The page shows one 3D model of a cat and spins it through a scripted cycle
when the user presses `r`. A cycle has five phases after `idle`:
`extremeFast` (2000 ms), `pause1` (1000 ms), `mediumFast` (2000 ms), `pause2`
(1000 ms) and `finalSpin` (39000 ms). That is 45000 ms in all. On every
animation frame, the model's Y rotation grows by the current phase's speed
(0.6, 0, 0.2, 0, 0.8 radians per frame). During the final spin, the scene
background switches to a random colour at most once per 100 ms. When the
cycle's time is up, everything returns to idle: rotation 0, a white
background, and the audio stopped. Pressing `r` again during a cycle does the
same.

This project models that state machine in Dafny and proves what it promises.
It also models the small drag controller that moves the model with the mouse.

- `phases.dfy` (module `Phases`): the phase table and `PhaseAt`, the lookup
  from elapsed cycle time to phase. Lemmas prove that the phases own
  consecutive half-open windows `[start, end)` of elapsed time, and that the
  phase never moves backwards as time grows.
- `timer.dfy` (module `Timer`): all the state the animation reads and writes,
  held as one value (`TimerState`). It has one function per operation
  (`Reset`, `Start`, `Update`, `Frame`, `KeyDown`). The invariant `Valid`
  holds across all of them. One-step lemmas cover the reset at the end of a
  cycle, pauses, spinning, background changes and the toggle key.
- `runs.dfy` (module `Runs`): any number of consecutive frames. An idle
  machine stays exactly as it is. Background changes are always more than
  100 ms apart. With non-decreasing clock readings, the phase only moves
  forward through the cycle and leaves it only by going back to idle.
- `drag.dfy` (module `Drag`): vectors, ray-cast results, and the lemma that a
  move after a grab at point g shifts the model by q − g, where q is the
  move's point on the plane z = 0. That shift is zero only when q equals g,
  so a grab point off the plane makes the model jump on the first move.
- `app.dfy` (module `App`): class `Viewer`, holding the page's module-level
  variables as fields. Its handlers update those fields in place. Each
  timer-related method is specified by the matching `Timer` function applied
  to the fields' snapshot.

Time is whole milliseconds (`int`). Rotation and colour channels are exact
`real`s. The clock reading, the random colour and the ray-cast results are
method parameters.

In four places the code behaves differently from what a summary of the design
would suggest. This model follows the code:

- The cycle resets once elapsed time is greater than or equal to 45000 ms
  (`>=`, main.js:99). So elapsed exactly 45000 already resets.
- A background change needs strictly more than 100 ms since the last one
  (main.js:121). A frame exactly 100 ms after the last change does not fire.
- The rotation is set to 0 on every frame that falls in a pause
  (main.js:105-112), not only on the frame that enters the pause.
- If the ray misses the plane z = 0 during a drag, the model is not left
  where it was. The 3D engine returns without writing its target vector, so
  the target keeps the zero vector allocated at main.js:146. The model is
  then placed at minus the drag offset (main.js:148). `Drag.PlanePoint`
  models this.

## Model

| member | source | states |
|---|---|---|
| `Phases.CycleDuration` | main.js:94-98 | The cycle length, summed over the five non-idle durations, is 45000 ms and equals the cumulative offset after the last phase. |
| `Phases.OffsetValues` | main.js:13-20 | The cumulative phase ends from the duration table are 2000, 3000, 5000, 6000 and 45000 ms. |
| `Phases.PhaseAt` | main.js:103-115 | Within a cycle, the chosen phase is never idle. For elapsed time ≥ 0, its half-open window contains that time. A negative elapsed time gives `extremeFast`. |
| `Phases.PhaseAtWindow` | main.js:103-115 | For 0 ≤ elapsed < 45000 and any non-idle phase p: the lookup yields p if and only if elapsed lies in p's window. The windows partition the cycle. |
| `Phases.PhaseWindows` | main.js:103-115 | The windows in milliseconds, in both directions: [0,2000) extremeFast, [2000,3000) pause1, [3000,5000) mediumFast, [5000,6000) pause2, [6000,45000) finalSpin. |
| `Phases.PhaseAtMonotone` | main.js:103-115 | More elapsed time within a cycle never yields an earlier phase. |
| `Timer.Initial` | main.js:3-7 | The initial state is idle, with cycle start 0, last colour change 0, rotation 0, a white background and stopped audio. It satisfies the invariant. |
| `Timer.Reset` | main.js:32-41 | Resetting preserves the invariant. The result is idle, white, with cycle start 0 (see `Timer.UpdatePastCycleResets`). |
| `Timer.Start` | main.js:42-49 | Starting a cycle preserves the invariant. |
| `Timer.Update` | main.js:91-116 | The phase update preserves the invariant. |
| `Timer.Frame` | main.js:117-127 | An animation frame preserves the invariant. |
| `Timer.KeyDown` | main.js:154-162 | A key press preserves the invariant. |
| `Timer.UpdatePastCycleResets` | main.js:94-101 | A running cycle with elapsed time ≥ 45000 ms resets. The result is idle, with rotation 0 if a model is loaded, a white background, cycle start 0 and stopped audio. The last colour change time is unchanged. |
| `Timer.IdleFrameIsNoOp` | main.js:117-127 | While idle, a frame leaves the whole state unchanged, whatever its time and colour. |
| `Timer.FrameFollowsWindows` | main.js:99-115 | Inside a running cycle, a frame moves to the non-idle phase whose window holds the elapsed time. |
| `Timer.PauseZeroesRotation` | main.js:105-112 | A frame that lands in `pause1` or `pause2` leaves the rotation at exactly 0, whatever had accumulated before. |
| `Timer.SpinAccumulates` | main.js:125-126 | In a spinning phase, a frame adds exactly that phase's speed to the rotation, so the rotation strictly grows. |
| `Timer.StartThenFrame` | main.js:42-44 | Starting from idle and running a frame at the same instant gives `extremeFast`, with rotation 0.6 when a model is loaded. |
| `Timer.BackgroundChanges` | main.js:121-124 | The background changes only to the frame's colour in `finalSpin`, or to white when the cycle resets. A change that does not end in idle needs more than 100 ms since the last change and records the frame's time as the last change. The last colour change time moves if and only if the post-update phase is `finalSpin` and more than 100 ms have passed. When it moves, it becomes the frame's time. |
| `Timer.KeyToggles` | main.js:154-161 | From idle, the `r`/`R` key starts a cycle at `now`: only the phase, the cycle start and the audio change, and rotation, background and last colour change time keep their values. From any other phase it resets: idle, cycle start 0, white, audio stopped, rotation 0 when a model is loaded, last colour change time kept. Any other key leaves the state equal to what it was. |
| `Timer.ToggleTwiceFromIdle` | main.js:154-161 | Two toggle presses from idle restore the exact original state. |
| `Runs.RunKeepsValid` | main.js:117-127 | Any number of frames preserves the invariant. |
| `Runs.IdleRunIsNoOp` | main.js:92 | Any number of frames from an idle state leaves it unchanged. |
| `Runs.ResetThenRun` | main.js:32-41 | After a reset, any number of frames keeps the machine idle, with rotation 0 and a white background. |
| `Runs.FireTimesSpaced` | main.js:121-124 | In any run of frames, every background change comes more than 100 ms after every earlier one and after the last change before the run. This holds even if clock readings are not monotonic. |
| `Runs.RunLastColorChange` | main.js:123 | After a run, the last colour change time is that of the run's last background change, or the earlier value if none fired. |
| `Runs.StartInCycle` | main.js:42-44 | A cycle just started at `now` is in step with elapsed time 0. |
| `Runs.FrameInCycle` | main.js:99-115 | A frame no earlier than the previous one keeps the machine in step, and it never moves the phase backwards. |
| `Runs.RunPhasesOrdered` | main.js:99-115 | With non-decreasing clock readings, each phase in a run is no earlier in the cycle than the ones before it. Once idle, the machine stays idle. It leaves `finalSpin` only for idle. |
| `Drag.FollowsPointer` | main.js:137-148 | After a grab at surface point g, a move whose ray meets the plane z = 0 at q places the model at its old position plus (q − g). This is no shift only when q = g. A grab point with g.z ≠ 0 makes the model jump by −g.z along z on the first move. |
| `App.Viewer.constructor` | main.js:3-11 | The page starts idle and white, with no drag under way and the offsets at the origin. |
| `App.Viewer.ResetPattern` | main.js:32-41 | The fields become `Timer.Reset` of the old fields. The result is idle, rotation 0, white, cycle start 0, with `lastColorChange` and the drag state unchanged. |
| `App.Viewer.StartPattern` | main.js:42-49 | The fields become `Timer.Start`: `extremeFast`, with cycle start `now`. |
| `App.Viewer.UpdateRotationState` | main.js:91-116 | The fields become `Timer.Update`. Within a running cycle, the phase is `PhaseAt` of the elapsed time. |
| `App.Viewer.Animate` | main.js:117-127 | The fields become `Timer.Frame`. A pause leaves rotation 0. A colour change happens only in `finalSpin`, installs the frame's colour, and moves `lastColorChange` forward by more than 100 ms. |
| `App.Viewer.KeyDown` | main.js:154-162 | The fields become `Timer.KeyDown` of the old fields. The drag state is unchanged. |
| `App.Viewer.MouseDown` | main.js:130-139 | A hit on a loaded model starts a drag with offset = hit − position. Otherwise the drag state is unchanged. The timer state and the position never change. |
| `App.Viewer.MouseMove` | main.js:140-149 | While dragging, the position becomes the plane point minus the offset. Otherwise nothing changes. |
| `App.Viewer.MouseUp` | main.js:150-152 | The drag always ends. Nothing else changes. |

## Left out

- Scene, camera, renderer and lighting setup, GLTF loading, and the camera
  distance computed with `Math.tan` (main.js:50-90). These are engine
  plumbing and floating point. Whether a model is loaded is fixed per
  `Viewer` (`hasModel`); the moment of loading is not modelled. `startTime`
  (main.js:82) is written but never read, so it is not modelled.
- `getRandomColor` (main.js:21-27) calls `Math.random`. The colour is a
  parameter of `Animate` instead. The model does not require its channels
  to lie in [0, 1).
- Audio (main.js:28-31 and the `audio` calls in main.js:36-39 and 45-48).
  This is browser media I/O, kept only as the ghost flag `audioPlaying`:
  set by a start and cleared by a reset. The clip ending on its own is not
  modelled.
- `requestAnimationFrame`, `renderer.render` and the resize handler
  (main.js:118, main.js:128, main.js:163-167). `Animate` is one frame, with
  the clock reading passed in.
- Ray casting (main.js:131-134, main.js:142-147). Converting the pointer to
  device coordinates and intersecting the model or the plane z = 0 belong
  to the 3D engine. The result enters as a `Hit` parameter.
- App.Viewer.MouseDown: a press before the model has loaded makes the
  source throw inside `intersectObject` before any state changes. It is
  modelled as a press that changes nothing.
- Floating point: `performance.now()` readings are fractional milliseconds.
  Here they are whole milliseconds. The window boundaries are integers, so
  the phase lookup is the same. The strict `> 100` colour test at main.js:121
  is not: a gap such as 100.4 ms fires in the program, and whole
  milliseconds cannot express it. The rotation is an exact real, so rounding
  in the repeated `+=` is not captured.
- The `STATES[rotationState]` test at main.js:125 is always true, because
  the phase is always one of the table's keys. It is not modelled.
- `event.key.toLowerCase() === 'r'` (main.js:155) is modelled as the key
  being `"r"` or `"R"`. Those are the only key names that lower-case to
  `"r"`.

# Multi-line-to-square rotating view: scale arithmetic and node state

This project models the animation core of the Android widget
`MultiLineToSquareView` (LinkedMultiLineToSquareRotView). A node rests at
scale 0 or 1. A call of `startUpdating` sets it moving toward the other end;
a host would make that call on a tap, but this file does not wire it (the
view's `onTouchEvent`, MultiLineToSquareView.kt:80-87, only returns `true`).
Each call of `update` moves it by a fixed, direction-signed step. Once it has moved more than one unit it
snaps to the other end, goes idle and reports the new resting scale once.

- `scale_math.dfy`, module `ScaleMath`: the top-level extension functions
  `inverse`, `scaleFactor`, `maxScale`, `divideScale`, `mirrorValue` and
  `updateValue`, with the constants `lines = 4`, `scGap = 0.05` and
  `scDiv = 0.51`. They are pure functions over `real`, and `Math.floor` is
  `.Floor`.
- `node_animation.dfy`, module `NodeAnimation`: the data class `State` as a
  Dafny class with the mutable fields `scale`, `dir` and `prevScale` and the
  methods `Update` and `StartUpdating`. Each method is tied to a pure function
  of the old field values: `Advance` for `update`, `Begin` for
  `startUpdating`. The multi-tick properties are proved about those functions.
  `Valid` is an invariant: it holds of the default `State(0, 0, 0)` and both
  operations preserve it, so it holds of every state they reach. It says that
  `prevScale` is 0 or 1, that `dir == 0` means the node rests at `prevScale`,
  and that otherwise `dir == 1 - 2 * prevScale` and `scale` lies in [0, 1]. It
  is wider than the reachable set: `StateValue(0.3, 1, 0)` satisfies it,
  although from the default only multiples of the step size 1/80 are reached.
- The Kotlin callbacks are return values. `Update` returns `Some(v)` when it
  would call its callback with `v`, and `None` otherwise. `StartUpdating`
  returns whether it would call its callback.
- The constructor has the data class's default of 0 for each field, so
  `new State()` is the default state.
- `Run(v, k)` is the result of `k` successive updates, with the settle events
  they report in order. The host's tick loop is not part of the source, so
  `Run` exists only to state convergence. `TicksLeft(v)` is the number of
  updates an animating node needs before it settles.

The class methods do not require `Valid`: like the Kotlin data class, they
accept any field values. They preserve `Valid` when it holds.

## Model

| member | source | states |
|---|---|---|
| `ScaleMath.Inverse` | multilinetosquarerotview/src/main/java/com/anwesh/uiprojects/multilinetosquarerotview/MultiLineToSquareView.kt:25 | the result times `n` is 1, and it is positive when `n` is |
| `ScaleMath.ScaleFactor` | multilinetosquarerotview/src/main/java/com/anwesh/uiprojects/multilinetosquarerotview/MultiLineToSquareView.kt:18-26 | the result is a whole number `k` with `k * 0.51 <= x < (k + 1) * 0.51` |
| `ScaleMath.ScaleFactorBands` | multilinetosquarerotview/src/main/java/com/anwesh/uiprojects/multilinetosquarerotview/MultiLineToSquareView.kt:26 | the switch is 0 on [0, 0.51) and 1 on [0.51, 1.02) |
| `ScaleMath.MaxScale` | multilinetosquarerotview/src/main/java/com/anwesh/uiprojects/multilinetosquarerotview/MultiLineToSquareView.kt:27 | never negative, for every scale and every nonzero `n`; 0 up to `i/n`, and `scale - i/n` from there on |
| `ScaleMath.MaxScaleMonotone` | multilinetosquarerotview/src/main/java/com/anwesh/uiprojects/multilinetosquarerotview/MultiLineToSquareView.kt:27 | non-decreasing in the scale |
| `ScaleMath.DivideScale` | multilinetosquarerotview/src/main/java/com/anwesh/uiprojects/multilinetosquarerotview/MultiLineToSquareView.kt:28 | `min(1/n, maxScale(i, n)) * n`; its shape is stated by `DivideScaleShape`, `DivideScaleMonotone` and `DivideScaleStaggered` |
| `ScaleMath.DivideScaleShape` | multilinetosquarerotview/src/main/java/com/anwesh/uiprojects/multilinetosquarerotview/MultiLineToSquareView.kt:27-28 | for `n > 0`, `divideScale` lies in [0, 1]; it is 0 when `scale * n <= i`, 1 when `scale * n >= i + 1`, and the linear ramp `scale * n - i` in between |
| `ScaleMath.DivideScaleMonotone` | multilinetosquarerotview/src/main/java/com/anwesh/uiprojects/multilinetosquarerotview/MultiLineToSquareView.kt:27-28 | for `n > 0`, non-decreasing in the scale |
| `ScaleMath.DivideScaleStaggered` | multilinetosquarerotview/src/main/java/com/anwesh/uiprojects/multilinetosquarerotview/MultiLineToSquareView.kt:27-28 | segment `i + 1` is above 0 only when segment `i` is complete, so the segments reveal one after the other |
| `ScaleMath.MirrorValue` | multilinetosquarerotview/src/main/java/com/anwesh/uiprojects/multilinetosquarerotview/MultiLineToSquareView.kt:29-32 | equals `1/a` when `a == b`, whatever the scale; `1/a` on [0, 0.51) and `1/b` on [0.51, 1.02) |
| `ScaleMath.MirrorValueIsOneOfTheRates` | multilinetosquarerotview/src/main/java/com/anwesh/uiprojects/multilinetosquarerotview/MultiLineToSquareView.kt:26-32 | on [0, 1.02) the result is exactly `1/a` or `1/b` |
| `ScaleMath.UpdateValue` | multilinetosquarerotview/src/main/java/com/anwesh/uiprojects/multilinetosquarerotview/MultiLineToSquareView.kt:33-35 | 0 when `dir == 0`; equals `dir * 0.05 / a` when `a == b`, with the sign of `dir` when `a == b > 0`; for positive rates and a scale in [0, 1.02), the sign of `dir` and magnitude at most `0.05 * abs(dir) * max(1/a, 1/b)` |
| `NodeAnimation.Valid` | multilinetosquarerotview/src/main/java/com/anwesh/uiprojects/multilinetosquarerotview/MultiLineToSquareView.kt:89-106 | the node invariant: `prevScale` is 0 or 1; an idle node rests at `prevScale`; an animating one heads away from `prevScale` with `scale` in [0, 1]. `DefaultIsValid`, `Advance`, `Begin`, `State.Update` and `State.StartUpdating` state that it holds initially and is preserved |
| `NodeAnimation.Advance` | multilinetosquarerotview/src/main/java/com/anwesh/uiprojects/multilinetosquarerotview/MultiLineToSquareView.kt:91-99 | without an overshoot only `scale` changes, by `updateValue(dir, lines, lines)`, and nothing is reported; a settle is reported exactly when the stepped scale is more than 1 from `prevScale`, and then the node is idle with `scale == prevScale ==` the reported value; an idle node at rest is unchanged; `Valid` and `abs(scale - prevScale) <= 1` are preserved; from a valid state the reported value is the toggled resting scale `1 - prevScale` |
| `NodeAnimation.Begin` | multilinetosquarerotview/src/main/java/com/anwesh/uiprojects/multilinetosquarerotview/MultiLineToSquareView.kt:101-106 | starts exactly when `dir == 0` and then sets `dir = 1 - 2 * prevScale` (+1 from rest at 0, -1 from rest at 1); never changes `scale` or `prevScale`; changes nothing when `dir != 0`; preserves `Valid` |
| `NodeAnimation.Run` | multilinetosquarerotview/src/main/java/com/anwesh/uiprojects/multilinetosquarerotview/MultiLineToSquareView.kt:91-99 | any number of updates preserves `Valid` and reports at most one settle per update |
| `NodeAnimation.Travelled` | multilinetosquarerotview/src/main/java/com/anwesh/uiprojects/multilinetosquarerotview/MultiLineToSquareView.kt:93 | for a valid animating node, the distance `abs(scale - prevScale)` lies in [0, 1] |
| `NodeAnimation.TicksLeft` | multilinetosquarerotview/src/main/java/com/anwesh/uiprojects/multilinetosquarerotview/MultiLineToSquareView.kt:92-93 | an animating node needs at least one more update |
| `NodeAnimation.StepSizeValue` | multilinetosquarerotview/src/main/java/com/anwesh/uiprojects/multilinetosquarerotview/MultiLineToSquareView.kt:16-17 | the step size 0.0125 (1/80) that the convergence lemmas use equals `scGap / lines` |
| `NodeAnimation.AdvanceMovesOneStep` | multilinetosquarerotview/src/main/java/com/anwesh/uiprojects/multilinetosquarerotview/MultiLineToSquareView.kt:92-93 | for a valid animating node, an update settles exactly when the distance would exceed 1; otherwise it keeps `dir` and adds exactly 0.0125 (`scGap / lines`) to the distance |
| `NodeAnimation.IdleStaysIdle` | multilinetosquarerotview/src/main/java/com/anwesh/uiprojects/multilinetosquarerotview/MultiLineToSquareView.kt:91-93 | any number of updates leaves a valid idle node unchanged and reports nothing |
| `NodeAnimation.StepCountsDown` | multilinetosquarerotview/src/main/java/com/anwesh/uiprojects/multilinetosquarerotview/MultiLineToSquareView.kt:92-93 | an update of a valid animating node that does not settle keeps `dir` and `prevScale` and leaves exactly one tick fewer |
| `NodeAnimation.NotLastTick` | multilinetosquarerotview/src/main/java/com/anwesh/uiprojects/multilinetosquarerotview/MultiLineToSquareView.kt:92-93 | with more than one tick left the next update does not settle |
| `NodeAnimation.QuietBeforeSettle` | multilinetosquarerotview/src/main/java/com/anwesh/uiprojects/multilinetosquarerotview/MultiLineToSquareView.kt:91-98 | fewer than `TicksLeft` updates report no settle and keep `dir` and `prevScale` |
| `NodeAnimation.SettlesAfterTicksLeft` | multilinetosquarerotview/src/main/java/com/anwesh/uiprojects/multilinetosquarerotview/MultiLineToSquareView.kt:91-98 | every valid animating node, after exactly `TicksLeft` updates, has reported exactly one settle, carrying `1 - prevScale`, and is idle there |
| `NodeAnimation.StartThenSettle` | multilinetosquarerotview/src/main/java/com/anwesh/uiprojects/multilinetosquarerotview/MultiLineToSquareView.kt:89-106 | from rest, a start request succeeds and sets `dir` away from `prevScale` (`Started`); the node then needs exactly 81 updates: the first 80 report nothing, and after the 81st it has reported `1 - prevScale` once and is idle there, with `prevScale` toggled |
| `NodeAnimation.FreshStartTicks` | multilinetosquarerotview/src/main/java/com/anwesh/uiprojects/multilinetosquarerotview/MultiLineToSquareView.kt:101-106 | a start from rest succeeds with the state `Started(v)`, which needs exactly 81 updates |
| `NodeAnimation.FreshStartQuiet` | multilinetosquarerotview/src/main/java/com/anwesh/uiprojects/multilinetosquarerotview/MultiLineToSquareView.kt:91-106 | after a start from rest, none of the first 80 updates reports a settle |
| `NodeAnimation.FreshStartSettles` | multilinetosquarerotview/src/main/java/com/anwesh/uiprojects/multilinetosquarerotview/MultiLineToSquareView.kt:91-106 | after a start from rest, the 81st update leaves the node idle at `1 - prevScale`, and that is the only value reported |
| `NodeAnimation.DefaultIsValid` | multilinetosquarerotview/src/main/java/com/anwesh/uiprojects/multilinetosquarerotview/MultiLineToSquareView.kt:89 | the default `State(0, 0, 0)` satisfies `Valid` |
| `NodeAnimation.State.constructor` | multilinetosquarerotview/src/main/java/com/anwesh/uiprojects/multilinetosquarerotview/MultiLineToSquareView.kt:89 | the fields hold the given values, each 0 by default |
| `NodeAnimation.State.Update` | multilinetosquarerotview/src/main/java/com/anwesh/uiprojects/multilinetosquarerotview/MultiLineToSquareView.kt:91-99 | the whole new state and the reported value, equal to `Advance` of the old fields: on overshoot `scale = old prevScale + old dir`, `dir = 0`, `prevScale = scale`, and the new `prevScale` is reported; otherwise only `scale` moves by the step and nothing is reported; preserves `Valid` |
| `NodeAnimation.State.StartUpdating` | multilinetosquarerotview/src/main/java/com/anwesh/uiprojects/multilinetosquarerotview/MultiLineToSquareView.kt:101-106 | equal to `Begin` of the old fields: starts exactly when `old dir == 0`, then `dir = 1 - 2 * prevScale`; `scale` and `prevScale` never change; `dir` is unchanged when it does not start; preserves `Valid` |

## Left out

- Floating point: the source computes in `Float`, with `scDiv` as a `Double`. Here every value is an exact `real`. With IEEE rounding the number of ticks to settle (81 here) may differ by one, and `0.05f` and `0.51` are not exact there.
- ScaleMath.Inverse: requires `n != 0`. In Kotlin `1f / 0` is infinity, which `real` cannot represent. Every caller in the source passes 2 or `lines = 4`.
- The drawing functions `drawSquare`, `drawMultiLineSquare` and `drawMLTSRNode` (MultiLineToSquareView.kt:37-70), and the colour, stroke, size and sweep constants (lines 19-23). They issue `Canvas` and `Paint` calls, and their own layout arithmetic feeds only those calls: the half-width `xGap` (line 38), the rotation angle `sweepDeg * divideScale` (line 40), the line offset `y` (line 42), the row `gap` and the square `size` (lines 61-62) and the stroke width (line 65). Only the `divideScale` they call is modelled.
- The constant `nodes = 5` (line 15). It is used only by the drawing layout (line 61).
- The view overrides `onDraw` and `onTouchEvent` (lines 76-87). They are empty platform stubs.
- `MainActivity.kt`: activity bootstrap and the full-screen flag. MainActivity.kt:12 calls `MultiLineToSquareView.create`, which MultiLineToSquareView.kt does not define.
- The node chain, traversal direction, animator and tick loop. MultiLineToSquareView.kt has no node chain, traversal direction, animator or tick loop. `Run` stands in for "the host calls `update` repeatedly", and only for stating convergence.
- The callbacks themselves, as arbitrary Kotlin closures. Only their invocation and their argument are modelled, as return values.

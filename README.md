# Crystalization walkers in Dafny

A model of the per-frame walker simulation of `crystalization`, a nannou
sketch in Rust. A population of walkers moves across an 889 by 500 canvas.
Each tick, every walker is handled as follows:

- It may turn and it may divide. A child of the division is cloned before the
  advance, turned, and goes first in the walker's group.
- It advances by `velocity * speed`.
- It wraps around the canvas edges. A walker that wraps has its trail cut.
- It reads the pixel of the previous frame under it and dies on pure white.

The update is meant to replace the population by the live walkers of all
groups. As written it leaves the population empty; the second quirk below
says why.

The model has four modules:

- `Canvas`: points as pairs of reals, the canvas size, translation and the
  linear rescaling `map`.
- `Frame`: RGBA8 images, the `f32 as u32` cast, the clamp and flip that pick
  the pixel, and the white test.
- `Agent`: a walker as a value (`WalkerState`) and the class `Walker`, whose
  `Turn` and `Update` change a walker in place.
- `Population`:
  - the wrap and the pixel lookup;
  - the value-level description of one thread's step (`StepSpec`) and of a
    whole tick (`StepAll`, `Survivors`);
  - the method `Step` that carries out one thread's work on a `Walker`
    object;
  - the class `Walkers`, whose `Update` is the source's `Walkers::update`.

`Walkers` holds its population as a sequence of walker values, as the
source's `Vec<Walker>` owns its walkers by value. Each thread works on its
own `Walker` object, built from the value it clones. The values it sends back
are read off that object.

The source's own code has two quirks, and the model keeps both.

- The left-edge branch of the wrap adds `WIDTH` to `y`, not `x`. The model is
  `Wrapped`. `WrappedIntended` is the corrected wrap.
- `Walkers::update` resets the population and only then reads its length as
  the bound of the receive loop. No result is ever received, and the
  population is empty after every update. The model is `Walkers.Update`.
  `Walkers.UpdateCollected` is the corrected collection.

Three facts about the source shape the model:

- The pixel coordinate is truncated by `as u32`, not rounded
  (src/main.rs:159-161).
- The turn factor `draw / 100 * 2 - 1`, with `draw` in [0, 100), lies in
  [-1, 0.98]: it never reaches 1 (src/main.rs:228).
- Death requires a pure white pixel, channels 0, 1 and 2 all at 255. No
  brightness threshold is used (src/main.rs:169).

## Model

| member | source | states |
|---|---|---|
| Canvas.Map | src/main.rs:205-207 | `map` sends `in_min` to `out_min` and `in_max` to `out_max` |
| Canvas.MapAffine | src/main.rs:205-207 | `map` is affine in `i`: the difference of two outputs is the difference of the inputs times the slope |
| Canvas.MapInverse | src/main.rs:205-207 | rescaling onto a range and back again returns the input |
| Canvas.MapWithin | src/main.rs:205-207 | an input inside an increasing input range lands inside the increasing output range |
| Frame.CastU32 | src/main.rs:159-161 | `as u32` truncates: the result is at most `u32::MAX`, is 0 below 1, is the floor inside the range, and saturates above it |
| Frame.SampleColumn | src/main.rs:164 | `pixel_x.min(width - 1)` is a column of the image, never exceeds `pixel_x`, equals it when it is in range, and is the last column otherwise |
| Frame.SampleRow | src/main.rs:165 | `height - 1 - pixel_y.min(height - 1)` is a row of the image; an in-range `pixel_y` is flipped (row + pixel_y == height - 1); anything past the top reads row 0 |
| Frame.IsWhiteIgnoresAlpha | src/main.rs:169 | the death test does not look at channel 3 |
| Agent.TurnFactor | src/main.rs:228 | the factor lies in [-1, 0.98], with -1 only for draw 0 and 0.98 only for draw 99 |
| Agent.TurnAngle | src/main.rs:228-229 | the rotation angle is never larger in magnitude than `angle`; for a non-negative `angle` it lies in [-angle, 0.98 angle] |
| Agent.TurnedKeepsPlace | src/main.rs:227-230 | turning changes only the velocity |
| Agent.AdvancedEffects | src/main.rs:239-242 | advancing sets the trail start to the old position, moves by `velocity * speed`, and keeps the velocity and the dead flag |
| Agent.Walker.constructor | src/main.rs:218-225 | a new walker has the given position and velocity, no trail (`prevPosition == position`) and is alive |
| Agent.Walker.FromState | src/main.rs:108 | the thread's clone of a walker holds exactly that walker's value |
| Agent.Walker.Clone | src/main.rs:133 | the derived clone is a new object with the same fields |
| Agent.Walker.Turn | src/main.rs:227-230 | only the velocity changes; it is rotated by `angle * factor`; the angle is bounded by `angle` |
| Agent.Walker.Update | src/main.rs:239-242 | the new trail start is the old position; the new position is the old `next_position(speed)`; velocity and dead flag are unchanged |
| Population.DefaultChancesFireOnlyOnZero | src/main.rs:95-97 | with the chances `Walkers::new` sets, the turn roll and the division roll both succeed only for draw 0 |
| Population.Wrapped | src/main.rs:142-156 | a taken branch cuts the trail and no branch leaves the walker alone; the right edge moves x back by WIDTH; away from the left edge, y moves by -HEIGHT, by +HEIGHT or not at all as it crosses the top, the bottom or neither; at the left edge, x stays and y becomes `y + WIDTH`, then shifted by -HEIGHT or +HEIGHT when that is past the top or the bottom |
| Population.LeftEdgeWrapMovesY | src/main.rs:145-147 | a walker at (-500, 0) stays outside the canvas at (-500, 389); the intended wrap brings it to (389, 0) |
| Population.WrappedIntended | src/main.rs:142-156 | the corrected wrap moves each coordinate by a whole canvas size or not at all; it brings any point within one canvas size of the canvas onto the canvas; it cuts the trail exactly when it moves the walker |
| Population.SampleIndex | src/main.rs:159-166 | the column and row read for any position are inside the image |
| Population.CentreSample | src/main.rs:159-166 | the centre of the canvas reads column 444, row 249 of a frame of the canvas' size |
| Population.Killed | src/main.rs:169-171 | the walker is dead afterwards exactly when it was dead already or the pixel is white; nothing else changes |
| Population.StepShape | src/main.rs:120-176 | a group has two walkers when the division roll succeeds and one otherwise. The child comes first and keeps the position, trail start and dead flag from before the advance. The last walker keeps the steered velocity and is dead exactly when it was dead or its pixel is white. Either a wrap branch fired and its trail is cut, or none fired and its trail runs from the old position to the old position plus velocity times speed. |
| Population.StepAll | src/main.rs:107-120 | one group per walker, group `i` being walker `i`'s step with its own draws |
| Population.LiveOnly | src/main.rs:187 | the filter drops exactly one element per dead walker |
| Population.LiveOnlyMembers | src/main.rs:187-189 | a walker is kept exactly when it is in the input and not dead |
| Population.LiveOnlyAppend | src/main.rs:182-190 | filtering the concatenation is concatenating the filtered parts, and dead counts add up |
| Population.LiveOnlyKeepsLive | src/main.rs:187 | a sequence of live walkers passes the filter unchanged |
| Population.LiveOnlyIdempotent | src/main.rs:187 | filtering twice is filtering once |
| Population.Survivors | src/main.rs:182-190 | the intended new population has as many walkers as the groups hold minus the dead ones |
| Population.StepAllSize | src/main.rs:130-136 | the groups hold one walker per walker plus one per successful division roll |
| Population.PopulationCount | src/main.rs:120-191 | after a fully collected tick the population is the old size plus the divisions minus the deaths, and no dead walker is kept |
| Population.ReceiveStep | src/main.rs:182-190 | receiving group `k` appends its live walkers to the live walkers of the groups before it |
| Population.WrapAround | src/main.rs:142-156 | the four wrap branches on the thread's walker give `Wrapped` of its old value |
| Population.TestPixel | src/main.rs:159-171 | the pixel lookup and death test on the thread's walker give `Killed` of its old value with the pixel under its position |
| Population.Step | src/main.rs:120-176 | the values one thread sends, in order, are the group `StepSpec` describes |
| Population.Walkers.constructor | src/main.rs:92-101 | one live walker at (0, -250) heading up, turn chance 0.01 by up to pi/3, division chance 0.00001 by up to pi/4 |
| Population.Walkers.Dispatch | src/main.rs:107-120 | the results of the fan-out are the groups `StepAll` describes for the population and its settings |
| Population.Walkers.Collect | src/main.rs:182-191 | receiving the first `n` results appends their live walkers, in order, and keeps the settings |
| Population.Walkers.Update | src/main.rs:103-196 | as written, the population is empty after every update, and the settings are unchanged |
| Population.Walkers.UpdateCollected | src/main.rs:103-196 | with the receive loop bounded by the number of threads, the new population is the survivors of `StepAll` on the old population |
| Population.DarkSample | src/main.rs:159-171 | on a frame with no white pixel, every position reads a pixel that is not white |
| Population.FirstTickOnDarkFrame | src/main.rs:120-176 | from `Walkers::new(0.5)` on a frame with no white pixel and no roll succeeding, the intended collection keeps one walker at (0, -249.5) with its trail from (0, -250) |

## Left out

- Threads, the `mpsc` channel and `join` are not modelled. The fan-out is a loop over the walkers in order, and the fan-in receives the groups in that order. In the source the groups arrive in the order the threads finish.
- The `join` panic is not modelled. It has no recoverable behaviour.
- `rand::thread_rng` is replaced by integer draws in [0, 100), passed in as `Draws`, one record per walker.
- `Vec2::rotate` is trigonometry. It is a parameter `rotate` of every operation that turns a walker, and nothing is proved about what it computes.
- `f32` arithmetic is modelled on exact reals: rounding, infinities and NaN are not modelled.
- Canvas.Map: requires `in_max != in_min`. In `f32` that division yields an infinity or NaN, and every caller passes a range of width WIDTH or HEIGHT.
- Population.SampleIndex, Population.SampleAt, Population.StepSpec, Population.StepShape, Population.TestPixel, Population.Step: require a frame with at least one pixel. With a zero width or height, `img_width - 1` underflows in the source. A debug build panics there; in a release build the wrapped index makes `get_pixel` panic.
- Population.StepAll, Population.StepAllSize, Population.PopulationCount, Population.Walkers.Dispatch, Population.Walkers.Update, Population.Walkers.UpdateCollected: require a frame with at least one pixel only when there is a walker to step. With an empty population the source samples nothing, so any frame is accepted.
- Reading and decoding the previous frame's PNG, `to_rgba8`, `main`, `model`, `view`, `captured_frame_path` and the two `draw` methods are not modelled. They are window, file and rendering I/O through nannou. The frame is an `Image` parameter.
- The `.map(|w| w.clone())` of the receive filter is not modelled as a separate step. The population holds walker values, and a clone of a value is that value.
- Agent.Walker.NextPosition: in the source `next_position` takes `&mut self` without changing anything. It is a function that reads the walker.

## Findings

| source | as written | input that shows it | evidently intended | confidence | as-written member | corrected member |
|---|---|---|---|---|---|---|
| src/main.rs:146 | the left-edge branch of the wrap adds `WIDTH` to `position.y` | a walker at (-500, 0) ends at (-500, 389), still off the canvas | add `WIDTH` to `position.x`, giving (389, 0) | high; not executed | Population.LeftEdgeWrapMovesY | Population.WrappedIntended |
| src/main.rs:181-182 | the receive loop runs `0..self.walkers.len()` after `self.walkers = vec![]`, so it runs zero times | `Walkers::new(0.5)` then one update on an all-black frame with no roll succeeding: the walker survives its step, but the population is empty | bound the loop by the number of threads spawned | high; not executed | Population.Walkers.Update | Population.Walkers.UpdateCollected |

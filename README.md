# BreakingParticles: the particle bookkeeping engine, in Dafny

This project models the core of a block-breaker game for the PlayStation Portable
(`main.cpp`). The playfield is a grid of one-pixel particles. Each particle is a
block, falling debris, a ball, or deleted. Balls break blocks. The paddle ("bar")
catches debris and relaunches it as new balls. The game is cleared when no block
is left.

The model covers:

- the particle state machine and the three `Worker` transitions (`BreakParticle`,
  `MakeBall`, `RemoveParticle`), which update a particle's state and the `Counter`
  fields `m_block`, `m_fall` and `m_ball` together;
- the per-tick dispatch `Worker::operator()`, including the discrete rules of
  `UpdateFallBlock` and `UpdateBall`, and the sweep of `BlockBreaker::Update` with
  its one-way `m_cleared` latch;
- the row-major playfield `Blocks`, its constructor and its cell lookup
  `GetParticle`, with the `uint32_t` index arithmetic written out;
- the paddle `Bar`: the wrap-around hit test `IsHited`, the clamped moves
  `MoveRight` and `MoveLeft`, and `Update`;
- the edge-locked toggle `CheckKey`, and the frame counter `Fps`.

Layout, one module per component:

| file | module | models |
|---|---|---|
| `ints.dfy` | `Ints`, `Screen` | `uint8/16/32_t` values with explicit wrap-around; the fixed 480×272 screen |
| `options.dfy` | `Options` | a nullable pointer as `Option` |
| `particles.dfy` | `Particles` | `Particle`, its `State`, and per-state tallies |
| `bookkeeping.dfy` | `Bookkeeping` | `Counter` and the three transitions, on a snapshot `Field` of particles and counter |
| `playfield.dfy` | `Playfield` | `Blocks` (class over an `array`), `GetParticle` |
| `paddle.dfy` | `Paddle` | `Bar` (class), its hit test and moves |
| `simulation.dfy` | `Simulation` | `UpdateFallBlock`, `UpdateBall`, `operator()` and the sweep, as functions on `Field` |
| `breaker.dfy` | `Breaker` | `BlockBreaker` (class): counters, transitions and `Update` as methods proved against `Simulation` |
| `keys.dfy` | `Keys` | `CheckKey` |
| `frame_clock.dfy` | `FrameClock` | `Fps` (class) |

The state that the source updates in place is modelled imperatively:

- `Blocks.cells` is the particle vector, as an `array<Particle>`. A `Particle&` is a
  slot index.
- `BlockBreaker` holds the counters and the latch as fields. Its methods mutate the
  array and those fields.
- `Bar` holds `m_x` and `m_speedup`.

Each method's `ensures` says that its new state (`Snap()`) equals a function of the
old state in `Bookkeeping` or `Simulation`. The lemmas prove what those functions
promise. The main invariant is `Tallied`: each counter equals the number of
particles in its state. From it, `GetRemovedBallCount` equals the number of Deleted
particles and never wraps.

The float geometry is not modelled. For each particle, a tick's sample (`Env`)
gives what the float motion decides:

- the cell that the new position converts to;
- whether the particle is left of, right of, above or below the screen;
- the random draws, and the cosine of the deflection angle.

Velocities are `real`s. The model keeps the source's exact sign rules: edge bounces,
the reversal on striking a block, and `vy = -|vy|` over the bar.

Behaviours of the code that a reader might not expect. The model follows the code in
each of them:

- `BreakParticle` raises `m_fall` even when the particle was not a Block, and
  `MakeBall` raises `m_ball` even when it was not a Fall. They are not no-ops on
  other states. `BreakOfFallBreaksTally` shows the counter then drifts. Every call
  site passes a Block (respectively a Fall).
- `RemoveParticle` on a Block deletes it without lowering `m_block`
  (`RemoveOfBlockBreaksTally`). No call site does this.
- The ball's sub-step count `0.5^(vx²+vy²)` is at most 1. The sub-step loop therefore
  runs once, or not at all when the count underflows to 0 (`BallSample.Still`). It
  is never a multi-step loop.
- `BlockBreaker` is built over a freshly constructed `Blocks`, in which every slot is a
  Block: its counter starts `m_block` at the vector's size on that assumption.
- `m_cleared` is set after any tick that ends with the block count at 0, whatever the
  fall and ball counts are.
- `GetRandSafe` is `(GetRand(98) + 1) / 10`. With `GetRand(n)` returning 0..n, the
  values are 0.1..9.9.
- The ball's sub-step does not return after `RemoveParticle`: the bar rule that follows
  is still evaluated. With the source's geometry it never fires then, because a ball
  below the screen converts to a row at or past the bottom edge, outside the bar's rows
  `[H - height, H)`. The model's sample does not tie "below the screen" to the converted
  row, so it allows a removed ball's `vy` to be set in that sub-step. "Deleted particles
  never change" is therefore stated from the next visit on (`Advances`).

## Model

| member | source | states |
|---|---|---|
| `Particles.NewParticle` | main.cpp:203-206 | a new particle is a Block at the given position |
| `Particles.CountPartition` | main.cpp:356-362 | the Block, Fall, Ball and Deleted tallies add up to the number of particles |
| `Bookkeeping.RemovedCountIsDeleted` | main.cpp:356-362 | under the counter invariant, `size - block - fall - ball` (in `uint32_t`) is the number of Deleted particles, so it never wraps |
| `Bookkeeping.BreakKeepsTally` | main.cpp:417-424 | breaking a Block makes it Fall, lowers the block count by 1, raises the fall count by 1, keeps the ball count, and keeps the counter invariant |
| `Bookkeeping.BreakOfFallBreaksTally` | main.cpp:417-424 | because `m_fall += 1` is unconditional, breaking a particle that is already Fall breaks the counter invariant |
| `Bookkeeping.MakeBallKeepsTally` | main.cpp:425-432 | making a Fall a Ball lowers the fall count by 1, raises the ball count by 1, keeps the block count and the counter invariant |
| `Bookkeeping.RemoveKeepsTally` | main.cpp:404-416 | for any state but Block (that case is `RemoveOfBlockBreaksTally`), removal leaves the particle Deleted; it reports true exactly for Fall or Ball and lowers exactly the matching count; it keeps the invariant for every state except Block |
| `Bookkeeping.RemoveOfBlockBreaksTally` | main.cpp:404-416 | removing a Block reports false, leaves the particle Deleted and every count unchanged, so the block count is one above the number of blocks |
| `Bookkeeping.RemoveTwiceIsNoOp` | main.cpp:404-416 | a second removal of the same particle reports false and changes nothing |
| `Playfield.Blocks.constructor` | main.cpp:290-306 | the vector has `w*h+1` slots, all Block; slot `i + j*w` holds the particle at (i, j); the trailing slot holds the default particle at (200, 200) |
| `Playfield.Blocks.GetParticle` | main.cpp:314-322 | returns the slot `x + y*w` (computed in `uint32_t`), and not-found exactly when that index is at least the number of slots |
| `Playfield.Lookup` | main.cpp:316-321 | the found slot is within the vector, and not-found is returned exactly when the wrapped index is past the last slot |
| `Playfield.LookupInGrid` | main.cpp:314-322 | for i < w and j < h, the lookup finds slot `i + j*w`, with no wrap-around |
| `Playfield.Blocks.PristineCellHoldsItsBlock` | main.cpp:294-322 | in a freshly built field, every grid cell (i, j) with i < w, j < h is found, and holds a Block stored at (i, j) |
| `Playfield.FoundBlockSitsInCell` | main.cpp:314-322 | if blocks sit in their cells and the index does not wrap, a Block found at (x, y) with x < w has stored position (x, y) |
| `Paddle.UnsignedWithin` | main.cpp:236 | the unsigned test `v - lo < extent` holds exactly when `lo <= v < lo + extent`, for every 32-bit v |
| `Paddle.Rect.Contains` | main.cpp:232-237 | the two unsigned tests hold exactly when the point is inside the rectangle `[x, x+width) × [y, y+height)` |
| `Paddle.Bar.IsHited` | main.cpp:232-237 | the hit test of the bar's current rectangle is the interval test on both axes |
| `Paddle.MoveRightClamps` | main.cpp:245-253 | when `width + step <= W`, `MoveRight` yields `min(x + step, W - width)` from any start |
| `Paddle.MoveLeftX` | main.cpp:255-263 | `MoveLeft` yields `max(x - step, 0)` |
| `Paddle.UpdateKeepsBarOnScreen` | main.cpp:265-276 | a bar within `[0, W - width]` stays there through `Update` when the tick's step fits |
| `Paddle.Bar.constructor` | main.cpp:222-229 | the bar starts centred (x = W/2), `height` above the bottom, with its size, speed and rate; on screen when `width <= W/2` |
| `Paddle.Bar.SetSpeedUpFlag` | main.cpp:240-243 | sets and returns the flag |
| `Paddle.Bar.MoveRight` | main.cpp:245-253 | the new `m_x` is the as-written wrap-around computation; the bar is on screen afterwards when the step fits |
| `Paddle.Bar.MoveLeft` | main.cpp:255-263 | the new `m_x` is `max(x - step, 0)`; the bar stays on screen |
| `Paddle.Bar.Update` | main.cpp:265-279 | the speed-up flag is recomputed from the triggers on every call; right takes priority over left; neither leaves `m_x` unchanged |
| `Simulation.RandSafe` | main.cpp:68-71 | a draw maps into 0.1 .. 9.9 |
| `Simulation.Visit` | main.cpp:522-544 | a Block (only drawn) or a Deleted particle leaves the whole field and counter unchanged |
| `Simulation.UpdateFallKeepsTally` | main.cpp:440-460 | the falling-particle update keeps the counter invariant and the block count, and only moves states forward |
| `Simulation.FallCaught` | main.cpp:448-455 | a falling particle in the bar's rectangle becomes a Ball with vx > 0 and vy > 1; the fall count drops by 1 and the ball count rises by 1 |
| `Simulation.FallLost` | main.cpp:456-459 | a falling particle that misses the bar and is below the screen ends Deleted, and the fall count drops by exactly 1 |
| `Simulation.StrikeBlockKeepsTally` | main.cpp:474-496 | a ball's block collision keeps the counter invariant and leaves the ball a Ball; it lowers the block count by 1 when the cell holds a Block and changes nothing otherwise |
| `Simulation.BallBreaksBlock` | main.cpp:474-496 | a Block found at the ball's cell becomes Fall with vy = 1; the block count drops by 1 and the fall count rises by 1 |
| `Simulation.BounceKeepsTally` | main.cpp:498-516 | the edge, bottom and bar rules keep the counter invariant and the block count |
| `Simulation.BallSignRules` | main.cpp:494-516 | a ball's sub-step only flips the signs of vx and vy (magnitudes kept), and over the bar it leaves with vy <= 0 |
| `Simulation.UpdateBallKeepsTally` | main.cpp:462-519 | the ball update keeps the counter invariant, never raises the block count, and only moves states forward |
| `Simulation.VisitKeepsTally` | main.cpp:522-544 | the dispatch keeps the counter invariant and never raises the block count; no Deleted particle changes and no particle becomes a Block |
| `Simulation.SweepKeepsTally` | main.cpp:551-554 | a whole sweep in storage order keeps the counter invariant, never raises the block count, and leaves Deleted particles untouched |
| `Simulation.AdvancesKeepsSettled` | main.cpp:294-305 | since blocks never change, every Block stays in the grid cell it was given at construction |
| `Breaker.BlockBreaker.constructor` | main.cpp:375-390 | after construction block = w*h, fall = 0, ball = 1; the last slot is a Ball at the screen centre launched with random velocity; the counter invariant holds |
| `Breaker.BlockBreaker.GetBlockCount` | main.cpp:344-347 | in a valid game, the number of Blocks |
| `Breaker.BlockBreaker.GetFallCount` | main.cpp:348-351 | in a valid game, the number of Fall particles |
| `Breaker.BlockBreaker.GetBallCount` | main.cpp:352-355 | in a valid game, the number of Balls |
| `Breaker.BlockBreaker.GetRemovedBallCount` | main.cpp:356-362 | in a valid game, the number of Deleted particles (no wrap-around) |
| `Breaker.BlockBreaker.IsCleared` | main.cpp:604-607 | once the latch is set, a valid game has block count 0 and no Block left |
| `Breaker.BlockBreaker.RemoveParticle` | main.cpp:404-416 | the in-place removal on slot k, as `AfterRemove` |
| `Breaker.BlockBreaker.BreakParticle` | main.cpp:417-424 | the in-place break on slot k, as `AfterBreak` |
| `Breaker.BlockBreaker.MakeBall` | main.cpp:425-432 | the in-place ball-making on slot k, as `AfterMakeBall` |
| `Breaker.BlockBreaker.UpdateFallBlock` | main.cpp:440-460 | the in-place falling-particle update, as `Simulation.UpdateFallBlock` |
| `Breaker.BlockBreaker.StrikeBlock` | main.cpp:474-496 | the in-place block collision, as `Simulation.StrikeBlock` |
| `Breaker.BlockBreaker.Bounce` | main.cpp:498-516 | the in-place edge, bottom and bar rules, as `Simulation.Bounce` |
| `Breaker.BlockBreaker.UpdateBall` | main.cpp:462-519 | the in-place ball update, as `Simulation.UpdateBall` |
| `Breaker.BlockBreaker.Visit` | main.cpp:522-544 | the in-place dispatch keeps the game invariant and only moves states forward |
| `Breaker.BlockBreaker.Update` | main.cpp:548-591 | the sweep, then the bar update, keep the game invariant; afterwards `m_cleared` is true exactly when it was already true or the block count is 0; nothing resets it |
| `Keys.Press` | main.cpp:647-661 | after a call the lock equals the key state |
| `Keys.CheckKey` | main.cpp:647-661 | a press with no lock flips the flag and locks; a press while locked changes nothing; a release unlocks and keeps the flag; the flag is returned |
| `Keys.RunFlipsOncePerPress` | main.cpp:647-661 | over any sequence of frames the flag flips once per key-down edge, and the lock ends equal to the last key state |
| `Keys.HoldFlipsOnce` | main.cpp:647-661 | holding the key for any number of frames from unlocked flips the flag exactly once |
| `FrameClock.Fps.constructor` | main.cpp:621-624 | starts with no frames counted, the window opened now, and rate 0 |
| `FrameClock.Fps.GetFps` | main.cpp:640-643 | the published rate, never negative |
| `FrameClock.Fps.Update` | main.cpp:626-638 | counts the frame; after 1000 ms it publishes the count and opens a new window; it returns the running count |

## Left out

- Float motion: the position updates in `UpdateFallBlock` and `UpdateBall` (`x += vx`,
  `x += vx / bspeed`) are not modelled. Positions are tracked only at construction, so
  only a Block's stored position is meaningful. Velocity arithmetic is exact `real`
  arithmetic, not IEEE single precision.
- `vfpu_powf`, `vfpu_atan2f`, `vfpu_cosf`: the sub-step count, the direction angle and
  the deflection cosine. The sample says whether the sub-step runs and gives the
  cosine value.
- Float-to-`uint32_t` conversions of positions, which are undefined for negative values
  in C++: the converted cell is a parameter of each sample.
- `HSV2RGB` and particle and bar colours: cosmetic only.
- `GetRand`, the platform's random source: it is not part of this model, and its draws
  are parameters in 0..98.
- `Psp::allocator`: kernel memory calls.
- Drawing (`DrawPixel`, `DrawBox`), text output (`printfDx`, `clsDx`, the "CLEAR!"
  banner), `Sleep`, and the `main` loop with its pause and debug toggles.
- `GetInputState` is read up to three times in `Bar::Update`. The model samples the
  input once per tick (`Input`).
- `Screen`'s process-wide width and height are the fixed constants 480 and 272.
- The default `Particle` constructor leaves `m_vx` and `m_vy` uninitialised. The model
  starts them at 0, so a struck block's `±3` factor is taken as positive.
- `Paddle.Bar.constructor`: does not state the initial `speedup`. The source's initialiser
  list leaves `m_speedup` uninitialised, so the model leaves it unconstrained. `Update`
  sets it before `MoveRight` or `MoveLeft` reads it.
- `Paddle.MoveRightClamps`: the clamp holds only when `width + step <= W`. Otherwise
  the as-written `uint32_t` guard wraps, and the bar is moved past the edge. The shipped
  configuration (width 120, step at most 18, W = 480) always meets the condition.
- `Fps` counters are unbounded integers. The source's 32-bit `int` overflow is not
  modelled.
- `Blocks::GetBlocks` and `BlockBreaker::GetCounter`: plain accessors, modelled as
  direct field access.

# Endless faller: a Dafny model of the gameplay simulation

This project models the simulation inside `main()` of a small raylib
arcade game. In the game, a player rectangle jumps between procedurally
scattered platforms that scroll down the screen, and the score is the
survival time. The model pulls the simulation out of the render loop. Each
part becomes a pure function over an immutable `Game` record:

- **Layout**: generates the platform field. There are four rows of 1 to 5
  platforms each. They are stored in one flat sequence through a running
  index.
- **Scroller**: moves every platform down and recycles the ones that pass
  the screen bottom. It also applies the difficulty ramp. It runs only after
  the first jump.
- **Collision**: the swept bottom-edge landing test. It scans row by row and
  the first full match wins. It keeps the source's fallback rule for the
  on-ground flag.
- **Physics**: jump, gravity and horizontal movement, plus the loss
  condition at the ground line.
- **Frame**: the START / GAMEPLAY / GAME_OVER screen machine, an invariant
  that every reachable state satisfies, and the runs of many frames.

The source's `float` arithmetic becomes Dafny `real`, so comparisons such
as `player.y != 750` are exact. These become inputs:

- every random draw (`GetRandomValue`, `LoadRandomSequence`);
- every key state;
- the frame time `dt`.

The draws are constrained to the ranges the source requests.

In three places the code does something a reader might not expect, and the model follows the code:

- Retrying from GAME_OVER resets only `isOnGround`, `player.y` and
  `velocityY`. The scroll speed, jump impulse, gravity and move speed keep
  their ramped values. `Frame.StepRampMonotone` states this: no frame ever
  lowers the difficulty.
- A jump from rest applies gravity in the same frame. After that frame the
  velocity is `jumpforce + gravity*dt`, not `jumpforce` (`Physics.JumpFromGround`).
- Each row's slots come from `LoadRandomSequence(n, 0, n)`. The model assumes
  only that these are n distinct values between 0 and n. That covers both a
  permutation of 0..n-1 and raylib's inclusive upper bound.

## Model

| member | source | states |
|---|---|---|
| Layout.Generate | src/main.cpp:43-66 | `total` is the sum of the four row counts and lies in [4,20]. Every array write is in bounds. `count` ends at `total`. The array holds the rows' platforms in row order. |
| Layout.TotalBounds | src/main.cpp:44-53 | Four counts, each in [1,5], sum to a total between 4 and 20. |
| Layout.FieldAt | src/main.cpp:57-64 | Flat index `RowStart(i)+j` holds the platform that row i placed for its j-th slot draw and width draw. |
| Layout.RowOf | src/main.cpp:54-64 | Every flat index below `total` falls inside the running-index range of the row it returns. That this row is the only one follows from `Layout.FlatIndexInjective`. |
| Layout.FlatIndexInjective | src/main.cpp:54-64 | Two different (row, column) pairs never get the same flat index. So every slot of the array is written exactly once. |
| Layout.RowGeometry | src/main.cpp:57-64 | A platform of row i has y = 200*i + 20 and height 20. Its x is 200 times its drawn slot, which is one of the six slot positions. Its width is in [100,150]. |
| Layout.RowXDistinct | src/main.cpp:58-62 | Given distinct slot draws, no two platforms of the same row share an x. |
| Session.Initial | src/main.cpp:33-41 | The player is a 50 by 50 square at x = 100 on the ground line, at rest and on the ground. The scroll has not started and the survival time is 0. The move speed is 400, the scroll speed 100 and the jump impulse -600. Gravity equals the impulse squared over 800, which is 450. |
| Scroller.Scroll | src/main.cpp:85-101 | With `gameStart` clear, nothing changes. Otherwise these are kept: the platform count, the row counts, the player, the velocity, the on-ground flag and the screen. |
| Scroller.ScrollPlatforms | src/main.cpp:87-95 | After an active scroll step every platform keeps its height and has y <= 800. A platform that passed 800 is back at y = 10, in one of the six slots, with a width in [100,150]. Any other platform moved down by exactly `platformSpeed*dt` and kept its x and width. |
| Scroller.ScrollRamp | src/main.cpp:96-100 | An active step adds exactly 0.1 to the scroll speed, 0.5 to the move speed and `dt` to the survival time. It subtracts 0.7 from the jump impulse. Gravity is then the new impulse squared over 800. |
| Scroller.RampOverScrollSteps | src/main.cpp:96-100 | Over N consecutive active scroll steps the ramp grows linearly: scroll speed +N/10, move speed +N/2, jump impulse -7N/10, survival time + the sum of the step times. Gravity still tracks the impulse. This is about the scroll step alone: a full gameplay frame that ends in a loss also resets the survival time to 0. |
| Collision.FirstLanding | src/main.cpp:104-126 | Returns the first index, in flat scan order, where the swept crossing test and the horizontal overlap both hold, with no full match before it. It returns None only when no platform matches. |
| Collision.Resolve | src/main.cpp:102-127 | On the first full match, y snaps to that platform's top minus the player's height. The snapped y lies between the old y and the tentative new y. The velocity becomes the scroll speed and the player is on the ground. With no match, position and velocity are kept. The player is then off the ground if y != 750. At y == 750 the flag stays as it was unless some crossing without overlap occurred. x, the sizes and all other state are never changed. |
| Collision.ScanRows | src/main.cpp:102-127 | The nested row/column scan, with its running index, breaks and in-loop flag clearing, computes exactly `Resolve`. It reports a collision iff some platform fully matches. |
| Collision.NoLaterPlatformExamined | src/main.cpp:117-125 | Once the first full match is at index k, replacing everything after k leaves the outcome unchanged. |
| Physics.Step | src/main.cpp:128-152 | A jump happens only when space is pressed on the ground. Airborne, the velocity gains `gravity*dt` and y gains the new velocity times `dt`. Reaching y >= 750 gives GAME_OVER with the scroll stopped and the survival time 0. Otherwise the screen and survival time are kept, and `gameStart` is set by a jump. On the ground nothing vertical changes. x moves by `speed*dt` for each arrow key held. Platforms and ramp values are untouched. |
| Physics.JumpFromGround | src/main.cpp:128-136 | Take rest on the ground with the initial constants and a frame shorter than 4/3 s. Pressing space then gives velocity -600 + 450*dt < 0. The player rises off the ground, the scroll starts, and play continues. |
| Frame.Step | src/main.cpp:74-181 | Space on START changes only the screen. Space on GAME_OVER returns to GAMEPLAY: on the ground, y = 750, velocity 0, with platforms, x and all ramp values untouched. Without space neither screen changes anything. |
| Frame.Play | src/main.cpp:84-152 | A gameplay frame keeps the platform count and the row counts. |
| Frame.InitialInv | src/main.cpp:33-66 | The initial state built from any valid generated field satisfies the game invariant. |
| Frame.ScrollKeepsPlatforms | src/main.cpp:85-95 | Scrolling keeps every platform 20 high and 100 to 150 wide, in one of the six slots, with 10 <= y <= 800. |
| Frame.StepPreservesInv | src/main.cpp:67-186 | Every frame, on every screen and for every valid input, preserves the invariant. |
| Frame.StepRampMonotone | src/main.cpp:74-181 | No frame lowers the scroll speed, the move speed or the gravity. No frame weakens the jump impulse, and that includes a retry. |
| Frame.LossEndsGame | src/main.cpp:133-143 | A gameplay frame that ends airborne at or below the ground line ends the game, stops the scroll and zeroes the survival time. |
| Frame.RidingPlatform | src/main.cpp:87-119 | Suppose the player stands on a platform moving at the scroll speed, the platform is not recycled and the player still overlaps it. Then in the next frame the landing test matches that platform again. The scan leaves the player on the ground at the scroll speed. It snaps the player onto that platform unless an earlier platform in scan order also lands, in which case the earlier one wins. |
| Frame.Run | src/main.cpp:67-186 | A run of frames keeps the platform count. |
| Frame.RunPreservesInv | src/main.cpp:67-186 | The invariant survives any number of frames. |
| Frame.ReachableInv | src/main.cpp:33-186 | Every reachable state satisfies the invariant, from any generated field through any input sequence. |

## Left out

- Window, vsync, resource directory and texture setup and teardown: raylib I/O with no game logic.
- All drawing: `DrawText`, `MeasureText` centring, the score text and `DrawRectangleRec`. They are rendering side effects only.
- `GetRandomValue`, `LoadRandomSequence` and `MemFree` internals: each draw is an input in its stated range.
- `GetFrameTime`, `IsKeyPressed`, `IsKeyDown` and `WindowShouldClose`: inputs to the frame (dt >= 0, booleans). The loop's exit is outside the model.
- Recycle draws: each platform has its own (slot, width) pair, used only if that platform is recycled. The source instead takes successive values from one random stream. Since every value in range is allowed, both admit the same outcomes.
- IEEE single-precision rounding: the model proves properties of the intended real arithmetic, not of binary32 behaviour.
- `check_platform` (src/main.cpp:193-221): it is never called.
- Scroller.Scroll: the ramp values of an active step are stated by `Scroller.ScrollRamp` and the per-platform outcome by `Scroller.ScrollPlatforms`, not in Scroll's own contract.

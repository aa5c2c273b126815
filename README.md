# Endless runner game loop, in Dafny

A model of the game logic in the `Game` component of an endless-runner arcade
game (`mini-app/components/game.tsx`). A 30 × 30 cube sits at x = 200 on the
floor or the ceiling of an 800 × 400 canvas, and clicks flip gravity.
Obstacles scroll in from the right edge. The game state has six parts:
`score`, `speed`, `gravity` (±1), the `obstacles` list, `gameOver`, and the
spawn accumulator `obstacleTimer`. In the source the accumulator is a local of
the loop's closure. Here it is a field.

Two modules:

- `GameModel` (file `game_model.dfy`) covers the pure part. It holds the
  constants, the `Rect`/`Obstacle` and `State` datatypes, the player box, the
  strict AABB overlap test, and the obstacle step as a map-then-filter
  (`ShiftAll`, then `KeepVisible`). It also has the spawned pair and the four
  transitions as functions on `State`: `Step` is Tick, then `Flip`,
  `Collide` and `Initial`. The lemmas about them are here too.
- `GameEngine` (file `game_engine.dfy`) holds the class `Game`. It has the six
  fields, which `Tick`, `FlipGravity`, `CheckCollision` and `Restart` update in
  place. Each method's postcondition equates the new `View()` with the
  matching `GameModel` transition of the old one. `CheckCollision` is the
  source's scan loop, which returns early on the first hit.

Positions, speed, score and frame time are exact `real`s. The random bit at
game.tsx:55 is the `isTop` parameter of `Tick`. The frame time `dt` is a
parameter.

One consequence follows from the code and is proved here
(`PairedHitIsColumnHit`, `CollisionIgnoresGravity`,
`CollideCommutesWithFlip`):

- Every spawn puts one obstacle in each band at the same x.
- Both halves of a pair leave the screen together.
- So in any reachable state, whether the player is hit does not depend on
  gravity: a flip never lets the player dodge a pair.

This runs against the evident aim of dodging by flipping. It is recorded as a
property of the code as written, because the intended spawn rule is not known.

Three behaviours of the code that a reader might not expect:

- The spawn test at game.tsx:53 is strict (`>`). So from a fresh timer,
  `Tick(600)` does not spawn. It leaves the timer at 600, speed at 0.28 and
  score at 6 (`StepFromInitial`). A frame of 600.001 ms does spawn.
- The click handler (game.tsx:23) negates gravity with no `gameOver` guard.
  So `FlipGravity` flips after game over too.
- `checkCollision` (game.tsx:116-135) does not test `gameOver` itself; only
  its polling loop does. `Collide` is therefore unguarded. After a hit the
  list is empty, so a repeated call changes nothing.

## Model

| member | source | states |
|---|---|---|
| GameModel.CubeY | mini-app/components/game.tsx:39-40 | the player's top edge leaves a gap of 10 below it on the floor (gravity 1) and is 10 below the ceiling for any other gravity |
| GameModel.PlayerBox | mini-app/components/game.tsx:117-122 | the player box is a 30 × 30 square at x = canvas width / 4 whose y comes from gravity; it lies strictly inside the 400-high canvas |
| GameModel.OverlapsIffCommonInteriorPoint | mini-app/components/game.tsx:124-129 | for rectangles of positive size, the four-condition overlap test holds exactly when they share an interior point |
| GameModel.TouchingIsNotOverlap | mini-app/components/game.tsx:124-129 | the comparisons are strict, so rectangles that only touch along an edge do not collide |
| GameModel.PlayerBands | mini-app/components/game.tsx:40-64 | on the floor the player shares rows with the y = 370 band and not the y = 10 band; for any other gravity it is the reverse |
| GameModel.CollisionScenario | mini-app/components/game.tsx:117-129 | a bottom-band obstacle at x = 100 (right edge 120) misses the floor player at 200..230; one at x = 210 hits it |
| GameModel.DisplayedScore | mini-app/components/game.tsx:100 | the score drawn is the integer part of score: n ≤ score < n + 1 |
| GameModel.KeepVisible | mini-app/components/game.tsx:48 | the filter keeps exactly the obstacles with x + width > 0 and never lengthens the list |
| GameModel.KeepVisibleAppend | mini-app/components/game.tsx:48 | the filter distributes over concatenation, so it keeps relative order |
| GameModel.MoveObstaclesMembers | mini-app/components/game.tsx:45-49 | every kept obstacle is an old one moved left by speed with y, width and height unchanged; a moved obstacle is kept exactly when x + width > 0 |
| GameModel.MoveObstaclesOrder | mini-app/components/game.tsx:45-49 | moving works obstacle by obstacle in order: move(a + b) = move(a) + move(b), and one obstacle survives exactly when its shifted copy is visible |
| GameModel.TravelBound | mini-app/components/game.tsx:47 | over successive frames at speeds of at least 0.25, an obstacle moves left by at least 0.25 per frame and keeps its y, width and height |
| GameModel.ObstacleLifetime | mini-app/components/game.tsx:45-49 | no obstacle stays for ever: one at x ≤ 800 with width 20 is off screen after 3280 frames at speeds of at least 0.25 |
| GameModel.SpawnPair | mini-app/components/game.tsx:55-67 | a spawn is two 20 × 20 obstacles at x = 800, one at y = 10 and one at y = 370; the random bit picks which comes first |
| GameModel.SpawnPairIsPair | mini-app/components/game.tsx:55-68 | a spawn is a well-formed pair: same x, both bands, spawned size |
| GameModel.PairedAppend | mini-app/components/game.tsx:68 | appending a pair list to a pair list gives a pair list |
| GameModel.ShiftAllPaired | mini-app/components/game.tsx:47 | moving left by a non-negative speed keeps the list made of pairs |
| GameModel.KeepVisiblePaired | mini-app/components/game.tsx:45-49 | both halves of a pair leave the screen together, so filtering keeps the list made of pairs |
| GameModel.PairedHitIsColumnHit | mini-app/components/game.tsx:116-134 | over a list of pairs, the player (gravity ±1) is hit exactly when some obstacle shares its columns |
| GameModel.CollisionIgnoresGravity | mini-app/components/game.tsx:116-134 | over a list of pairs, a hit with gravity 1 happens exactly when a hit with gravity -1 does |
| GameModel.InitialIsValid | mini-app/components/game.tsx:15-19 | the initial state has score 0, speed 0.25, gravity 1, no obstacles, not over, and satisfies the state invariant |
| GameModel.StepInertWhenOver | mini-app/components/game.tsx:42-43 | a frame after game over changes nothing: no motion, no spawn, no speed or score change, timer untouched |
| GameModel.StepSpawnRule | mini-app/components/game.tsx:52-69 | a pair is appended after the moved obstacles exactly when timer + dt > 600, and the timer then restarts at 0; otherwise nothing is appended and the timer grows by dt |
| GameModel.StepRamps | mini-app/components/game.tsx:71-75 | speed grows by dt · 0.00005 and score by dt · 0.01; for dt ≥ 0 neither decreases; gravity and gameOver are untouched |
| GameModel.StepFromInitial | mini-app/components/game.tsx:52-75 | from the initial state a 600 ms frame gives speed 0.28, score 6, timer 600 and no spawn; a 600.001 ms frame spawns a pair |
| GameModel.StepPreservesValid | mini-app/components/game.tsx:42-76 | a frame with dt ≥ 0 keeps the invariant: gravity ±1, speed ≥ 0.25, score ≥ 0, timer in [0, 600], the list made of pairs, every obstacle visible, and no obstacles once the game is over |
| GameModel.StepMovesObstacles | mini-app/components/game.tsx:45-68 | in a running reachable game, each obstacle after a frame is an old one moved left by the current speed (so by at least 0.25), or a fresh spawn, which only happens when the timer fires |
| GameModel.FlipInvolution | mini-app/components/game.tsx:23 | a flip negates gravity, keeps it in {1, -1} and undoes itself |
| GameModel.CollideOutcome | mini-app/components/game.tsx:123-134 | a hit ends the game and empties the list; no hit leaves the state unchanged; a second check changes nothing; the invariant is kept |
| GameModel.OverIsFrozen | mini-app/components/game.tsx:130-138 | a reachable finished game holds no obstacles, so neither a frame nor a collision check changes it, and a flip changes only gravity; only a restart leaves it |
| GameModel.CollideCommutesWithFlip | mini-app/components/game.tsx:116-134 | in a reachable state, checking for a collision before or after a flip gives the same result, so a flip never avoids a hit |
| GameModel.GameOverTransitions | mini-app/components/game.tsx:130-152 | a frame and a flip never change gameOver, a collision check can only set it, and the restart state clears it |
| GameEngine.Game.constructor | mini-app/components/game.tsx:15-19 | the object starts in the initial state |
| GameEngine.Game.Tick | mini-app/components/game.tsx:42-76 | the fields after a frame are Step of the fields before it; with dt ≥ 0 the invariant is kept |
| GameEngine.Game.FlipGravity | mini-app/components/game.tsx:23 | the click handler negates gravity and changes nothing else |
| GameEngine.Game.CheckCollision | mini-app/components/game.tsx:116-135 | the in-order scan ends the game and clears the list at the first obstacle overlapping the player box; with no hit it leaves every field unchanged |
| GameEngine.Game.Restart | mini-app/components/game.tsx:150-156 | after a restart every field has its initial value, whatever came before |

## Left out

- React state and effect machinery (`useState`, `useEffect`, the re-run of the loop effect whenever one of its dependencies changes, and its empty cleanup at game.tsx:145-148). The model is one owned state. Each frame runs one `Tick`, with `obstacleTimer` kept across frames. Because the effect re-runs, the closure-local timer is reset in the source whenever the effect restarts. That scheduling behaviour is not modelled. The empty cleanup also never cancels the frame loops and collision polls of earlier effect runs. Their captured `gameOver` is false, so they go on calling `update` and `checkCollision` after game over, and a stale poll can end the game again right after a restart. "A finished game is frozen" and "restart resets everything" hold for the single owned state modelled here, not for the running component with those stale loops.
- GameEngine.Game.Restart: the source's `restart` does not write the accumulator. The accumulator returns to 0 only when the loop effect is re-created, which the change of `gameOver` triggers. The lifted field is reset directly.
- Scheduling: `requestAnimationFrame`, `performance.now()` and the 16 ms `setTimeout` collision poll (game.tsx:103-113, 137-143). Frame time is the `dt` parameter. The caller decides when `CheckCollision` runs, and that the loops stop once the game is over.
- Canvas drawing (`draw`, game.tsx:78-101), apart from the score shown, which is `DisplayedScore`.
- The window click listener install and removal (game.tsx:24-25). Only the flip it performs is modelled.
- `Math.random()`: replaced by the `isTop` input of `Tick`.
- The JSX markup and the `Button` component (game.tsx:158-174): presentation only. The canvas size is fixed at 800 × 400.
- IEEE double rounding of `0.00005`, `0.01` and the positions: all arithmetic is exact over the reals.
- Negative or zero frame times: nothing guards them in the source, and `Tick` accepts any `dt`. The monotonicity and invariant lemmas assume dt ≥ 0.

# Gesture snake: the per-frame game logic

This project models the game logic of a webcam-controlled snake game. A hand tracker supplies the index-fingertip position. The snake's head glides toward it and leaves a trail of body segments. The snake eats food (normal or gold), picks up two power-up orbs (a speed boost and invisibility), dodges three bouncing obstacles and, from level 10 on, a boss that chases it. Each call of `step_frame` advances the game one frame. A frame is in one of three phases:

- waiting for a hand;
- running one tick;
- game over, with a one-shot sound cue and a restart that keeps only the high score.

The modules follow the backend files:

| module | file | what it holds |
|---|---|---|
| `Geometry` | `backend/utils.py` | points; `dist` compared through squared distances; `random_pos` |
| `Snake` | `backend/snake.py` | `move_snake`, `update_body`, and the particle bookkeeping of `draw_snake` |
| `Obstacles` | `backend/obstacles.py` | `update_obstacles`, on values (`BounceAll`) and in place on two arrays (`UpdateObstacles`) |
| `Food` | `backend/food.py` | the `spawn_food` rejection loop, `maybe_spawn_blue`, `maybe_spawn_invisible` |
| `Boss` | `backend/boss.py` | `update_boss`, `boss_hits_snake` |
| `Engine` | `backend/engine.py` | `init_state`, the speed settings, and one function per stage of a running tick |
| `Engine` (continued) | `backend/engine.py` | `RunTick` and `StepFrame`: a whole frame as a function of the old state |
| `EngineProperties` | `backend/engine.py` | what a frame promises, proved on those functions; `Inv` holds across all frames |
| `Runner` | `backend/engine.py` | class `Game`, holding the state dictionary and updated key by key as `step_frame` does |

Each method of `Game` is proved to leave exactly the state that the matching `Engine` function computes. `Game.Step` is also proved to keep `Valid()` (the board fits and `Inv` holds). `Wrappers` holds the usual `Option`.

Conventions:

- **Coordinates, delay and smoothing** are `real`.
- **Distances:** the source compares `dist(a, b) = hypot(...)` against a bound. The model compares the squared distance `SqDist` with the square of the bound instead (`Within` for `<`, `Farther` for `>`). `Geometry.DistanceComparisons` proves this agrees with the square-root comparison.
- **Randomness** comes in as raw draws (the `Draws` record, in the order the source draws them). `random.randint(lo, hi)` folds a raw integer onto the closed range. `random.random()` is a real roll.
- **Time:** one value `now` stands for the wall clock of the frame.
- **The hand** is an optional integer fingertip, already scaled to pixels.
- **Sound:** `play_sound` calls become the cue sequence that a frame returns.
- **Particle removal:** `list.remove` removes the first particle equal to the visited one. Every particle still before it has a positive life and the visited one does not, so this is the visited particle, which is what the model removes.

## Model

| member | source | states |
|---|---|---|
| `Geometry.SqDist` | backend/utils.py:4-5 | the squared distance is non-negative and zero exactly when the points are equal |
| `Geometry.SqDistSymmetric` | backend/utils.py:4-5 | the distance is symmetric |
| `Geometry.DistanceComparisons` | backend/utils.py:4-5 | for any non-negative `d` whose square is `SqDist(a, b)`, `d < k` iff `Within(a, b, k)`, `d > k` iff `Farther(a, b, k)`, and `d == 0` iff `a == b` |
| `Geometry.RandInt` | backend/utils.py:7-11 | the randint result lies in `[lo, hi]` inclusive; a raw draw already in range is returned as is |
| `Geometry.RandomPos` | backend/utils.py:7-11 | the point lies in `[margin, width - margin] x [margin, height - margin]` with integral coordinates; in-range draws give exactly that point |
| `Snake.MoveSnake` | backend/snake.py:3-5 | each axis independently keeps `(1 - smoothing)` of its gap to the target; for smoothing in `[0, 1]` each coordinate lies between the old value and the target; a head at the target stays put |
| `Snake.UpdatedBody` | backend/snake.py:7-10 | the length grows by one only while it stays within `score + 3`; the head is the new first segment and the rest is the old body in order, with at most its last segment dropped; the bound `len <= score + 3` is kept |
| `Snake.Aged` | backend/snake.py:19-24 | ageing never adds particles, and every survivor has life at least 1 |
| `Snake.AgedFrom` | backend/snake.py:19-24 | every surviving particle is an input particle with exactly one life less |
| `Snake.AgedKeeps` | backend/snake.py:19-24 | every input particle with life above 1 survives, with one life less |
| `Snake.TickParticles` | backend/snake.py:14-24 | the loop over the list copy yields `Aged(particles + emitted)`, where a non-empty body emits one particle of life 15 at the head; all survivors have life at least 1 |
| `Obstacles.Bounce` | backend/obstacles.py:6-17 | the centre moves by the velocity it had before the flip and keeps its radius; `vx` flips iff the new `x < r` or `x > width - r` (likewise `vy` with height); `abs(vx)` and `abs(vy)` are unchanged |
| `Obstacles.BounceAll` | backend/obstacles.py:3-18 | both lists keep their lengths; entry `i` depends only on obstacle `i` and velocity `i`; velocities past the last obstacle are untouched |
| `Obstacles.UpdateObstacles` | backend/obstacles.py:3-18 | the in-place loop over the two arrays leaves exactly `BounceAll` of their old contents |
| `Obstacles.SpeedNeverChanges` | backend/obstacles.py:12-15 | over any number of frames, the list lengths, every radius and every velocity magnitude stay the same |
| `Obstacles.NotClamped` | backend/obstacles.py:9-15 | positions are not clamped: an obstacle can end a frame beyond `width - r`, with `vx` flipped |
| `Boss.UpdateBoss` | backend/boss.py:4-6 | each axis keeps 0.99 of its gap to the snake, so the boss never overshoots; the squared distance becomes 0.9801 times the old one and never grows; a boss on the snake stays put |
| `Boss.BossHitsSnake` | backend/boss.py:12-13 | a hit iff the distance is strictly below the threshold; for the default 70, iff `dx^2 + dy^2 < 4900` |
| `Boss.ChaseConverges` | backend/boss.py:4-6 | against a stationary snake, after `n` frames the squared distance is `0.9801^n` times the initial one and never more than it |
| `Food.KindFor` | backend/food.py:9 | the kind is gold iff the roll is below 0.2, and normal otherwise |
| `Food.Candidate` | backend/food.py:7 | every candidate food position lies inside the 20-pixel margin |
| `Food.FirstClear` | backend/food.py:5-8 | returns the first candidate that is farther than 25 from every body segment, with every earlier candidate rejected; returns None iff every candidate is rejected |
| `Food.SpawnedFood` | backend/food.py:5-10 | a returned position is farther than 25 from every body segment and inside the margin, and its kind follows the gold roll; there is no result iff no candidate is clear |
| `Food.SpawnFood` | backend/food.py:5-10 | the rejection loop returns the first clear candidate, or None when none is clear; it reads the body and changes nothing |
| `Food.MaybeSpawn` | backend/food.py:16-20 | an existing orb is returned unchanged; with none, an orb appears iff the roll is below the chance, and it lies inside the margin |
| `Food.MaybeSpawnBlue` | backend/food.py:16-20 | the same, with chance 0.01 |
| `Food.MaybeSpawnInvisible` | backend/food.py:27-31 | the same, with chance 0.005 |
| `Engine.InitState` | backend/engine.py:19-53 | a 3-segment body headed by the snake position, score 0, high score 0, level 1, three obstacles of radius 25 with velocity components of magnitude 2, no orbs, buffs, boss or particles, not started and not over; on a board that fits, it satisfies `Inv` |
| `Engine.SpeedSettings` | backend/engine.py:82-87 | delay is `max(0.015, 0.04 - (level-1)*0.003)` and smoothing `min(0.20, 0.12 + (level-1)*0.01)`; with the boost, smoothing is 0.28 and delay `max(0.01, 0.6*delay)`, never above the base delay; the delay is always at least 0.01 |
| `Engine.PowerUpTick` | backend/engine.py:133-140 | an orb within 20 of the head is picked up: the orb is cleared, the timer set to `now` and the buff made active; otherwise the orb and timer are kept; the buff stays active iff it was picked up, or it was active at the start of the frame and `now - timer` does not exceed the duration |
| `Engine.EatFood` | backend/engine.py:157-165 | without contact nothing changes; on contact the score rises by exactly 5 for gold and 1 otherwise, the matching cue plays, and the new food is clear of the updated body and inside the margin; the step stalls iff the respawn does |
| `Engine.AfterMove` | backend/engine.py:115-122 | only the head and body change, and the body starts at the head |
| `Engine.AfterObstacles` | backend/engine.py:125 | only the obstacle lists change, and they keep their lengths |
| `Engine.AfterBlue` | backend/engine.py:129-140 | only the blue-orb keys change; the only possible cue is the boost cue |
| `Engine.AfterInvisible` | backend/engine.py:143-154 | only the invisibility keys change; the only possible cue is the boost cue, as in the source |
| `Engine.AfterFood` | backend/engine.py:157-165 | only the score and food keys change; no game-over cue plays |
| `Engine.AfterBoss` | backend/engine.py:170-178 | only the boss keys change; a hit implies an active boss |
| `Engine.EndOfTick` | backend/engine.py:181-217 | only the particles, level and game-over flag change; a boss hit ends the game |
| `Engine.RunTick` | backend/engine.py:112-225 | a running tick never plays the game-over cue |
| `Engine.GameOverScreen` | backend/engine.py:230-256 | the high score becomes the larger of the score and the old high score; the cue plays iff the latch was off; with a hand, the state is `init_state` except the high score; otherwise only the high score and latch change |
| `Engine.StepFrame` | backend/engine.py:59-258 | the delay is computed from the level and boost flag stored when the frame starts, and is at least 0.01 |
| `EngineProperties.SpeedMonotone` | backend/engine.py:82-87 | a higher level never lengthens the delay or lowers the smoothing |
| `EngineProperties.SpeedAtBossLevels` | backend/engine.py:82-87 | from level 10 on, the settings are at their limits: (0.015, 0.20), or (0.01, 0.28) with the boost |
| `EngineProperties.WaitingOnlyStarts` | backend/engine.py:98-107 | while waiting, a frame plays nothing and changes only `game_started`, which becomes true iff a hand is present |
| `EngineProperties.RunMovesAndGrows` | backend/engine.py:115-125 | a running tick moves the head only when a hand is seen, by `move_snake`; the body gains a new head and keeps the old body in order; the obstacles are bounced; the particles are aged |
| `EngineProperties.RunScoring` | backend/engine.py:157-165 | the score rises by exactly 5 (gold) or 1 (normal) on contact and is otherwise unchanged, so it never falls; the stored level becomes `1 + score div 5`; the high score is untouched; new food is clear of the new body and inside the margin |
| `EngineProperties.RunStallsOnlyInSpawn` | backend/engine.py:157-165 | a tick stalls exactly when the moved head reaches the food and every candidate draw lands within 25 of the new body |
| `EngineProperties.RunPowerUps` | backend/engine.py:129-154 | for each orb kind: an existing orb is kept; pick-up within 20 clears the orb, sets the timer to `now` and activates the buff; otherwise the buff stays active iff it was active when the frame started and has not expired (7 seconds for the boost, 6 for invisibility) |
| `EngineProperties.RunBoss` | backend/engine.py:170-178 | the boss is on after the tick iff it was on or the level stored at the start was at least 10; an active boss makes one `update_boss` step toward the new head |
| `EngineProperties.GameOverTriggers` | backend/engine.py:205-217 | the game ends iff a boss hit, leaving `[5, width-5] x [5, height-5]`, or, when not invisible, touching an obstacle (closer than `r + 10`) or a segment from index 4 on (closer than 10); with invisibility on, only the walls and the boss count |
| `EngineProperties.HighScoreNeverDecreases` | backend/engine.py:232-234 | no frame lowers the high score |
| `EngineProperties.RestartKeepsOnlyHighScore` | backend/engine.py:248-254 | with a hand in a game-over frame, including the frame that ends the game, the state becomes `init_state` with the high score raised to the final score if beaten |
| `EngineProperties.GameOverCueOnce` | backend/engine.py:236-239 | from a reachable state, the game-over cue plays in a frame iff that frame ends a running game, and at most once in it |
| `EngineProperties.BossStaysActive` | backend/engine.py:170-174 | an active boss is still active after a frame unless the game restarted |
| `EngineProperties.RestartSatisfiesInv` | backend/engine.py:19-53 | a restarted state with any non-negative high score satisfies `Inv` |
| `EngineProperties.AgedLivesBounded` | backend/snake.py:19-24 | with lives of at most 15, all particles left after ageing have lives in `1..15` |
| `EngineProperties.RunTickKeepsCore` | backend/engine.py:112-225 | a running tick from a state satisfying `Inv` keeps its frame-independent part, stays started, and leaves the high score and latch alone |
| `EngineProperties.StepPreservesInv` | backend/engine.py:59-258 | every frame that returns keeps `Inv`: the body length is between 3 and `score + 3` and starts at the head, the level is `1 + score div 5`, the obstacles keep radius 25 and speed 2, spawned items lie inside the margin, particle lives are in `1..15`, the boss is active only from score 45 on, and the latch is set exactly while the game is over |
| `Runner.Game.constructor` | backend/engine.py:19-53 | a new game holds `init_state` and is valid |
| `Runner.Game.MoveAndGrow` | backend/engine.py:115-122 | after updating the head one coordinate at a time and inserting/popping the body, the state is `AfterMove` of the old state |
| `Runner.Game.BounceObstacles` | backend/engine.py:125 | the state is `AfterObstacles` of the old state |
| `Runner.Game.BlueBoost` | backend/engine.py:129-140 | the state and cues are `AfterBlue` of the old state |
| `Runner.Game.InvisiblePower` | backend/engine.py:143-154 | the state and cues are `AfterInvisible` of the old state |
| `Runner.Game.FoodCollision` | backend/engine.py:157-165 | the method reports a stall exactly when `AfterFood` has no result; otherwise the state and cues are `AfterFood` of the old state |
| `Runner.Game.BossFight` | backend/engine.py:170-178 | the state and hit flag are `AfterBoss` of the old state |
| `Runner.Game.CheckCollisions` | backend/engine.py:205-217 | the loops over the obstacles and over the body from index 4 on decide exactly `Collided` |
| `Runner.Game.FinishTick` | backend/engine.py:181-225 | the state is `EndOfTick` of the old state |
| `Runner.Game.RunTick` | backend/engine.py:112-225 | running the stages in source order gives `Engine.RunTick` of the old state, or reports the stall |
| `Runner.Game.ShowGameOver` | backend/engine.py:230-256 | the state and cues are `GameOverScreen` of the old state |
| `Runner.Game.Step` | backend/engine.py:59-258 | a frame reports a stall exactly when `StepFrame` stalls; otherwise the new state, delay and cues are those of `StepFrame`, and `Valid()` is kept |

The code differs from a plain reading of the game's description in four places, and the model follows the code:

- **Boss activation.** The boss is switched on by the level stored when the frame started. That level is derived from the score before this frame's meal. So a meal that reaches score 45 switches the boss on one frame later.
- **Collision test and invisibility.** The test reads the invisibility flag after this frame's pick-up and expiry.
- **Invisibility cue.** Picking up the invisibility orb plays the boost cue.
- **Same-frame restart.** A restart can happen in the same frame that ends the game, when a hand is present.

## Left out

- **Drawing:** the background, walls, HUD text, progress bar, and the circles of the snake, food, orbs, obstacles and boss. The theme colours are also left out; `backend/theme.py` is not part of this model.
- **Audio:** `backend/sounds.py` is not part of this model. Each `play_sound` call is a cue in the returned sequence.
- **Camera and hand detection:** camera capture and MediaPipe are left out. The hand is an optional fingertip with integer pixel coordinates, so the `int(lm.x * width)` scaling happens outside the model.
- **`main.py`, `frontpage.py`, `instructions.py`:** these are the user interface and an older standalone driver, and are not part of this model.
- **Floating point:** coordinates are exact reals, so rounding of `float` arithmetic is not modelled. The square root in `math.hypot` is replaced by squared comparisons.
- **Wall clock:** the source reads `time.time()` separately for each pick-up and expiry test. The model uses one `now` for the whole frame.
- **Randomness:** the pseudo-random generator is not modelled. Draws are parameters, and every frame consumes the same fields of `Draws` whether or not the source would have drawn them.
- **`Food.SpawnFood`:** a loop that never accepts a candidate runs forever in the source. Here the loop walks a finite list of candidates and reports that case, and a frame then reports `Stalled`. Nothing is claimed about how often that happens.
- **Board size:** boards smaller than 40 x 40 are excluded by `BoardFits`, because there `randint` raises on an empty range.
- **Aliasing in the game object:** `Runner.Game` holds the state dictionary as one record field and reassigns keys. The nested lists that the source mutates through aliases (head, body, obstacle lists, boss position, particles) are values inside that record. In-place mutation of the obstacle lists is modelled separately by `Obstacles.UpdateObstacles` on two arrays.

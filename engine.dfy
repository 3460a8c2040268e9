/** The frame state machine of backend/engine.py, stated on values: the initial
    state, the speed settings, the running tick in its fixed order, the game-over
    screen, and step_frame choosing between waiting, running and game over. The
    class in runner.dfy performs the same frame by updating fields in place. */
module Engine {
  import opened Wrappers
  import opened Geometry
  import opened Snake
  import opened Obstacles
  import opened Food
  import opened Boss

  const BoostDuration := 7.0
  const InvisibleDuration := 6.0
  /** Orbs and food are picked up closer than this to the head. */
  const PickupRadius := 20.0
  /** The head must stay inside [5, width - 5] x [5, height - 5]. */
  const WallInset := 5
  /** An obstacle is touched closer than its radius plus this. */
  const ObstaclePadding := 10
  /** Segments from this index on can be bitten, closer than SelfRadius. */
  const SelfSkip := 4
  const SelfRadius := 10.0

  /** The cues play_sound is asked to play, in order. */
  datatype Sound = EatNormal | EatGold | Boost | GameOverCue

  /** The index-finger tip, already scaled to board pixels and truncated to ints. */
  datatype Fingertip = Fingertip(x: int, y: int)

  /** The state dictionary of init_state, one field per key. */
  datatype GameState = GameState(
    snakePos: Point,
    snakeBody: seq<Point>,
    score: int,
    highScore: int,
    foodPos: Point,
    foodKind: FoodKind,
    gameStarted: bool,
    gameOver: bool,
    level: int,
    obstacles: seq<Obstacle>,
    obstacleVel: seq<Velocity>,
    blueFoodPos: Option<Point>,
    speedBoostActive: bool,
    speedBoostTimer: real,
    invisibleFoodPos: Option<Point>,
    invisibleActive: bool,
    invisibleTimer: real,
    bossActive: bool,
    bossPos: Point,
    gameOverSoundPlayed: bool,
    particles: seq<Particle>)

  /** The random draws one running frame consumes, in the order the source makes
      them: the blue roll and position, the invisible roll and position, the
      candidate positions of the food rejection loop, and the gold roll. */
  datatype Draws = Draws(
    blueRoll: real, blueX: int, blueY: int,
    invisibleRoll: real, invisibleX: int, invisibleY: int,
    foodTries: seq<(int, int)>, goldRoll: real)

  /** A frame either returns the new state, the delay and the cues, or stalls in
      spawn_food because none of the candidate draws is accepted. */
  datatype Outcome = Done(state: GameState, delay: real, sounds: seq<Sound>) | Stalled

  function Max(a: real, b: real): real { if a >= b then a else b }
  function Min(a: real, b: real): real { if a <= b then a else b }

  /** init_state(width, height). */
  function InitState(width: int, height: int): (s: GameState)
    ensures s.score == 0 && s.highScore == 0 && s.level == 1
    ensures |s.snakeBody| == 3 && s.snakeBody[0] == s.snakePos
    ensures !s.gameStarted && !s.gameOver && !s.gameOverSoundPlayed
    ensures |s.obstacles| == 3 && |s.obstacleVel| == 3
    ensures forall i :: 0 <= i < 3 ==> s.obstacles[i].r == 25
    ensures forall i :: 0 <= i < 3 ==> Abs(s.obstacleVel[i].vx) == 2 && Abs(s.obstacleVel[i].vy) == 2
    ensures s.blueFoodPos.None? && s.invisibleFoodPos.None?
    ensures !s.speedBoostActive && !s.invisibleActive && !s.bossActive
    ensures s.particles == []
    ensures BoardFits(width, height) ==> Inv(s, width, height)
  {
    GameState(
      snakePos := Point(100.0, 50.0),
      snakeBody := [Point(100.0, 50.0), Point(90.0, 50.0), Point(80.0, 50.0)],
      score := 0,
      highScore := 0,
      foodPos := FromInts(width / 2, height / 2),
      foodKind := Normal,
      gameStarted := false,
      gameOver := false,
      level := 1,
      obstacles := [Obstacle(width / 2, height / 3, 25),
                    Obstacle(width / 3, 2 * height / 3, 25),
                    Obstacle(2 * width / 3, height / 2, 25)],
      obstacleVel := [Velocity(2, 2), Velocity(-2, 2), Velocity(2, -2)],
      blueFoodPos := None,
      speedBoostActive := false,
      speedBoostTimer := 0.0,
      invisibleFoodPos := None,
      invisibleActive := false,
      invisibleTimer := 0.0,
      bossActive := false,
      bossPos := FromInts(width / 2, height / 2),
      gameOverSoundPlayed := false,
      particles := [])
  }

  /** What every reachable state satisfies: three obstacles of radius 25 moving at
      speed 2 on both axes, a body of 3 to score + 3 segments headed by the snake
      position, the level derived from the score, spawned items inside the margin,
      particle lives in 1..15, the boss only from score 45 on, and the game-over
      latch set exactly while the game is over. */
  ghost predicate Inv(s: GameState, width: int, height: int) {
    Core(s, width, height) &&
    (s.gameOver ==> s.gameStarted && s.score <= s.highScore) &&
    s.gameOverSoundPlayed == s.gameOver
  }

  /** The part of Inv that a running tick keeps before the game-over screen runs. */
  ghost predicate Core(s: GameState, width: int, height: int) {
    |s.obstacles| == 3 && |s.obstacleVel| == 3 &&
    (forall i :: 0 <= i < 3 ==> s.obstacles[i].r == 25) &&
    (forall i :: 0 <= i < 3 ==> Abs(s.obstacleVel[i].vx) == 2 && Abs(s.obstacleVel[i].vy) == 2) &&
    0 <= s.score && 0 <= s.highScore &&
    3 <= |s.snakeBody| <= s.score + BaseLength && s.snakeBody[0] == s.snakePos &&
    s.level == 1 + s.score / 5 &&
    (s.bossActive ==> s.score >= 45) &&
    InMargin(s.foodPos, width, height, Margin) &&
    (s.blueFoodPos.Some? ==> InMargin(s.blueFoodPos.value, width, height, Margin)) &&
    (s.invisibleFoodPos.Some? ==> InMargin(s.invisibleFoodPos.value, width, height, Margin)) &&
    (forall i :: 0 <= i < |s.particles| ==> 1 <= s.particles[i].life <= ParticleLife)
  }

  datatype Speed = Speed(delay: real, smoothing: real)

  function BaseDelay(level: int): real { Max(0.015, 0.04 - (level - 1) as real * 0.003) }
  function BaseSmoothing(level: int): real { Min(0.20, 0.12 + (level - 1) as real * 0.01) }

  /** The delay and smoothing of the frame, from the level and boost flag stored
      when the frame starts. */
  function SpeedSettings(level: int, boost: bool): (sp: Speed)
    ensures sp.delay >= 0.01
    ensures !boost ==> sp.delay == BaseDelay(level) && sp.smoothing == BaseSmoothing(level)
    ensures !boost ==> 0.015 <= sp.delay && sp.smoothing <= 0.20
    ensures !boost && level >= 1 ==> sp.delay <= 0.04 && 0.12 <= sp.smoothing
    ensures boost ==> sp.smoothing == 0.28 && sp.delay <= BaseDelay(level)
    ensures boost ==> sp.delay == Max(0.01, BaseDelay(level) * 0.6)
  {
    if boost then Speed(Max(0.01, BaseDelay(level) * 0.6), 0.28)
    else Speed(BaseDelay(level), BaseSmoothing(level))
  }

  /** The state of one buff after the pick-up and expiry steps of a running tick. */
  datatype Buff = Buff(orb: Option<Point>, active: bool, timer: real, picked: bool)

  /** Pick-up then expiry for one orb kind. The orb is the one left by this frame's
      spawn step; active and timer are the stored values, and the expiry test uses
      the active flag read when the frame started. */
  function PowerUpTick(orb: Option<Point>, active: bool, timer: real, head: Point,
                       now: real, duration: real): (b: Buff)
    requires 0.0 <= duration
    ensures b.picked <==> orb.Some? && Within(head, orb.value, PickupRadius)
    ensures b.picked ==> b.orb.None? && b.timer == now && b.active
    ensures !b.picked ==> b.orb == orb && b.timer == timer
    ensures b.active <==> b.picked || (active && now - timer <= duration)
  {
    var picked := orb.Some? && Within(head, orb.value, PickupRadius);
    var timer' := if picked then now else timer;
    var active' := if active && now - timer' > duration then false else picked || active;
    Buff(if picked then None else orb, active', timer', picked)
  }

  /** The cue a pick-up plays. */
  function Cue(picked: bool): seq<Sound> { if picked then [Boost] else [] }

  datatype Meal = Meal(score: int, foodPos: Point, foodKind: FoodKind, cues: seq<Sound>)

  /** The food step: eating adds 5 for gold and 1 otherwise, plays the matching cue
      and respawns the food against the updated body; None when the respawn stalls. */
  function EatFood(score: int, foodPos: Point, foodKind: FoodKind, head: Point, body: seq<Point>,
                   tries: seq<(int, int)>, goldRoll: real, width: int, height: int)
    : (m: Option<Meal>)
    requires BoardFits(width, height)
    ensures !Within(head, foodPos, PickupRadius) ==> m == Some(Meal(score, foodPos, foodKind, []))
    ensures Within(head, foodPos, PickupRadius) ==>
              (m.None? <==> SpawnedFood(body, width, height, tries, goldRoll).None?)
    ensures Within(head, foodPos, PickupRadius) && m.Some? ==>
              m.value.score == score + (if foodKind == Gold then 5 else 1) &&
              m.value.cues == [if foodKind == Gold then EatGold else EatNormal] &&
              ClearOfBody(m.value.foodPos, body) &&
              InMargin(m.value.foodPos, width, height, Margin) &&
              (m.value.foodKind == Gold <==> goldRoll < GoldChance)
  {
    if !Within(head, foodPos, PickupRadius) then Some(Meal(score, foodPos, foodKind, []))
    else
      var spawned := SpawnedFood(body, width, height, tries, goldRoll);
      if spawned.None? then None
      else if foodKind == Gold then Some(Meal(score + 5, spawned.value.0, spawned.value.1, [EatGold]))
      else Some(Meal(score + 1, spawned.value.0, spawned.value.1, [EatNormal]))
  }

  /** The head has left [5, width - 5] x [5, height - 5]. */
  predicate OutsideWalls(p: Point, width: int, height: int) {
    p.x < WallInset as real || p.x > (width - WallInset) as real ||
    p.y < WallInset as real || p.y > (height - WallInset) as real
  }

  /** Some obstacle centre is closer to the head than its radius plus 10. */
  predicate HitsObstacle(p: Point, obs: seq<Obstacle>) {
    exists i :: 0 <= i < |obs| && Within(p, FromInts(obs[i].x, obs[i].y), (obs[i].r + ObstaclePadding) as real)
  }

  /** Some segment from index 4 on is closer to the head than 10. */
  predicate HitsSelf(p: Point, body: seq<Point>) {
    exists i :: SelfSkip <= i < |body| && Within(p, body[i], SelfRadius)
  }

  /** The collision verdict at the end of a running tick. */
  predicate Collided(bossHit: bool, p: Point, invisible: bool, obs: seq<Obstacle>, body: seq<Point>,
                     width: int, height: int) {
    bossHit || OutsideWalls(p, width, height) || (!invisible && (HitsObstacle(p, obs) || HitsSelf(p, body)))
  }

  /** Hand tracking and update_body: the head moves toward the fingertip when a
      hand is seen and becomes the front of the body. */
  function AfterMove(s: GameState, smoothing: real, hand: Option<Fingertip>): (t: GameState)
    ensures t == s.(snakePos := t.snakePos, snakeBody := t.snakeBody)
    ensures |t.snakeBody| > 0 ==> t.snakeBody[0] == t.snakePos
  {
    var pos := if hand.Some? then MoveSnake(s.snakePos, FromInts(hand.value.x, hand.value.y), smoothing)
               else s.snakePos;
    s.(snakePos := pos, snakeBody := UpdatedBody(s.snakeBody, pos, s.score))
  }

  /** update_obstacles on the two obstacle lists. */
  function AfterObstacles(s: GameState, width: int, height: int): (t: GameState)
    requires |s.obstacles| <= |s.obstacleVel|
    ensures t == s.(obstacles := t.obstacles, obstacleVel := t.obstacleVel)
    ensures |t.obstacles| == |s.obstacles| && |t.obstacleVel| == |s.obstacleVel|
  {
    var moved := BounceAll(s.obstacles, s.obstacleVel, width, height);
    s.(obstacles := moved.0, obstacleVel := moved.1)
  }

  /** The blue orb: spawn, pick-up and expiry of the speed boost. */
  function AfterBlue(s: GameState, now: real, d: Draws, width: int, height: int): (r: (GameState, seq<Sound>))
    requires BoardFits(width, height)
    ensures r.0 == s.(blueFoodPos := r.0.blueFoodPos, speedBoostActive := r.0.speedBoostActive,
                      speedBoostTimer := r.0.speedBoostTimer)
    ensures r.1 == [] || r.1 == [Boost]
  {
    var b := PowerUpTick(MaybeSpawnBlue(s.blueFoodPos, d.blueRoll, width, height, d.blueX, d.blueY),
                         s.speedBoostActive, s.speedBoostTimer, s.snakePos, now, BoostDuration);
    (s.(blueFoodPos := b.orb, speedBoostActive := b.active, speedBoostTimer := b.timer), Cue(b.picked))
  }

  /** The invisibility orb: spawn, pick-up and expiry of invisibility. */
  function AfterInvisible(s: GameState, now: real, d: Draws, width: int, height: int): (r: (GameState, seq<Sound>))
    requires BoardFits(width, height)
    ensures r.0 == s.(invisibleFoodPos := r.0.invisibleFoodPos, invisibleActive := r.0.invisibleActive,
                      invisibleTimer := r.0.invisibleTimer)
    ensures r.1 == [] || r.1 == [Boost]
  {
    var b := PowerUpTick(MaybeSpawnInvisible(s.invisibleFoodPos, d.invisibleRoll, width, height,
                                             d.invisibleX, d.invisibleY),
                         s.invisibleActive, s.invisibleTimer, s.snakePos, now, InvisibleDuration);
    (s.(invisibleFoodPos := b.orb, invisibleActive := b.active, invisibleTimer := b.timer), Cue(b.picked))
  }

  /** Food collision, or None when the respawn stalls. */
  function AfterFood(s: GameState, d: Draws, width: int, height: int): (r: Option<(GameState, seq<Sound>)>)
    requires BoardFits(width, height)
    ensures r.Some? ==> r.value.0 == s.(score := r.value.0.score, foodPos := r.value.0.foodPos,
                                         foodKind := r.value.0.foodKind)
    ensures r.Some? ==> GameOverCue !in r.value.1
  {
    var m := EatFood(s.score, s.foodPos, s.foodKind, s.snakePos, s.snakeBody, d.foodTries, d.goldRoll,
                     width, height);
    if m.None? then None
    else Some((s.(score := m.value.score, foodPos := m.value.foodPos, foodKind := m.value.foodKind),
               m.value.cues))
  }

  /** The boss fight, switched on by the stored level (not yet updated this frame);
      the flag says whether the boss hits the head. */
  function AfterBoss(s: GameState): (r: (GameState, bool))
    ensures r.0 == s.(bossActive := r.0.bossActive, bossPos := r.0.bossPos)
    ensures r.1 ==> r.0.bossActive
  {
    var on := s.bossActive || s.level >= 10;
    var boss := if on then UpdateBoss(s.bossPos, s.snakePos) else s.bossPos;
    (s.(bossActive := on, bossPos := boss), on && BossHitsSnake(boss, s.snakePos, HitThreshold))
  }

  /** The end of the tick: particle bookkeeping, the level from the new score, and
      the collision verdict. */
  function EndOfTick(s: GameState, bossHit: bool, width: int, height: int): (t: GameState)
    ensures t == s.(particles := t.particles, level := t.level, gameOver := t.gameOver)
    ensures bossHit ==> t.gameOver
  {
    s.(particles := Aged(s.particles + Emitted(s.snakeBody)),
       level := 1 + s.score / 5,
       gameOver := Collided(bossHit, s.snakePos, s.invisibleActive, s.obstacles, s.snakeBody, width, height))
  }

  /** One running tick, the stages above in source order. The boss is switched on by
      the level stored when the frame started, and the collision test reads the
      invisibility left by this tick's pick-up and expiry. */
  function RunTick(s: GameState, smoothing: real, hand: Option<Fingertip>, now: real, d: Draws,
                   width: int, height: int)
    : (r: Option<(GameState, seq<Sound>)>)
    requires BoardFits(width, height) && |s.obstacles| <= |s.obstacleVel|
    ensures r.Some? ==> GameOverCue !in r.value.1
  {
    var moved := AfterObstacles(AfterMove(s, smoothing, hand), width, height);
    var blue := AfterBlue(moved, now, d, width, height);
    var invisible := AfterInvisible(blue.0, now, d, width, height);
    var fed := AfterFood(invisible.0, d, width, height);
    if fed.None? then None
    else
      var boss := AfterBoss(fed.value.0);
      Some((EndOfTick(boss.0, boss.1, width, height), blue.1 + invisible.1 + fed.value.1))
  }

  /** The game-over screen: keep the better score, play the cue once, and restart
      from init_state, keeping only the high score, when a hand is shown. */
  function GameOverScreen(s: GameState, hand: Option<Fingertip>, width: int, height: int)
    : (r: (GameState, seq<Sound>))
    ensures r.0.highScore >= s.highScore && r.0.highScore >= s.score
    ensures r.0.highScore == s.highScore || r.0.highScore == s.score
    ensures r.1 == if s.gameOverSoundPlayed then [] else [GameOverCue]
    ensures hand.Some? ==> r.0 == InitState(width, height).(highScore := r.0.highScore)
    ensures hand.None? ==> r.0 == s.(highScore := r.0.highScore, gameOverSoundPlayed := true)
  {
    var high := if s.score > s.highScore then s.score else s.highScore;
    var cues := if !s.gameOverSoundPlayed then [GameOverCue] else [];
    if hand.Some? then (InitState(width, height).(highScore := high), cues)
    else (s.(highScore := high, gameOverSoundPlayed := true), cues)
  }

  /** step_frame: waiting for a hand, a running tick (followed by the game-over
      screen in the same frame when it ends the game), or the game-over screen. */
  function StepFrame(s: GameState, hand: Option<Fingertip>, now: real, d: Draws, width: int, height: int)
    : (o: Outcome)
    requires BoardFits(width, height) && |s.obstacles| <= |s.obstacleVel|
    ensures o.Done? ==> o.delay == SpeedSettings(s.level, s.speedBoostActive).delay && o.delay >= 0.01
  {
    var speed := SpeedSettings(s.level, s.speedBoostActive);
    if !s.gameStarted && !s.gameOver then
      Done(s.(gameStarted := hand.Some?), speed.delay, [])
    else if s.gameStarted && !s.gameOver then
      var run := RunTick(s, speed.smoothing, hand, now, d, width, height);
      if run.None? then Stalled
      else if run.value.0.gameOver then
        var screen := GameOverScreen(run.value.0, hand, width, height);
        Done(screen.0, speed.delay, run.value.1 + screen.1)
      else Done(run.value.0, speed.delay, run.value.1)
    else
      var screen := GameOverScreen(s, hand, width, height);
      Done(screen.0, speed.delay, screen.1)
  }
}

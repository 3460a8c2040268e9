/** The game as step_frame runs it: one object holding the state dictionary, whose
    keys the frame reassigns one step after another. Each method is proved to leave
    the state the matching function of Engine computes from the old one. */
module Runner {
  import opened Wrappers
  import opened Geometry
  import opened Snake
  import opened Obstacles
  import opened Food
  import opened Boss
  import opened Engine
  import opened EngineProperties

  class Game {
    const width: int
    const height: int
    /** The state dictionary. */
    var state: GameState

    ghost predicate Valid()
      reads this
    {
      BoardFits(width, height) && Inv(state, width, height)
    }

    /** A game whose state is init_state(width, height). */
    constructor (width: int, height: int)
      requires BoardFits(width, height)
      ensures Valid() && state == InitState(width, height)
      ensures this.width == width && this.height == height
    {
      this.width := width;
      this.height := height;
      state := InitState(width, height);
    }

    /** Hand tracking (move_snake, one coordinate after the other), then update_body:
        insert the head in front and pop the tail past score + 3. */
    method MoveAndGrow(smoothing: real, hand: Option<Fingertip>)
      modifies this
      ensures state == AfterMove(old(state), smoothing, hand)
    {
      if hand.Some? {
        var tx, ty := hand.value.x as real, hand.value.y as real;
        var pos := state.snakePos;
        pos := pos.(x := pos.x + (tx - pos.x) * smoothing);
        pos := pos.(y := pos.y + (ty - pos.y) * smoothing);
        assert pos == MoveSnake(old(state).snakePos, FromInts(hand.value.x, hand.value.y), smoothing);
        state := state.(snakePos := pos);
      }
      var body := [state.snakePos] + state.snakeBody;
      if |body| > state.score + BaseLength {
        body := body[..|body| - 1];
      }
      assert body == UpdatedBody(state.snakeBody, state.snakePos, state.score);
      state := state.(snakeBody := body);
    }

    /** update_obstacles on the obstacle and velocity lists. */
    method BounceObstacles()
      requires |state.obstacles| <= |state.obstacleVel|
      modifies this
      ensures state == AfterObstacles(old(state), width, height)
    {
      var moved := BounceAll(state.obstacles, state.obstacleVel, width, height);
      state := state.(obstacles := moved.0, obstacleVel := moved.1);
    }

    /** The blue orb: maybe spawn it, take it when the head is within 20, and end a
        boost that was on when the frame started once now - timer exceeds 7. */
    method BlueBoost(now: real, d: Draws) returns (cues: seq<Sound>)
      requires BoardFits(width, height)
      modifies this
      ensures (state, cues) == AfterBlue(old(state), now, d, width, height)
    {
      var activeAtStart := state.speedBoostActive;
      state := state.(blueFoodPos := MaybeSpawnBlue(state.blueFoodPos, d.blueRoll, width, height, d.blueX, d.blueY));
      cues := [];
      if state.blueFoodPos.Some? && Within(state.snakePos, state.blueFoodPos.value, PickupRadius) {
        state := state.(speedBoostActive := true, speedBoostTimer := now, blueFoodPos := None);
        cues := [Boost];
      }
      if activeAtStart && now - state.speedBoostTimer > BoostDuration {
        state := state.(speedBoostActive := false);
      }
    }

    /** The invisibility orb: the same steps with chance 0.005 and lifetime 6. */
    method InvisiblePower(now: real, d: Draws) returns (cues: seq<Sound>)
      requires BoardFits(width, height)
      modifies this
      ensures (state, cues) == AfterInvisible(old(state), now, d, width, height)
    {
      var activeAtStart := state.invisibleActive;
      state := state.(invisibleFoodPos := MaybeSpawnInvisible(state.invisibleFoodPos, d.invisibleRoll,
                                                              width, height, d.invisibleX, d.invisibleY));
      cues := [];
      if state.invisibleFoodPos.Some? && Within(state.snakePos, state.invisibleFoodPos.value, PickupRadius) {
        state := state.(invisibleActive := true, invisibleTimer := now, invisibleFoodPos := None);
        cues := [Boost];
      }
      if activeAtStart && now - state.invisibleTimer > InvisibleDuration {
        state := state.(invisibleActive := false);
      }
    }

    /** Food collision: score and cue by kind, then spawn_food against the new body.
        stalled reports a rejection loop that accepts none of the draws; the state is
        then left as it was. */
    method FoodCollision(d: Draws) returns (cues: seq<Sound>, stalled: bool)
      requires BoardFits(width, height)
      modifies this
      ensures var r := AfterFood(old(state), d, width, height);
              stalled == r.None? && (r.Some? ==> (state, cues) == r.value)
    {
      cues, stalled := [], false;
      if Within(state.snakePos, state.foodPos, PickupRadius) {
        var score := state.score;
        if state.foodKind == Gold {
          score := score + 5;
          cues := [EatGold];
        } else {
          score := score + 1;
          cues := [EatNormal];
        }
        var spawned := SpawnFood(state.snakeBody, width, height, d.foodTries, d.goldRoll);
        if spawned.None? {
          stalled := true;
          return;
        }
        state := state.(score := score, foodPos := spawned.value.0, foodKind := spawned.value.1);
      }
    }

    /** The boss fight: switched on by the stored level, which this frame has not yet
        updated; then it chases the head and may hit it. */
    method BossFight() returns (bossHit: bool)
      modifies this
      ensures (state, bossHit) == AfterBoss(old(state))
    {
      if state.level >= 10 && !state.bossActive {
        state := state.(bossActive := true);
      }
      bossHit := false;
      if state.bossActive {
        var boss, head := state.bossPos, state.snakePos;
        boss := boss.(x := boss.x + (head.x - boss.x) * Gain);
        boss := boss.(y := boss.y + (head.y - boss.y) * Gain);
        state := state.(bossPos := boss);
        bossHit := BossHitsSnake(state.bossPos, state.snakePos, HitThreshold);
      }
    }

    /** The collision checks at the end of a running tick: the walls, then, unless
        invisible, every obstacle and, when nothing has hit yet, every segment from
        index 4 on. The boss verdict comes in as bossHit. */
    method CheckCollisions(bossHit: bool) returns (over: bool)
      ensures over == Collided(bossHit, state.snakePos, state.invisibleActive, state.obstacles,
                               state.snakeBody, width, height)
    {
      var head, obstacles, body := state.snakePos, state.obstacles, state.snakeBody;
      over := bossHit;
      if head.x < WallInset as real || head.x > (width - WallInset) as real ||
         head.y < WallInset as real || head.y > (height - WallInset) as real {
        over := true;
      }
      if !state.invisibleActive {
        ghost var before := over;
        for i := 0 to |obstacles|
          invariant over == (before || (exists j :: 0 <= j < i && Within(head, FromInts(obstacles[j].x, obstacles[j].y), (obstacles[j].r + ObstaclePadding) as real)))
        {
          var o := obstacles[i];
          if Within(head, FromInts(o.x, o.y), (o.r + ObstaclePadding) as real) {
            over := true;
          }
        }
        if !over {
          var k := SelfSkip;
          while k < |body|
            invariant SelfSkip <= k
            invariant over == exists j :: SelfSkip <= j < k && j < |body| && Within(head, body[j], SelfRadius)
          {
            if Within(head, body[k], SelfRadius) {
              over := true;
            }
            k := k + 1;
          }
        }
      }
    }

    /** The end of the tick: particle bookkeeping, the level from the new score, and
        the collision verdict stored as game_over. */
    method FinishTick(bossHit: bool)
      modifies this
      ensures state == EndOfTick(old(state), bossHit, width, height)
    {
      var kept := TickParticles(state.snakeBody, state.particles);
      state := state.(particles := kept);
      state := state.(level := 1 + state.score / 5);
      var over := CheckCollisions(bossHit);
      state := state.(gameOver := over);
    }

    /** The running part of step_frame, in source order. */
    method RunTick(smoothing: real, hand: Option<Fingertip>, now: real, d: Draws)
      returns (cues: seq<Sound>, stalled: bool)
      requires BoardFits(width, height) && |state.obstacles| <= |state.obstacleVel|
      modifies this
      ensures var r := Engine.RunTick(old(state), smoothing, hand, now, d, width, height);
              stalled == r.None? && (r.Some? ==> (state, cues) == r.value)
    {
      MoveAndGrow(smoothing, hand);
      BounceObstacles();
      var blueCues := BlueBoost(now, d);
      var invisibleCues := InvisiblePower(now, d);
      var foodCues;
      foodCues, stalled := FoodCollision(d);
      cues := blueCues + invisibleCues + foodCues;
      if stalled {
        return;
      }
      var bossHit := BossFight();
      FinishTick(bossHit);
    }

    /** The game-over screen: raise the high score only when beaten, play the cue
        once, and restart from init_state keeping the high score when a hand is seen. */
    method ShowGameOver(hand: Option<Fingertip>) returns (cues: seq<Sound>)
      modifies this
      ensures (state, cues) == GameOverScreen(old(state), hand, width, height)
    {
      if state.score > state.highScore {
        state := state.(highScore := state.score);
      }
      cues := [];
      if !state.gameOverSoundPlayed {
        cues := [GameOverCue];
        state := state.(gameOverSoundPlayed := true);
      }
      if hand.Some? {
        var oldHigh := state.highScore;
        state := InitState(width, height).(highScore := oldHigh);
      }
    }

    /** step_frame: the delay comes from the level and boost flag stored when the
        frame starts; then waiting, running (and the game-over screen when the tick
        ends the game), or the game-over screen. A frame that stalls in spawn_food
        never returns in the source; here it reports stalled. */
    method Step(hand: Option<Fingertip>, now: real, d: Draws)
      returns (delay: real, sounds: seq<Sound>, stalled: bool)
      requires Valid()
      modifies this
      ensures var o := StepFrame(old(state), hand, now, d, width, height);
              stalled == o.Stalled? &&
              (o.Done? ==> state == o.state && delay == o.delay && sounds == o.sounds && Valid())
    {
      ghost var start := state;
      var speed := SpeedSettings(state.level, state.speedBoostActive);
      delay := speed.delay;
      sounds := [];
      stalled := false;
      if !state.gameStarted && !state.gameOver {
        if hand.Some? {
          state := state.(gameStarted := true);
        }
        StepPreservesInv(start, hand, now, d, width, height);
        return;
      }
      if state.gameStarted && !state.gameOver {
        sounds, stalled := RunTick(speed.smoothing, hand, now, d);
        if stalled {
          return;
        }
      }
      if state.gameOver {
        var cues := ShowGameOver(hand);
        sounds := sounds + cues;
      }
      StepPreservesInv(start, hand, now, d, width, height);
    }
  }
}

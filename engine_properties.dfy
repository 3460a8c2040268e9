/** What step_frame promises across frames, proved on the functions of Engine. */
module EngineProperties {
  import opened Wrappers
  import opened Geometry
  import opened Snake
  import opened Obstacles
  import opened Food
  import opened Boss
  import opened Engine

  /** The delay never grows and the smoothing never shrinks as the level rises. */
  lemma SpeedMonotone(low: int, high: int, boost: bool)
    requires low <= high
    ensures SpeedSettings(high, boost).delay <= SpeedSettings(low, boost).delay
    ensures SpeedSettings(low, boost).smoothing <= SpeedSettings(high, boost).smoothing
  {
    assert (low - 1) as real * 0.003 <= (high - 1) as real * 0.003;
    assert (low - 1) as real * 0.01 <= (high - 1) as real * 0.01;
  }

  /** From level 10 on, where the boss appears, both settings sit at their limits. */
  lemma SpeedAtBossLevels(level: int)
    requires level >= 10
    ensures SpeedSettings(level, false) == Speed(0.015, 0.20)
    ensures SpeedSettings(level, true) == Speed(0.01, 0.28)
  {
    assert (level - 1) as real * 0.003 >= 0.027;
    assert (level - 1) as real * 0.01 >= 0.09;
  }

  /** Before the game starts only game_started changes, and it becomes true exactly
      when a hand is shown; no cue plays. */
  lemma WaitingOnlyStarts(s: GameState, hand: Option<Fingertip>, now: real, d: Draws, width: int, height: int)
    requires BoardFits(width, height) && |s.obstacles| <= |s.obstacleVel|
    requires !s.gameStarted && !s.gameOver
    ensures var o := StepFrame(s, hand, now, d, width, height);
            o.Done? && o.sounds == [] && (o.state.gameStarted <==> hand.Some?) &&
            o.state.(gameStarted := false) == s
  {
  }

  /** The state a running tick produces, when it produces one. */
  function Ran(s: GameState, hand: Option<Fingertip>, now: real, d: Draws, width: int, height: int)
    : Option<(GameState, seq<Sound>)>
    requires BoardFits(width, height) && |s.obstacles| <= |s.obstacleVel|
  {
    RunTick(s, SpeedSettings(s.level, s.speedBoostActive).smoothing, hand, now, d, width, height)
  }

  /** The frame is a running tick that ends the game. */
  predicate EntersGameOver(s: GameState, hand: Option<Fingertip>, now: real, d: Draws, width: int, height: int)
    requires BoardFits(width, height) && |s.obstacles| <= |s.obstacleVel|
  {
    s.gameStarted && !s.gameOver &&
    Ran(s, hand, now, d, width, height).Some? && Ran(s, hand, now, d, width, height).value.0.gameOver
  }

  /** A running tick moves the head toward the fingertip only when a hand is seen,
      puts the head in front of the old body and keeps the old order. */
  lemma RunMovesAndGrows(s: GameState, smoothing: real, hand: Option<Fingertip>, now: real, d: Draws,
                         width: int, height: int)
    requires BoardFits(width, height) && |s.obstacles| <= |s.obstacleVel|
    requires RunTick(s, smoothing, hand, now, d, width, height).Some?
    ensures var t := RunTick(s, smoothing, hand, now, d, width, height).value.0;
            (hand.None? ==> t.snakePos == s.snakePos) &&
            (hand.Some? ==> t.snakePos == MoveSnake(s.snakePos, FromInts(hand.value.x, hand.value.y), smoothing)) &&
            |s.snakeBody| <= |t.snakeBody| <= |s.snakeBody| + 1 &&
            (|t.snakeBody| > 0 ==> t.snakeBody[0] == t.snakePos &&
                                   t.snakeBody[1..] == s.snakeBody[..|t.snakeBody| - 1]) &&
            t.obstacles == BounceAll(s.obstacles, s.obstacleVel, width, height).0 &&
            t.obstacleVel == BounceAll(s.obstacles, s.obstacleVel, width, height).1 &&
            t.particles == Aged(s.particles + Emitted(t.snakeBody))
  {
  }

  /** Eating adds exactly 5 for gold and 1 otherwise and respawns the food clear of
      the new body; otherwise score and food stay. The score never decreases during
      a running tick, and the stored level follows the new score. */
  lemma RunScoring(s: GameState, smoothing: real, hand: Option<Fingertip>, now: real, d: Draws,
                   width: int, height: int)
    requires BoardFits(width, height) && |s.obstacles| <= |s.obstacleVel|
    requires RunTick(s, smoothing, hand, now, d, width, height).Some?
    ensures var t := RunTick(s, smoothing, hand, now, d, width, height).value.0;
            var ate := Within(t.snakePos, s.foodPos, PickupRadius);
            t.score == s.score + (if !ate then 0 else if s.foodKind == Gold then 5 else 1) &&
            t.score >= s.score &&
            t.level == 1 + t.score / 5 &&
            t.highScore == s.highScore &&
            (ate ==> ClearOfBody(t.foodPos, t.snakeBody) && InMargin(t.foodPos, width, height, Margin)) &&
            (!ate ==> t.foodPos == s.foodPos && t.foodKind == s.foodKind)
  {
  }

  /** The tick stalls exactly when the food is eaten and no candidate draw is clear
      of the new body. */
  lemma RunStallsOnlyInSpawn(s: GameState, smoothing: real, hand: Option<Fingertip>, now: real, d: Draws,
                             width: int, height: int)
    requires BoardFits(width, height) && |s.obstacles| <= |s.obstacleVel|
    ensures var pos := if hand.Some? then MoveSnake(s.snakePos, FromInts(hand.value.x, hand.value.y), smoothing)
                       else s.snakePos;
            var body := UpdatedBody(s.snakeBody, pos, s.score);
            RunTick(s, smoothing, hand, now, d, width, height).None? <==>
            Within(pos, s.foodPos, PickupRadius) &&
            forall j :: 0 <= j < |d.foodTries| ==> !ClearOfBody(Candidate(width, height, d.foodTries[j]), body)
  {
    var moved := AfterObstacles(AfterMove(s, smoothing, hand), width, height);
    var blue := AfterBlue(moved, now, d, width, height);
    var invisible := AfterInvisible(blue.0, now, d, width, height);
    assert invisible.0.snakePos == AfterMove(s, smoothing, hand).snakePos;
    assert invisible.0.snakeBody == AfterMove(s, smoothing, hand).snakeBody;
    assert invisible.0.foodPos == s.foodPos;
  }

  /** Pick-ups and expiry of the two buffs: an orb within 20 of the new head is taken,
      the buff turns on and its timer is now; otherwise a buff that was on at the
      start of the frame stays on while now - timer is at most 7 (boost) or 6
      (invisibility). An orb only spawns while none of its kind exists. */
  lemma RunPowerUps(s: GameState, smoothing: real, hand: Option<Fingertip>, now: real, d: Draws,
                    width: int, height: int)
    requires BoardFits(width, height) && |s.obstacles| <= |s.obstacleVel|
    requires RunTick(s, smoothing, hand, now, d, width, height).Some?
    ensures var t := RunTick(s, smoothing, hand, now, d, width, height).value.0;
            var blue := MaybeSpawnBlue(s.blueFoodPos, d.blueRoll, width, height, d.blueX, d.blueY);
            var bluePicked := blue.Some? && Within(t.snakePos, blue.value, PickupRadius);
            (s.blueFoodPos.Some? ==> blue == s.blueFoodPos) &&
            (bluePicked ==> t.blueFoodPos.None? && t.speedBoostActive && t.speedBoostTimer == now) &&
            (!bluePicked ==> t.blueFoodPos == blue && t.speedBoostTimer == s.speedBoostTimer &&
                             (t.speedBoostActive <==> s.speedBoostActive && now - s.speedBoostTimer <= BoostDuration))
    ensures var t := RunTick(s, smoothing, hand, now, d, width, height).value.0;
            var orb := MaybeSpawnInvisible(s.invisibleFoodPos, d.invisibleRoll, width, height,
                                           d.invisibleX, d.invisibleY);
            var picked := orb.Some? && Within(t.snakePos, orb.value, PickupRadius);
            (s.invisibleFoodPos.Some? ==> orb == s.invisibleFoodPos) &&
            (picked ==> t.invisibleFoodPos.None? && t.invisibleActive && t.invisibleTimer == now) &&
            (!picked ==> t.invisibleFoodPos == orb && t.invisibleTimer == s.invisibleTimer &&
                         (t.invisibleActive <==> s.invisibleActive && now - s.invisibleTimer <= InvisibleDuration))
  {
  }

  /** The boss is switched on by the level stored when the frame started (or was on
      already); when on, it chases the new head and its hit ends the game. */
  lemma RunBoss(s: GameState, smoothing: real, hand: Option<Fingertip>, now: real, d: Draws,
                width: int, height: int)
    requires BoardFits(width, height) && |s.obstacles| <= |s.obstacleVel|
    requires RunTick(s, smoothing, hand, now, d, width, height).Some?
    ensures var t := RunTick(s, smoothing, hand, now, d, width, height).value.0;
            (t.bossActive <==> s.bossActive || s.level >= 10) &&
            (t.bossActive ==> t.bossPos == UpdateBoss(s.bossPos, t.snakePos)) &&
            (!t.bossActive ==> t.bossPos == s.bossPos)
  {
  }

  /** Leaving the walls and a boss hit always end the game; touching an obstacle or
      a later body segment ends it only while invisibility is off after this tick's
      pick-up and expiry; nothing else ends it. */
  lemma GameOverTriggers(s: GameState, smoothing: real, hand: Option<Fingertip>, now: real, d: Draws,
                         width: int, height: int)
    requires BoardFits(width, height) && |s.obstacles| <= |s.obstacleVel|
    requires RunTick(s, smoothing, hand, now, d, width, height).Some?
    ensures var t := RunTick(s, smoothing, hand, now, d, width, height).value.0;
            var bossHit := t.bossActive && BossHitsSnake(t.bossPos, t.snakePos, HitThreshold);
            (t.gameOver <==> Collided(bossHit, t.snakePos, t.invisibleActive, t.obstacles, t.snakeBody, width, height)) &&
            (OutsideWalls(t.snakePos, width, height) ==> t.gameOver) &&
            (bossHit ==> t.gameOver) &&
            ((!t.invisibleActive && (HitsObstacle(t.snakePos, t.obstacles) || HitsSelf(t.snakePos, t.snakeBody)))
             ==> t.gameOver) &&
            (t.invisibleActive ==> (t.gameOver <==> bossHit || OutsideWalls(t.snakePos, width, height)))
  {
  }

  /** The high score is never lowered by a frame. */
  lemma HighScoreNeverDecreases(s: GameState, hand: Option<Fingertip>, now: real, d: Draws, width: int, height: int)
    requires BoardFits(width, height) && |s.obstacles| <= |s.obstacleVel|
    requires StepFrame(s, hand, now, d, width, height).Done?
    ensures StepFrame(s, hand, now, d, width, height).state.highScore >= s.highScore
  {
    if s.gameStarted && !s.gameOver {
      RunScoring(s, SpeedSettings(s.level, s.speedBoostActive).smoothing, hand, now, d, width, height);
    }
  }

  /** Once the game is over, a frame with a hand restarts from init_state keeping
      only the high score, which is the better of the old high score and the final
      score; this also happens in the very frame that ends the game. */
  lemma RestartKeepsOnlyHighScore(s: GameState, hand: Option<Fingertip>, now: real, d: Draws,
                                  width: int, height: int)
    requires BoardFits(width, height) && |s.obstacles| <= |s.obstacleVel|
    requires s.gameOver || EntersGameOver(s, hand, now, d, width, height)
    requires hand.Some?
    ensures var o := StepFrame(s, hand, now, d, width, height);
            var final := if s.gameOver then s.score else Ran(s, hand, now, d, width, height).value.0.score;
            o.Done? &&
            o.state == InitState(width, height).(highScore := o.state.highScore) &&
            o.state.highScore == (if final > s.highScore then final else s.highScore)
  {
    if !s.gameOver {
      RunScoring(s, SpeedSettings(s.level, s.speedBoostActive).smoothing, hand, now, d, width, height);
    }
  }

  /** The game-over cue plays in a frame exactly when that frame ends the game, and
      at most once in it. */
  lemma GameOverCueOnce(s: GameState, hand: Option<Fingertip>, now: real, d: Draws, width: int, height: int)
    requires BoardFits(width, height) && Inv(s, width, height)
    requires StepFrame(s, hand, now, d, width, height).Done?
    ensures var o := StepFrame(s, hand, now, d, width, height);
            (GameOverCue in o.sounds <==> EntersGameOver(s, hand, now, d, width, height)) &&
            multiset(o.sounds)[GameOverCue] <= 1
  {
    var o := StepFrame(s, hand, now, d, width, height);
    if s.gameStarted && !s.gameOver {
      var r := Ran(s, hand, now, d, width, height).value;
      assert GameOverCue !in r.1;
      assert multiset(r.1)[GameOverCue] == 0;
    }
  }

  /** An active boss stays active until the game restarts. */
  lemma BossStaysActive(s: GameState, hand: Option<Fingertip>, now: real, d: Draws, width: int, height: int)
    requires BoardFits(width, height) && |s.obstacles| <= |s.obstacleVel|
    requires s.bossActive && StepFrame(s, hand, now, d, width, height).Done?
    ensures var t := StepFrame(s, hand, now, d, width, height).state;
            t.bossActive || t == InitState(width, height).(highScore := t.highScore)
  {
    if s.gameStarted && !s.gameOver {
      RunBoss(s, SpeedSettings(s.level, s.speedBoostActive).smoothing, hand, now, d, width, height);
    }
  }

  /** A restarted state satisfies the invariant whatever high score it carries. */
  lemma RestartSatisfiesInv(width: int, height: int, high: int)
    requires BoardFits(width, height) && 0 <= high
    ensures Inv(InitState(width, height).(highScore := high), width, height)
  {
  }

  /** Aging keeps particle lives within 1..15 when the new particles are at most 15. */
  lemma AgedLivesBounded(ps: seq<Particle>)
    requires forall i :: 0 <= i < |ps| ==> ps[i].life <= ParticleLife
    ensures forall i :: 0 <= i < |Aged(ps)| ==> 1 <= Aged(ps)[i].life <= ParticleLife
  {
    AgedFrom(ps);
    forall i | 0 <= i < |Aged(ps)|
      ensures Aged(ps)[i].life <= ParticleLife
    {
      var q := Aged(ps)[i];
      assert q in Aged(ps);
      var j :| 0 <= j < |ps| && ps[j] == Particle(q.x, q.y, q.life + 1);
    }
  }

  /** A running tick keeps Core, stays started and leaves the latch off. */
  lemma RunTickKeepsCore(s: GameState, smoothing: real, hand: Option<Fingertip>, now: real, d: Draws,
                         width: int, height: int)
    requires BoardFits(width, height) && Inv(s, width, height)
    requires s.gameStarted && !s.gameOver
    requires RunTick(s, smoothing, hand, now, d, width, height).Some?
    ensures var t := RunTick(s, smoothing, hand, now, d, width, height).value.0;
            Core(t, width, height) && t.gameStarted && !t.gameOverSoundPlayed && t.highScore == s.highScore
  {
    var t := RunTick(s, smoothing, hand, now, d, width, height).value.0;
    RunScoring(s, smoothing, hand, now, d, width, height);
    RunMovesAndGrows(s, smoothing, hand, now, d, width, height);
    RunBoss(s, smoothing, hand, now, d, width, height);
    var ps := s.particles + Emitted(t.snakeBody);
    assert forall i :: 0 <= i < |ps| ==> ps[i].life <= ParticleLife;
    AgedLivesBounded(ps);
    var moved := BounceAll(s.obstacles, s.obstacleVel, width, height);
    forall i | 0 <= i < 3
      ensures t.obstacles[i].r == 25
      ensures Abs(t.obstacleVel[i].vx) == 2 && Abs(t.obstacleVel[i].vy) == 2
    {
      var b := Bounce(s.obstacles[i], s.obstacleVel[i], width, height);
      assert (moved.0[i], moved.1[i]) == b;
    }
    assert s.level >= 10 ==> s.score >= 45;
  }

  /** Every frame keeps the invariant. */
  lemma StepPreservesInv(s: GameState, hand: Option<Fingertip>, now: real, d: Draws, width: int, height: int)
    requires BoardFits(width, height) && Inv(s, width, height)
    requires StepFrame(s, hand, now, d, width, height).Done?
    ensures Inv(StepFrame(s, hand, now, d, width, height).state, width, height)
  {
    if s.gameStarted && !s.gameOver {
      RunTickKeepsCore(s, SpeedSettings(s.level, s.speedBoostActive).smoothing, hand, now, d, width, height);
      var t := Ran(s, hand, now, d, width, height).value.0;
      if t.gameOver {
        var screen := GameOverScreen(t, hand, width, height);
        if hand.Some? {
          RestartSatisfiesInv(width, height, screen.0.highScore);
        }
      }
    } else if s.gameOver {
      var screen := GameOverScreen(s, hand, width, height);
      if hand.Some? {
        RestartSatisfiesInv(width, height, screen.0.highScore);
      }
    }
  }
}

/** The boss (backend/boss.py): it closes one hundredth of its gap to the snake head
    every frame, and it hits the snake when closer than a threshold. */
module Boss {
  import opened Geometry

  /** Fraction of the gap to the snake the boss closes per frame. */
  const Gain := 0.01
  /** Default hit distance of boss_hits_snake. */
  const HitThreshold := 70.0

  /** update_boss: both coordinates move one hundredth of the way to the snake. */
  function UpdateBoss(boss: Point, snake: Point): (b: Point)
    ensures snake.x - b.x == (snake.x - boss.x) * 0.99
    ensures snake.y - b.y == (snake.y - boss.y) * 0.99
    ensures Between(boss.x, b.x, snake.x) && Between(boss.y, b.y, snake.y)
    ensures SqDist(b, snake) == 0.9801 * SqDist(boss, snake)
    ensures SqDist(b, snake) <= SqDist(boss, snake)
    ensures boss == snake ==> b == boss
  {
    var b := Point(boss.x + (snake.x - boss.x) * Gain, boss.y + (snake.y - boss.y) * Gain);
    SmoothingGap(boss.x, snake.x, Gain);
    SmoothingGap(boss.y, snake.y, Gain);
    SmoothingStaysBetween(boss.x, snake.x, Gain);
    SmoothingStaysBetween(boss.y, snake.y, Gain);
    ShrunkSquare(boss.x - snake.x, b.x - snake.x);
    ShrunkSquare(boss.y - snake.y, b.y - snake.y);
    b
  }

  lemma ShrunkSquare(d: real, e: real)
    requires e == d * 0.99
    ensures Sq(e) == 0.9801 * Sq(d)
    ensures Sq(e) <= Sq(d)
  {
    SqSign(d);
    calc {
      Sq(e);
    ==
      (d * 0.99) * (d * 0.99);
    ==
      0.9801 * (d * d);
    ==
      0.9801 * Sq(d);
    }
  }

  /** boss_hits_snake: the boss is closer to the snake than the threshold. */
  function BossHitsSnake(boss: Point, snake: Point, threshold: real): (hit: bool)
    ensures hit <==> 0.0 < threshold && SqDist(boss, snake) < threshold * threshold
    ensures threshold == HitThreshold ==> (hit <==> SqDist(boss, snake) < 4900.0)
  {
    Within(boss, snake, threshold)
  }

  /** The boss after n frames chasing a snake that stands still. */
  function Chase(boss: Point, snake: Point, n: nat): Point
    decreases n
  {
    if n == 0 then boss else Chase(UpdateBoss(boss, snake), snake, n - 1)
  }

  function Pow(b: real, n: nat): real
    decreases n
  {
    if n == 0 then 1.0 else b * Pow(b, n - 1)
  }

  /** Against a stationary snake the squared distance shrinks by the factor 0.9801
      every frame, so the distance itself by 0.99, and never grows. */
  lemma {:induction false} ChaseConverges(boss: Point, snake: Point, n: nat)
    ensures SqDist(Chase(boss, snake, n), snake) == Pow(0.9801, n) * SqDist(boss, snake)
    ensures SqDist(Chase(boss, snake, n), snake) <= SqDist(boss, snake)
    decreases n
  {
    if n > 0 {
      var next := UpdateBoss(boss, snake);
      ChaseConverges(next, snake, n - 1);
      calc {
        SqDist(Chase(boss, snake, n), snake);
      ==
        SqDist(Chase(next, snake, n - 1), snake);
      ==
        Pow(0.9801, n - 1) * SqDist(next, snake);
      ==
        Pow(0.9801, n - 1) * (0.9801 * SqDist(boss, snake));
      ==
        (0.9801 * Pow(0.9801, n - 1)) * SqDist(boss, snake);
      ==
        Pow(0.9801, n) * SqDist(boss, snake);
      }
    }
  }
}

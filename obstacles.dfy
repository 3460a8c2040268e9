/** Bouncing obstacles (backend/obstacles.py): integer centres move by integer
    velocities, and a velocity component changes sign when the centre has gone past
    the wall it points at. Nothing is clamped. */
module Obstacles {

  datatype Obstacle = Obstacle(x: int, y: int, r: int)
  datatype Velocity = Velocity(vx: int, vy: int)

  function Abs(n: int): nat {
    if n < 0 then -n else n
  }

  /** The centre is left of x = r or right of x = width - r. */
  predicate OutsideX(o: Obstacle, width: int) {
    o.x < o.r || o.x > width - o.r
  }

  /** The centre is above y = r or below y = height - r. */
  predicate OutsideY(o: Obstacle, height: int) {
    o.y < o.r || o.y > height - o.r
  }

  /** One obstacle and its velocity after one frame of update_obstacles. */
  function Bounce(o: Obstacle, v: Velocity, width: int, height: int): (res: (Obstacle, Velocity))
    ensures res.0.x - o.x == v.vx && res.0.y - o.y == v.vy && res.0.r == o.r
    ensures OutsideX(res.0, width) ==> res.1.vx == -v.vx
    ensures !OutsideX(res.0, width) ==> res.1.vx == v.vx
    ensures OutsideY(res.0, height) ==> res.1.vy == -v.vy
    ensures !OutsideY(res.0, height) ==> res.1.vy == v.vy
    ensures Abs(res.1.vx) == Abs(v.vx) && Abs(res.1.vy) == Abs(v.vy)
  {
    var moved := Obstacle(o.x + v.vx, o.y + v.vy, o.r);
    var vx := if moved.x < moved.r || moved.x > width - moved.r then -v.vx else v.vx;
    var vy := if moved.y < moved.r || moved.y > height - moved.r then -v.vy else v.vy;
    (moved, Velocity(vx, vy))
  }

  /** update_obstacles on list values: entry i depends on obstacle i and velocity i
      only; velocities past the last obstacle are not touched. */
  function BounceAll(obs: seq<Obstacle>, vel: seq<Velocity>, width: int, height: int)
    : (res: (seq<Obstacle>, seq<Velocity>))
    requires |obs| <= |vel|
    ensures |res.0| == |obs| && |res.1| == |vel|
    ensures forall i :: 0 <= i < |obs| ==>
              (res.0[i], res.1[i]) == Bounce(obs[i], vel[i], width, height)
    ensures forall i :: |obs| <= i < |vel| ==> res.1[i] == vel[i]
  {
    var moved := seq(|obs|, i requires 0 <= i < |obs| => Bounce(obs[i], vel[i], width, height).0);
    var flipped := seq(|vel|, i requires 0 <= i < |vel| =>
                         if i < |obs| then Bounce(obs[i], vel[i], width, height).1 else vel[i]);
    (moved, flipped)
  }

  /** update_obstacles: a for loop that overwrites obstacles[i] and velocities[i] in
      place. The source indexes velocities by every obstacle index, so it needs at
      least as many velocities as obstacles. */
  method UpdateObstacles(obstacles: array<Obstacle>, velocities: array<Velocity>, width: int, height: int)
    requires obstacles.Length <= velocities.Length
    modifies obstacles, velocities
    ensures (obstacles[..], velocities[..]) ==
            BounceAll(old(obstacles[..]), old(velocities[..]), width, height)
  {
    for i := 0 to obstacles.Length
      invariant forall j :: 0 <= j < i ==>
                  (obstacles[j], velocities[j]) ==
                  Bounce(old(obstacles[j]), old(velocities[j]), width, height)
      invariant forall j :: i <= j < obstacles.Length ==> obstacles[j] == old(obstacles[j])
      invariant forall j :: i <= j < velocities.Length ==> velocities[j] == old(velocities[j])
    {
      var o, v := obstacles[i], velocities[i];
      var ox, oy, r := o.x, o.y, o.r;
      var vx, vy := v.vx, v.vy;
      ox := ox + vx;
      oy := oy + vy;
      if ox < r || ox > width - r {
        vx := -vx;
      }
      if oy < r || oy > height - r {
        vy := -vy;
      }
      obstacles[i] := Obstacle(ox, oy, r);
      velocities[i] := Velocity(vx, vy);
    }
    ghost var res := BounceAll(old(obstacles[..]), old(velocities[..]), width, height);
    assert obstacles[..] == res.0;
    assert velocities[..] == res.1;
  }

  /** The obstacles and velocities after n frames. */
  function Simulate(obs: seq<Obstacle>, vel: seq<Velocity>, width: int, height: int, n: nat)
    : (res: (seq<Obstacle>, seq<Velocity>))
    requires |obs| <= |vel|
    decreases n
  {
    if n == 0 then (obs, vel)
    else
      var next := BounceAll(obs, vel, width, height);
      Simulate(next.0, next.1, width, height, n - 1)
  }

  /** However many frames pass, no obstacle or velocity appears or disappears, every
      radius stays, and each velocity component keeps its magnitude: the obstacles
      never speed up or slow down. */
  lemma {:induction false} SpeedNeverChanges(obs: seq<Obstacle>, vel: seq<Velocity>,
                                             width: int, height: int, n: nat)
    requires |obs| <= |vel|
    ensures |Simulate(obs, vel, width, height, n).0| == |obs|
    ensures |Simulate(obs, vel, width, height, n).1| == |vel|
    ensures forall i :: 0 <= i < |obs| ==> Simulate(obs, vel, width, height, n).0[i].r == obs[i].r
    ensures forall i :: 0 <= i < |vel| ==>
              Abs(Simulate(obs, vel, width, height, n).1[i].vx) == Abs(vel[i].vx) &&
              Abs(Simulate(obs, vel, width, height, n).1[i].vy) == Abs(vel[i].vy)
    decreases n
  {
    if n > 0 {
      var next := BounceAll(obs, vel, width, height);
      SpeedNeverChanges(next.0, next.1, width, height, n - 1);
      forall i | 0 <= i < |vel|
        ensures Abs(next.1[i].vx) == Abs(vel[i].vx) && Abs(next.1[i].vy) == Abs(vel[i].vy)
      {
        if i < |obs| {
          var b := Bounce(obs[i], vel[i], width, height);
          assert next.1[i] == b.1;
        }
      }
    }
  }

  /** Positions are not clamped: an obstacle of radius 25 next to the right wall of an
      800 x 600 board ends a frame with its centre beyond x = width - r. */
  lemma NotClamped()
    ensures var b := Bounce(Obstacle(774, 300, 25), Velocity(2, 2), 800, 600);
            b.0.x == 776 && b.0.x > 800 - 25 && b.1.vx == -2
  {
  }
}

/** The snake (backend/snake.py): the head follows its target by exponential
    smoothing, the body is a trail of past head positions whose length is tied to the
    score, and the head leaves a trail of short-lived particles. */
module Snake {
  import opened Geometry

  /** Segments a fresh snake may have beyond its score. */
  const BaseLength := 3
  /** Frames a particle lives when it is emitted at the head. */
  const ParticleLife := 15

  /** move_snake: each coordinate moves the fraction `smoothing` of the way to the
      target, the two axes independently. */
  function MoveSnake(pos: Point, target: Point, smoothing: real): (p: Point)
    ensures target.x - p.x == (target.x - pos.x) * (1.0 - smoothing)
    ensures target.y - p.y == (target.y - pos.y) * (1.0 - smoothing)
    ensures 0.0 <= smoothing <= 1.0 ==>
              Between(pos.x, p.x, target.x) && Between(pos.y, p.y, target.y)
    ensures pos == target ==> p == pos
  {
    SmoothingGap(pos.x, target.x, smoothing);
    SmoothingGap(pos.y, target.y, smoothing);
    if 0.0 <= smoothing <= 1.0 then
      SmoothingStaysBetween(pos.x, target.x, smoothing);
      SmoothingStaysBetween(pos.y, target.y, smoothing);
      Point(pos.x + (target.x - pos.x) * smoothing, pos.y + (target.y - pos.y) * smoothing)
    else
      Point(pos.x + (target.x - pos.x) * smoothing, pos.y + (target.y - pos.y) * smoothing)
  }

  /** update_body: the new head goes in front of the old body, and when that makes
      the body longer than score + 3 the last segment is dropped. */
  function UpdatedBody(body: seq<Point>, head: Point, score: int): (b: seq<Point>)
    ensures |b| == if |body| + 1 <= score + BaseLength then |body| + 1 else |body|
    ensures |b| > 0 ==> b[0] == head && b[1..] == body[..|b| - 1]
    ensures |body| <= score + BaseLength ==> |b| <= score + BaseLength
  {
    var grown := [head] + body;
    if |grown| > score + BaseLength then grown[..|grown| - 1] else grown
  }

  datatype Particle = Particle(x: real, y: real, life: int)

  /** The particle draw_snake emits at the head, if there is a head. */
  function Emitted(body: seq<Point>): seq<Particle> {
    if |body| > 0 then [Particle(body[0].x, body[0].y, ParticleLife)] else []
  }

  /** The particles of one frame after ageing: every life drops by one and those that
      reach zero or less are gone, the others keep their order. */
  function Aged(ps: seq<Particle>): (r: seq<Particle>)
    ensures |r| <= |ps|
    ensures forall i :: 0 <= i < |r| ==> r[i].life >= 1
  {
    if ps == [] then []
    else
      var last := ps[|ps| - 1];
      var q := last.(life := last.life - 1);
      if q.life <= 0 then Aged(ps[..|ps| - 1]) else Aged(ps[..|ps| - 1]) + [q]
  }

  /** Every particle left after ageing is an input particle with one life less. */
  lemma {:induction false} AgedFrom(ps: seq<Particle>)
    ensures forall q :: q in Aged(ps) ==> Particle(q.x, q.y, q.life + 1) in ps
  {
    if ps != [] {
      var init, last := ps[..|ps| - 1], ps[|ps| - 1];
      var q := Particle(last.x, last.y, last.life - 1);
      AgedFrom(init);
      assert ps == init + [last];
      var r := Aged(ps);
      assert r == if q.life <= 0 then Aged(init) else Aged(init) + [q];
      forall x | x in r
        ensures Particle(x.x, x.y, x.life + 1) in ps
      {
        if x in Aged(init) {
          assert Particle(x.x, x.y, x.life + 1) in init;
        } else {
          assert x == q;
        }
      }
    }
  }

  /** Every input particle whose life is above one survives ageing, with one life less. */
  lemma {:induction false} AgedKeeps(ps: seq<Particle>)
    ensures forall p :: p in ps && p.life > 1 ==> Particle(p.x, p.y, p.life - 1) in Aged(ps)
  {
    if ps != [] {
      var init, last := ps[..|ps| - 1], ps[|ps| - 1];
      var q := Particle(last.x, last.y, last.life - 1);
      AgedKeeps(init);
      assert ps == init + [last];
      var r := Aged(ps);
      assert r == if q.life <= 0 then Aged(init) else Aged(init) + [q];
      forall p | p in ps && p.life > 1
        ensures Particle(p.x, p.y, p.life - 1) in r
      {
        if p in init {
          assert Particle(p.x, p.y, p.life - 1) in Aged(init);
        } else {
          assert p == last;
        }
      }
    }
  }

  /** The particle bookkeeping of draw_snake: append a particle at the head, then walk
      a copy of the list, decrementing each life and removing the particles whose
      life is no longer positive. */
  method TickParticles(body: seq<Point>, particles: seq<Particle>) returns (kept: seq<Particle>)
    ensures kept == Aged(particles + Emitted(body))
    ensures forall q :: q in kept ==> q.life >= 1
  {
    var list := particles;
    if |body| > 0 {
      list := list + [Particle(body[0].x, body[0].y, ParticleLife)];
    }
    kept := [];
    var i := 0;
    while i < |list|
      invariant 0 <= i <= |list|
      invariant kept == Aged(list[..i])
    {
      var p := list[i].(life := list[i].life - 1);
      assert list[..i + 1][..i] == list[..i];
      if p.life > 0 {
        kept := kept + [p];
      }
      i := i + 1;
    }
    assert list[..i] == list;
    assert list == particles + Emitted(body);
  }
}

/** The conventional Some/None datatype, used for the optional orbs and for results
    that may not exist. */
module Wrappers {
  datatype Option<T> = None | Some(value: T)
}

/** Geometry of the board (backend/utils.py): points, the Euclidean distance compared
    through its square, and uniform random positions inside a margin. */
module Geometry {

  /** A point on the board. The source keeps points as two-element lists whose
      entries are ints (food, orbs, obstacle centres) or floats (snake head, boss). */
  datatype Point = Point(x: real, y: real)

  function FromInts(x: int, y: int): Point {
    Point(x as real, y as real)
  }

  /** m lies on the closed segment between a and b. */
  predicate Between(a: real, m: real, b: real) {
    (a <= m <= b) || (b <= m <= a)
  }

  function Sq(v: real): real {
    v * v
  }

  lemma MulLe(a: real, b: real, c: real)
    requires 0.0 <= a && b <= c
    ensures a * b <= a * c
  {
    assert a * c - a * b == a * (c - b);
  }

  lemma MulLt(a: real, b: real, c: real)
    requires 0.0 < a && b < c
    ensures a * b < a * c
  {
    assert a * c - a * b == a * (c - b);
  }

  lemma SqSign(v: real)
    ensures Sq(v) >= 0.0
    ensures v != 0.0 ==> Sq(v) > 0.0
  {
    if v < 0.0 {
      MulLt(-v, 0.0, -v);
      calc {
        Sq(v);
      ==
        (-v) * (-v);
      >
        (-v) * 0.0;
      ==
        0.0;
      }
    } else if v > 0.0 {
      MulLt(v, 0.0, v);
      calc {
        Sq(v);
      ==
        v * v;
      >
        v * 0.0;
      ==
        0.0;
      }
    }
  }

  /** For non-negative reals, comparing the squares is comparing the numbers. */
  lemma SquaresOrdered(u: real, v: real)
    requires 0.0 <= u && 0.0 <= v
    ensures u < v <==> Sq(u) < Sq(v)
  {
    if u < v {
      MulLe(u, u, v);
      MulLt(v, u, v);
      calc {
        Sq(u);
      ==
        u * u;
      <=
        u * v;
      ==
        v * u;
      <
        v * v;
      ==
        Sq(v);
      }
    } else {
      MulLe(v, v, u);
      MulLe(u, v, u);
      calc {
        Sq(v);
      ==
        v * v;
      <=
        v * u;
      ==
        u * v;
      <=
        u * u;
      ==
        Sq(u);
      }
    }
  }

  /** One step of exponential smoothing from a toward b with weight s in [0, 1]
      lands on the segment between them. */
  lemma SmoothingStaysBetween(a: real, b: real, s: real)
    requires 0.0 <= s <= 1.0
    ensures Between(a, a + (b - a) * s, b)
  {
    var d := b - a;
    var m := a + d * s;
    if d >= 0.0 {
      MulLe(d, 0.0, s);
      MulLe(d, s, 1.0);
      calc { a; == a + d * 0.0; <= m; }
      calc { m; <= a + d * 1.0; == b; }
      assert a <= m <= b;
    } else {
      MulLe(-d, 0.0, s);
      MulLe(-d, s, 1.0);
      calc { m; == a - (-d) * s; <= a - (-d) * 0.0; == a; }
      calc { b; == a - (-d) * 1.0; <= a - (-d) * s; == m; }
      assert b <= m <= a;
    }
  }

  /** After one smoothing step with weight s the remaining gap is (1 - s) times the old one. */
  lemma SmoothingGap(a: real, b: real, s: real)
    ensures b - (a + (b - a) * s) == (b - a) * (1.0 - s)
  {
    calc {
      (b - a) * (1.0 - s);
    ==
      (b - a) - (b - a) * s;
    }
  }

  /** The square of dist(a, b): the sum under the square root of math.hypot. */
  function SqDist(a: Point, b: Point): (d: real)
    ensures d >= 0.0
    ensures d == 0.0 <==> a == b
  {
    SqSign(a.x - b.x);
    SqSign(a.y - b.y);
    Sq(a.x - b.x) + Sq(a.y - b.y)
  }

  lemma SqDistSymmetric(a: Point, b: Point)
    ensures SqDist(a, b) == SqDist(b, a)
  {
    calc {
      Sq(a.x - b.x);
    ==
      (a.x - b.x) * (a.x - b.x);
    ==
      (b.x - a.x) * (b.x - a.x);
    ==
      Sq(b.x - a.x);
    }
    calc {
      Sq(a.y - b.y);
    ==
      (a.y - b.y) * (a.y - b.y);
    ==
      (b.y - a.y) * (b.y - a.y);
    ==
      Sq(b.y - a.y);
    }
  }

  /** dist(a, b) < k, decided without the square root. */
  predicate Within(a: Point, b: Point, k: real) {
    0.0 < k && SqDist(a, b) < Sq(k)
  }

  /** dist(a, b) > k, decided without the square root. */
  predicate Farther(a: Point, b: Point, k: real) {
    k < 0.0 || SqDist(a, b) > Sq(k)
  }

  /** Whatever non-negative d has Sq(d) == SqDist(a, b), that is, whatever d is the
      Euclidean distance math.hypot returns, the comparisons the game makes against d
      agree with Within and Farther, and d is zero exactly for equal points. */
  lemma DistanceComparisons(a: Point, b: Point, d: real, k: real)
    requires 0.0 <= d && Sq(d) == SqDist(a, b)
    ensures d < k <==> Within(a, b, k)
    ensures d > k <==> Farther(a, b, k)
    ensures d == 0.0 <==> a == b
  {
    if 0.0 <= k {
      SquaresOrdered(d, k);
      SquaresOrdered(k, d);
    }
    SqSign(d);
  }

  /** random.randint(lo, hi) driven by an injected raw draw: every integer is folded
      onto the closed range, and a draw already inside the range is the result. */
  function RandInt(lo: int, hi: int, raw: int): (n: int)
    requires lo <= hi
    ensures lo <= n <= hi
    ensures lo <= raw <= hi ==> n == raw
  {
    lo + (raw - lo) % (hi - lo + 1)
  }

  /** The point lies in [margin, width - margin] x [margin, height - margin]. */
  predicate InMargin(p: Point, width: int, height: int, margin: int) {
    margin as real <= p.x <= (width - margin) as real &&
    margin as real <= p.y <= (height - margin) as real
  }

  /** random_pos(width, height, margin): two independent randint draws. The ranges
      must not be empty, which randint demands as well. */
  function RandomPos(width: int, height: int, margin: int, rawX: int, rawY: int): (p: Point)
    requires margin <= width - margin && margin <= height - margin
    ensures InMargin(p, width, height, margin)
    ensures p.x == p.x.Floor as real && p.y == p.y.Floor as real
    ensures margin <= rawX <= width - margin && margin <= rawY <= height - margin ==>
              p == FromInts(rawX, rawY)
  {
    FromInts(RandInt(margin, width - margin, rawX), RandInt(margin, height - margin, rawY))
  }
}

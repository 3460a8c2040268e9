/** Food and power-up orbs (backend/food.py): food is placed by rejection sampling
    away from the snake body, and each orb spawns with a small chance only while
    none of its kind is on the board. */
module Food {
  import opened Wrappers
  import opened Geometry

  /** random_pos keeps every spawned point this far from the board edges. */
  const Margin := 20
  /** Food must land farther than this from every body segment. */
  const Clearance := 25.0
  const GoldChance := 0.2
  const BlueChance := 0.01
  const InvisibleChance := 0.005

  datatype FoodKind = Normal | Gold

  /** A board on which random_pos has a non-empty range on both axes; randint raises
      on an empty range. */
  predicate BoardFits(width: int, height: int) {
    Margin <= width - Margin && Margin <= height - Margin
  }

  /** The kind chosen by one random.random() draw. */
  function KindFor(roll: real): (k: FoodKind)
    ensures k == Gold <==> roll < GoldChance
  {
    if roll < GoldChance then Gold else Normal
  }

  /** The candidate point one random_pos call produces from the raw draw pair. */
  function Candidate(width: int, height: int, draw: (int, int)): (p: Point)
    requires BoardFits(width, height)
    ensures InMargin(p, width, height, Margin)
  {
    RandomPos(width, height, Margin, draw.0, draw.1)
  }

  /** The acceptance test of spawn_food: farther than 25 from every segment. */
  predicate ClearOfBody(p: Point, body: seq<Point>) {
    forall i :: 0 <= i < |body| ==> Farther(p, body[i], Clearance)
  }

  /** The index of the first candidate in the draw sequence that the rejection loop
      accepts, or None when it accepts none of them. */
  function FirstClear(tries: seq<(int, int)>, body: seq<Point>, width: int, height: int)
    : (r: Option<nat>)
    requires BoardFits(width, height)
    ensures r.Some? ==> r.value < |tries| && ClearOfBody(Candidate(width, height, tries[r.value]), body)
    ensures r.Some? ==> forall j :: 0 <= j < r.value ==> !ClearOfBody(Candidate(width, height, tries[j]), body)
    ensures r.None? ==> forall j :: 0 <= j < |tries| ==> !ClearOfBody(Candidate(width, height, tries[j]), body)
    decreases |tries|
  {
    if |tries| == 0 then None
    else if ClearOfBody(Candidate(width, height, tries[0]), body) then Some(0)
    else
      var rest := FirstClear(tries[1..], body, width, height);
      assert forall j :: 1 <= j < |tries| ==> tries[1..][j - 1] == tries[j];
      if rest.None? then None else Some(rest.value + 1)
  }

  /** What spawn_food returns when it returns: the first accepted candidate and the
      kind drawn after it. */
  function SpawnedFood(body: seq<Point>, width: int, height: int, tries: seq<(int, int)>, goldRoll: real)
    : (r: Option<(Point, FoodKind)>)
    requires BoardFits(width, height)
    ensures r.Some? ==> ClearOfBody(r.value.0, body) && InMargin(r.value.0, width, height, Margin)
    ensures r.Some? ==> (r.value.1 == Gold <==> goldRoll < GoldChance)
    ensures r.None? <==> forall j :: 0 <= j < |tries| ==> !ClearOfBody(Candidate(width, height, tries[j]), body)
  {
    var k := FirstClear(tries, body, width, height);
    if k.None? then None else Some((Candidate(width, height, tries[k.value]), KindFor(goldRoll)))
  }

  /** spawn_food: the rejection loop, walking the given candidate draws in order. It
      reads the body and changes nothing. */
  method SpawnFood(body: seq<Point>, width: int, height: int, tries: seq<(int, int)>, goldRoll: real)
    returns (r: Option<(Point, FoodKind)>)
    requires BoardFits(width, height)
    ensures r == SpawnedFood(body, width, height, tries, goldRoll)
    ensures r.Some? ==> ClearOfBody(r.value.0, body) && InMargin(r.value.0, width, height, Margin)
  {
    var i := 0;
    while i < |tries|
      invariant 0 <= i <= |tries|
      invariant forall j :: 0 <= j < i ==> !ClearOfBody(Candidate(width, height, tries[j]), body)
    {
      var p := RandomPos(width, height, Margin, tries[i].0, tries[i].1);
      var clear := true;
      var k := 0;
      while k < |body|
        invariant 0 <= k <= |body|
        invariant clear <==> forall m :: 0 <= m < k ==> Farther(p, body[m], Clearance)
      {
        if !Farther(p, body[k], Clearance) {
          clear := false;
        }
        k := k + 1;
      }
      if clear {
        assert p == Candidate(width, height, tries[i]);
        assert FirstClear(tries, body, width, height) == Some(i);
        return Some((p, KindFor(goldRoll)));
      }
      i := i + 1;
    }
    return None;
  }

  /** maybe_spawn_blue and maybe_spawn_invisible: an orb already on the board is kept;
      otherwise a new one appears at random_pos exactly when the roll is below the
      spawn chance. */
  function MaybeSpawn(orb: Option<Point>, chance: real, roll: real,
                      width: int, height: int, rawX: int, rawY: int): (r: Option<Point>)
    requires BoardFits(width, height)
    ensures orb.Some? ==> r == orb
    ensures orb.None? ==> (r.Some? <==> roll < chance)
    ensures orb.None? && r.Some? ==> InMargin(r.value, width, height, Margin)
  {
    if orb.None? && roll < chance then Some(RandomPos(width, height, Margin, rawX, rawY)) else orb
  }

  /** maybe_spawn_blue: chance one in a hundred per frame. */
  function MaybeSpawnBlue(orb: Option<Point>, roll: real, width: int, height: int, rawX: int, rawY: int)
    : (r: Option<Point>)
    requires BoardFits(width, height)
    ensures orb.Some? ==> r == orb
    ensures orb.None? ==> (r.Some? <==> roll < 0.01)
    ensures orb.None? && r.Some? ==> InMargin(r.value, width, height, Margin)
  {
    MaybeSpawn(orb, BlueChance, roll, width, height, rawX, rawY)
  }

  /** maybe_spawn_invisible: chance one in two hundred per frame. */
  function MaybeSpawnInvisible(orb: Option<Point>, roll: real, width: int, height: int, rawX: int, rawY: int)
    : (r: Option<Point>)
    requires BoardFits(width, height)
    ensures orb.Some? ==> r == orb
    ensures orb.None? ==> (r.Some? <==> roll < 0.005)
    ensures orb.None? && r.Some? ==> InMargin(r.value, width, height, Margin)
  {
    MaybeSpawn(orb, InvisibleChance, roll, width, height, rawX, rawY)
  }
}

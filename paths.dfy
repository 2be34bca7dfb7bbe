/** What a path over the cost grid is: grid points, 4-adjacency, the
    Manhattan heuristic, passable cells and the summed cost of a route. */
module Paths {
  import opened Grid

  datatype Point = Point(x: int, y: int)

  function Abs(a: int): int
  {
    if a < 0 then -a else a
  }

  /** `calculateHeuristic`: the Manhattan distance |dx| + |dy|. */
  function Heuristic(a: Point, b: Point): (h: int)
    ensures h >= 0
  {
    Abs(a.x - b.x) + Abs(a.y - b.y)
  }

  lemma HeuristicProperties(a: Point, b: Point)
    ensures Heuristic(a, b) == Heuristic(b, a)
    ensures Heuristic(a, b) == 0 <==> a == b
  {
  }

  /** One move of the search: exactly one coordinate changes by one. */
  predicate Adjacent(a: Point, b: Point)
  {
    Heuristic(a, b) == 1
  }

  /** The four moves in the order the search tries them: y + 1, y - 1,
      x + 1, x - 1. */
  function Neighbor(p: Point, d: int): Point
  {
    if d == 0 then Point(p.x, p.y + 1)
    else if d == 1 then Point(p.x, p.y - 1)
    else if d == 2 then Point(p.x + 1, p.y)
    else Point(p.x - 1, p.y)
  }

  /** The four moves are exactly the adjacent points. */
  lemma NeighborsAreAdjacent(p: Point, d: int)
    requires 0 <= d < 4
    ensures Adjacent(p, Neighbor(p, d)) && Neighbor(p, d) != p
  {
  }

  lemma AdjacentIsNeighbor(a: Point, b: Point) returns (d: int)
    requires Adjacent(a, b)
    ensures 0 <= d < 4 && b == Neighbor(a, d)
  {
    if b.y == a.y + 1 { d := 0; }
    else if b.y == a.y - 1 { d := 1; }
    else if b.x == a.x + 1 { d := 2; }
    else { d := 3; }
  }

  /** One move changes the heuristic to a fixed goal by at most one. */
  lemma HeuristicStep(a: Point, b: Point, e: Point)
    requires Adjacent(a, b)
    ensures Heuristic(a, e) <= 1 + Heuristic(b, e)
  {
  }

  /** A cell the search may enter: inside the grid and not a wall. */
  predicate Passable(t: Terrain, p: Point)
  {
    t.InBounds(p.x, p.y) && t.ValidIndex(p.x, p.y) && t.At(p.x, p.y).obstacle != Wall
  }

  function CostAt(t: Terrain, p: Point): int
    requires t.ValidIndex(p.x, p.y)
  {
    t.At(p.x, p.y).cost
  }

  /** Every cell after the first is passable and consecutive cells are
      adjacent; the first cell (the start) may be anything. */
  predicate Walk(t: Terrain, path: seq<Point>)
  {
    (forall i :: 1 <= i < |path| ==> Passable(t, path[i]))
    && (forall i :: 0 <= i < |path| - 1 ==> Adjacent(path[i], path[i + 1]))
  }

  predicate IsPath(t: Terrain, path: seq<Point>, s: Point, e: Point)
  {
    |path| >= 1 && path[0] == s && path[|path| - 1] == e && Walk(t, path)
  }

  /** The cost the search accumulates: the cost of every cell entered,
      that is of every cell but the first. */
  function PathCost(t: Terrain, path: seq<Point>): int
    requires Walk(t, path)
    decreases |path|
  {
    if |path| <= 1 then 0
    else
      assert Walk(t, path[1..]) by {
        assert forall i :: 1 <= i < |path| - 1 ==> path[1..][i] == path[i + 1];
      }
      CostAt(t, path[1]) + PathCost(t, path[1..])
  }

  lemma WalkTail(t: Terrain, path: seq<Point>)
    requires Walk(t, path) && |path| >= 1
    ensures Walk(t, path[1..])
  {
    assert forall i :: 1 <= i < |path| - 1 ==> path[1..][i] == path[i + 1];
  }

  /** Passable cells cost nothing negative. */
  ghost predicate NonNegativeCosts(t: Terrain)
  {
    forall i :: 0 <= i < |t.cells| ==> t.cells[i].obstacle != Wall ==> t.cells[i].cost >= 0
  }

  /** Passable cells cost at least one: the Manhattan heuristic is then
      admissible. */
  ghost predicate UnitCosts(t: Terrain)
  {
    forall i :: 0 <= i < |t.cells| ==> t.cells[i].obstacle != Wall ==> t.cells[i].cost >= 1
  }

  /** With costs of at least one, no walk costs less than the Manhattan
      distance between its ends. */
  lemma {:induction false} HeuristicAdmissible(t: Terrain, path: seq<Point>)
    requires Walk(t, path) && |path| >= 1 && UnitCosts(t)
    ensures Heuristic(path[0], path[|path| - 1]) <= PathCost(t, path)
    decreases |path|
  {
    if |path| > 1 {
      WalkTail(t, path);
      HeuristicAdmissible(t, path[1..]);
      HeuristicStep(path[0], path[1], path[|path| - 1]);
      assert Passable(t, path[1]);
    }
  }
}

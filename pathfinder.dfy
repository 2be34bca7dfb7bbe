/** 4-neighbour A* search over the grid's cells with the Manhattan
    heuristic, and the repeated search towards the cells of a zone. */
module Pathfinder {
  import opened Util
  import opened Grid
  import opened Paths

  /** An entry of the open set: a point, the cost it was reached with and
      its heuristic. */
  datatype Node = Node(point: Point, g: int, h: int)
  {
    function F(): int { g + h }
  }

  /** The vector index of a point, and the point an index stands for. */
  function Idx(t: Terrain, p: Point): int
  {
    t.Index(p.x, p.y)
  }

  function Pt(t: Terrain, i: int): Point
  {
    if t.width > 0 then Point(i % t.width, i / t.width) else Point(0, 0)
  }

  lemma PtIdx(t: Terrain, i: int)
    requires t.WellFormed() && 0 <= i < |t.cells|
    ensures t.width > 0 && t.InBounds(Pt(t, i).x, Pt(t, i).y) && Idx(t, Pt(t, i)) == i
  {
    IndexSurjective(t, i);
  }

  lemma IdxPt(t: Terrain, p: Point)
    requires t.WellFormed() && t.InBounds(p.x, p.y)
    ensures 0 <= Idx(t, p) < |t.cells| && Pt(t, Idx(t, p)) == p
  {
    IndexInRange(t, p.x, p.y);
    CoordsOfIndex(t.width, p.x, p.y);
  }

  lemma IdxInjective(t: Terrain, p: Point, q: Point)
    requires t.InBounds(p.x, p.y) && t.InBounds(q.x, q.y)
    ensures Idx(t, p) == Idx(t, q) <==> p == q
  {
    IndexInjective(t, p.x, p.y, q.x, q.y);
  }

  // -----------------------------------------------------------------------
  // What a call of findPath promises.

  /** The contract of `findPath(start, end)`: empty for start == end or a
      wall at end; otherwise a path from start to end exactly when one
      exists; and, when every passable cell costs at least one, a cheapest
      one. */
  ghost predicate FoundPath(t: Terrain, start: Point, end: Point, path: seq<Point>)
    requires t.ValidIndex(end.x, end.y)
  {
    (start == end ==> path == [])
    && (t.At(end.x, end.y).obstacle == Wall ==> path == [])
    && (path != [] ==> IsPath(t, path, start, end))
    && (path == [] && start != end && t.At(end.x, end.y).obstacle != Wall ==>
          forall other :: !IsPath(t, other, start, end))
    && (path != [] && UnitCosts(t) ==>
          forall other :: IsPath(t, other, start, end) ==> PathCost(t, path) <= PathCost(t, other))
  }

  // -----------------------------------------------------------------------
  // The search state and its invariant. `gs` is the gCost vector, with -1
  // for the unreached INT_MAX; `cf` is the cameFrom vector; `st` records,
  // for the proof only, when each cell was last improved.

  predicate InOpen(open: seq<Node>, p: Point, g: int)
  {
    exists k :: 0 <= k < |open| && open[k].point == p && open[k].g == g
  }

  ghost predicate NodeOk(t: Terrain, end: Point, gs: seq<int>, n: Node)
  {
    t.InBounds(n.point.x, n.point.y) && 0 <= Idx(t, n.point) < |gs|
    && 0 <= gs[Idx(t, n.point)] <= n.g && n.h == Heuristic(n.point, end)
  }

  /** The parent recorded for reached cell `i` is an adjacent reached cell
      from which `i` was entered at no more than its recorded cost; the
      parent's cost is smaller, or equal and improved earlier. */
  ghost predicate ParentOk(t: Terrain, gs: seq<int>, cf: seq<Point>, st: seq<int>, i: int)
    requires 0 <= i < |gs| == |cf| == |st| == |t.cells|
  {
    var p := cf[i];
    t.InBounds(p.x, p.y) && 0 <= Idx(t, p) < |gs| && Adjacent(p, Pt(t, i))
    && gs[Idx(t, p)] >= 0 && gs[Idx(t, p)] + t.cells[i].cost <= gs[i]
    && (gs[Idx(t, p)] < gs[i] || st[Idx(t, p)] < st[i])
  }

  /** Moving from reached cell `i` into `q` cannot improve `q`. */
  ghost predicate RelaxedTo(t: Terrain, gs: seq<int>, i: int, q: Point)
    requires 0 <= i < |gs|
  {
    Passable(t, q) ==>
      0 <= Idx(t, q) < |gs| && gs[Idx(t, q)] >= 0 && gs[Idx(t, q)] <= gs[i] + CostAt(t, q)
  }

  ghost predicate Relaxed(t: Terrain, gs: seq<int>, i: int)
    requires 0 <= i < |gs|
  {
    forall d :: 0 <= d < 4 ==> RelaxedTo(t, gs, i, Neighbor(Pt(t, i), d))
  }

  /** The part of the invariant the walk back through cameFrom needs:
      every reached cell other than the start has a parent. */
  ghost predicate Parents(t: Terrain, start: Point, gs: seq<int>, cf: seq<Point>, st: seq<int>)
  {
    t.WellFormed() && t.InBounds(start.x, start.y) && NonNegativeCosts(t)
    && |gs| == |t.cells| && |cf| == |gs| && |st| == |gs|
    && (forall i :: 0 <= i < |gs| ==> 0 <= st[i])
    && 0 <= Idx(t, start) < |gs| && gs[Idx(t, start)] == 0 && cf[Idx(t, start)] == Point(-1, -1)
    && (forall i :: 0 <= i < |gs| && gs[i] >= 0 && i != Idx(t, start) ==>
          t.cells[i].obstacle != Wall && ParentOk(t, gs, cf, st, i))
  }

  lemma BaseParents(t: Terrain, start: Point, end: Point, gs: seq<int>, cf: seq<Point>,
                    st: seq<int>, time: int, open: seq<Node>)
    requires BaseInv(t, start, end, gs, cf, st, time, open)
    ensures Parents(t, start, gs, cf, st)
  {
  }

  /** Everything the search keeps true, except the closure property. */
  ghost predicate BaseInv(t: Terrain, start: Point, end: Point, gs: seq<int>, cf: seq<Point>,
                          st: seq<int>, time: int, open: seq<Node>)
  {
    t.WellFormed() && t.InBounds(start.x, start.y) && NonNegativeCosts(t)
    && |gs| == |t.cells| && |cf| == |gs| && |st| == |gs|
    && (forall i :: 0 <= i < |gs| ==> gs[i] >= -1 && 0 <= st[i] < time)
    && 0 <= Idx(t, start) < |gs| && gs[Idx(t, start)] == 0 && cf[Idx(t, start)] == Point(-1, -1)
    && (forall k :: 0 <= k < |open| ==> NodeOk(t, end, gs, open[k]))
    && (forall i :: 0 <= i < |gs| && gs[i] >= 0 && i != Idx(t, start) ==>
          t.cells[i].obstacle != Wall && ParentOk(t, gs, cf, st, i))
    && (t.InBounds(end.x, end.y) && 0 <= Idx(t, end) < |gs| && gs[Idx(t, end)] >= 0 ==>
          InOpen(open, end, gs[Idx(t, end)]))
  }

  /** Every reached cell is either waiting in the open set with its
      current cost, or has already passed that cost on to its neighbours. */
  ghost predicate ClosedExcept(t: Terrain, gs: seq<int>, open: seq<Node>, c: int)
  {
    forall i :: 0 <= i < |gs| && gs[i] >= 0 && i != c ==>
      InOpen(open, Pt(t, i), gs[i]) || Relaxed(t, gs, i)
  }

  ghost predicate SearchInv(t: Terrain, start: Point, end: Point, gs: seq<int>, cf: seq<Point>,
                            st: seq<int>, time: int, open: seq<Node>)
  {
    BaseInv(t, start, end, gs, cf, st, time, open) && ClosedExcept(t, gs, open, -1)
  }

  /** While the cell `c` just popped is being expanded: neighbours
      0 .. d - 1 of it have been relaxed. */
  ghost predicate ExpandInv(t: Terrain, start: Point, end: Point, gs: seq<int>, cf: seq<Point>,
                            st: seq<int>, time: int, open: seq<Node>, c: Point, d: int)
  {
    BaseInv(t, start, end, gs, cf, st, time, open)
    && t.InBounds(c.x, c.y) && 0 <= Idx(t, c) < |gs| && gs[Idx(t, c)] >= 0 && c != end
    && ClosedExcept(t, gs, open, Idx(t, c))
    && (forall e :: 0 <= e < d ==> RelaxedTo(t, gs, Idx(t, c), Neighbor(c, e)))
  }

  // -----------------------------------------------------------------------
  // Termination measure: unreached cells, then the sum of reached costs.

  function Unreached(gs: seq<int>): nat
    decreases |gs|
  {
    if |gs| == 0 then 0 else (if gs[0] < 0 then 1 else 0) + Unreached(gs[1..])
  }

  function Spent(gs: seq<int>): nat
    decreases |gs|
  {
    if |gs| == 0 then 0 else (if gs[0] < 0 then 0 else gs[0]) + Spent(gs[1..])
  }

  /** Improving one cell either reaches a new cell or lowers the sum. */
  lemma {:induction false} ImproveMeasure(gs: seq<int>, i: int, v: int)
    requires 0 <= i < |gs| && v >= 0 && (gs[i] < 0 || v < gs[i])
    ensures gs[i] < 0 ==> Unreached(gs[i := v]) < Unreached(gs)
    ensures gs[i] >= 0 ==> Unreached(gs[i := v]) == Unreached(gs) && Spent(gs[i := v]) < Spent(gs)
    decreases |gs|
  {
    if i > 0 {
      assert gs[i := v][1..] == gs[1..][i - 1 := v];
      ImproveMeasure(gs[1..], i - 1, v);
    } else {
      assert gs[i := v][1..] == gs[1..];
    }
  }

  // -----------------------------------------------------------------------
  // The steps of the search preserve the invariant.

  lemma InitInv(t: Terrain, start: Point, end: Point, gs: seq<int>, cf: seq<Point>, st: seq<int>)
    requires t.WellFormed() && t.InBounds(start.x, start.y) && NonNegativeCosts(t) && start != end
    requires |gs| == |cf| == |st| == |t.cells|
    requires 0 <= Idx(t, start) < |gs|
    requires forall i :: 0 <= i < |gs| ==> st[i] == 0
    requires forall i :: 0 <= i < |gs| ==> gs[i] == if i == Idx(t, start) then 0 else -1
    requires cf[Idx(t, start)] == Point(-1, -1)
    ensures SearchInv(t, start, end, gs, cf, st, 1, [Node(start, 0, Heuristic(start, end))])
  {
    var open := [Node(start, 0, Heuristic(start, end))];
    var s := Idx(t, start);
    IdxPt(t, start);
    if t.InBounds(end.x, end.y) {
      IdxInjective(t, start, end);
    }
    assert InOpen(open, Pt(t, s), gs[s]) by { assert open[0].point == Pt(t, s); }
  }

  lemma InOpenRemove(open: seq<Node>, k: int, p: Point, g: int)
    requires 0 <= k < |open| && InOpen(open, p, g) && open[k].point != p
    ensures InOpen(open[..k] + open[k + 1..], p, g)
  {
    var j :| 0 <= j < |open| && open[j].point == p && open[j].g == g;
    var rest := open[..k] + open[k + 1..];
    if j < k {
      assert rest[j] == open[j];
    } else {
      assert rest[j - 1] == open[j];
    }
  }

  /** Popping entry `k`, for a point other than the goal, leaves the
      invariant intact except that the popped cell is still to expand. */
  lemma PopInv(t: Terrain, start: Point, end: Point, gs: seq<int>, cf: seq<Point>,
               st: seq<int>, time: int, open: seq<Node>, k: int)
    requires SearchInv(t, start, end, gs, cf, st, time, open)
    requires 0 <= k < |open| && open[k].point != end
    ensures ExpandInv(t, start, end, gs, cf, st, time, open[..k] + open[k + 1..], open[k].point, 0)
  {
    assert NodeOk(t, end, gs, open[k]);
    PopKeepsBase(t, start, end, gs, cf, st, time, open, k);
    PopKeepsClosed(t, gs, open, k);
  }

  lemma PopKeepsBase(t: Terrain, start: Point, end: Point, gs: seq<int>, cf: seq<Point>,
                     st: seq<int>, time: int, open: seq<Node>, k: int)
    requires BaseInv(t, start, end, gs, cf, st, time, open)
    requires 0 <= k < |open| && open[k].point != end
    ensures BaseInv(t, start, end, gs, cf, st, time, open[..k] + open[k + 1..])
  {
    var rest := open[..k] + open[k + 1..];
    forall j | 0 <= j < |rest| ensures NodeOk(t, end, gs, rest[j]) {
      if j < k { assert rest[j] == open[j]; } else { assert rest[j] == open[j + 1]; }
    }
    if t.InBounds(end.x, end.y) && 0 <= Idx(t, end) < |gs| && gs[Idx(t, end)] >= 0 {
      InOpenRemove(open, k, end, gs[Idx(t, end)]);
    }
  }

  lemma PopKeepsClosed(t: Terrain, gs: seq<int>, open: seq<Node>, k: int)
    requires t.WellFormed() && |gs| == |t.cells|
    requires ClosedExcept(t, gs, open, -1) && 0 <= k < |open|
    ensures ClosedExcept(t, gs, open[..k] + open[k + 1..], Idx(t, open[k].point))
  {
    var c := open[k].point;
    var rest := open[..k] + open[k + 1..];
    forall i | 0 <= i < |gs| && gs[i] >= 0 && i != Idx(t, c)
      ensures InOpen(rest, Pt(t, i), gs[i]) || Relaxed(t, gs, i)
    {
      if InOpen(open, Pt(t, i), gs[i]) {
        PtIdx(t, i);
        InOpenRemove(open, k, Pt(t, i), gs[i]);
      }
    }
  }

  /** A neighbour that is not passable needs no relaxing. */
  lemma SkipInv(t: Terrain, start: Point, end: Point, gs: seq<int>, cf: seq<Point>,
                st: seq<int>, time: int, open: seq<Node>, c: Point, d: int)
    requires ExpandInv(t, start, end, gs, cf, st, time, open, c, d) && 0 <= d < 4
    requires !Passable(t, Neighbor(c, d))
    ensures ExpandInv(t, start, end, gs, cf, st, time, open, c, d + 1)
  {
  }

  /** A passable neighbour whose cost does not improve is already relaxed. */
  lemma KeepInv(t: Terrain, start: Point, end: Point, gs: seq<int>, cf: seq<Point>,
                st: seq<int>, time: int, open: seq<Node>, c: Point, d: int)
    requires ExpandInv(t, start, end, gs, cf, st, time, open, c, d) && 0 <= d < 4
    requires Passable(t, Neighbor(c, d)) && 0 <= Idx(t, Neighbor(c, d)) < |gs|
    requires gs[Idx(t, Neighbor(c, d))] >= 0
    requires gs[Idx(t, c)] + CostAt(t, Neighbor(c, d)) >= gs[Idx(t, Neighbor(c, d))]
    ensures ExpandInv(t, start, end, gs, cf, st, time, open, c, d + 1)
  {
  }

  /** The preconditions shared by the three halves of an improvement:
      `q` is neighbour `d` of the expanded cell `c`, passable, and its
      cost improves to `v`. */
  ghost predicate Improving(t: Terrain, start: Point, end: Point, gs: seq<int>, cf: seq<Point>,
                            st: seq<int>, time: int, open: seq<Node>, c: Point, d: int,
                            q: Point, qi: int, v: int)
  {
    ExpandInv(t, start, end, gs, cf, st, time, open, c, d) && 0 <= d < 4
    && q == Neighbor(c, d) && Passable(t, q) && qi == Idx(t, q) && 0 <= qi < |gs|
    && v == gs[Idx(t, c)] + CostAt(t, q) && (gs[qi] < 0 || v < gs[qi])
  }

  lemma ImproveFacts(t: Terrain, start: Point, end: Point, gs: seq<int>, cf: seq<Point>,
                     st: seq<int>, time: int, open: seq<Node>, c: Point, d: int,
                     q: Point, qi: int, v: int)
    requires Improving(t, start, end, gs, cf, st, time, open, c, d, q, qi, v)
    ensures v >= 0 && qi != Idx(t, c) && qi != Idx(t, start) && Pt(t, qi) == q
    ensures Adjacent(c, q) && t.InBounds(q.x, q.y) && t.cells[qi].obstacle != Wall
    ensures t.cells[qi].cost == CostAt(t, q)
  {
    NeighborsAreAdjacent(c, d);
    IdxInjective(t, c, q);
    IdxPt(t, q);
    assert t.cells[qi].obstacle != Wall;
    if qi == Idx(t, start) {
      assert false;
    }
  }

  /** Improving `q`: every open entry still bounds its cell's cost. */
  lemma ImproveNodes(t: Terrain, start: Point, end: Point, gs: seq<int>, cf: seq<Point>,
                     st: seq<int>, time: int, open: seq<Node>, c: Point, d: int,
                     q: Point, qi: int, v: int)
    requires Improving(t, start, end, gs, cf, st, time, open, c, d, q, qi, v)
    ensures forall k :: 0 <= k < |open| + 1 ==>
      NodeOk(t, end, gs[qi := v], (open + [Node(q, v, Heuristic(q, end))])[k])
  {
    ImproveFacts(t, start, end, gs, cf, st, time, open, c, d, q, qi, v);
    var gs' := gs[qi := v];
    var open' := open + [Node(q, v, Heuristic(q, end))];
    forall k | 0 <= k < |open'| ensures NodeOk(t, end, gs', open'[k]) {
      if k < |open| {
        assert open'[k] == open[k];
        assert NodeOk(t, end, gs, open[k]);
      }
    }
  }

  /** Improving `q`: every reached cell keeps a good parent. */
  lemma ImproveParents(t: Terrain, start: Point, end: Point, gs: seq<int>, cf: seq<Point>,
                       st: seq<int>, time: int, open: seq<Node>, c: Point, d: int,
                       q: Point, qi: int, v: int)
    requires Improving(t, start, end, gs, cf, st, time, open, c, d, q, qi, v)
    ensures forall i :: 0 <= i < |gs| && gs[qi := v][i] >= 0 && i != Idx(t, start) ==>
      t.cells[i].obstacle != Wall && ParentOk(t, gs[qi := v], cf[qi := c], st[qi := time], i)
  {
    ImproveFacts(t, start, end, gs, cf, st, time, open, c, d, q, qi, v);
    var gs', cf', st' := gs[qi := v], cf[qi := c], st[qi := time];
    forall i | 0 <= i < |gs'| && gs'[i] >= 0 && i != Idx(t, start)
      ensures t.cells[i].obstacle != Wall && ParentOk(t, gs', cf', st', i)
    {
      if i != qi {
        assert ParentOk(t, gs, cf, st, i);
        assert t.cells[i].cost >= 0;
      }
    }
  }

  /** Improving `q`: a reached goal is still waiting in the open set. */
  lemma ImproveEnd(t: Terrain, start: Point, end: Point, gs: seq<int>, cf: seq<Point>,
                   st: seq<int>, time: int, open: seq<Node>, c: Point, d: int,
                   q: Point, qi: int, v: int)
    requires Improving(t, start, end, gs, cf, st, time, open, c, d, q, qi, v)
    requires t.InBounds(end.x, end.y) && 0 <= Idx(t, end) < |gs| && gs[qi := v][Idx(t, end)] >= 0
    ensures InOpen(open + [Node(q, v, Heuristic(q, end))], end, gs[qi := v][Idx(t, end)])
  {
    var open' := open + [Node(q, v, Heuristic(q, end))];
    if q == end {
      assert open'[|open|].point == q;
    } else {
      IdxInjective(t, q, end);
      var j :| 0 <= j < |open| && open[j].point == end && open[j].g == gs[Idx(t, end)];
      assert open'[j] == open[j];
    }
  }

  /** Improving `q`: the invariant apart from closure. */
  lemma ImproveBase(t: Terrain, start: Point, end: Point, gs: seq<int>, cf: seq<Point>,
                    st: seq<int>, time: int, open: seq<Node>, c: Point, d: int,
                    q: Point, qi: int, v: int)
    requires Improving(t, start, end, gs, cf, st, time, open, c, d, q, qi, v)
    ensures BaseInv(t, start, end, gs[qi := v], cf[qi := c], st[qi := time], time + 1,
                    open + [Node(q, v, Heuristic(q, end))])
  {
    ImproveFacts(t, start, end, gs, cf, st, time, open, c, d, q, qi, v);
    ImproveNodes(t, start, end, gs, cf, st, time, open, c, d, q, qi, v);
    ImproveParents(t, start, end, gs, cf, st, time, open, c, d, q, qi, v);
    if t.InBounds(end.x, end.y) && 0 <= Idx(t, end) < |gs| && gs[qi := v][Idx(t, end)] >= 0 {
      ImproveEnd(t, start, end, gs, cf, st, time, open, c, d, q, qi, v);
    }
  }

  /** Improving `q`: closure, for every cell but `c`. */
  lemma ImproveClosed(t: Terrain, start: Point, end: Point, gs: seq<int>, cf: seq<Point>,
                      st: seq<int>, time: int, open: seq<Node>, c: Point, d: int,
                      q: Point, qi: int, v: int)
    requires Improving(t, start, end, gs, cf, st, time, open, c, d, q, qi, v)
    ensures ClosedExcept(t, gs[qi := v], open + [Node(q, v, Heuristic(q, end))], Idx(t, c))
  {
    ImproveFacts(t, start, end, gs, cf, st, time, open, c, d, q, qi, v);
    var ci := Idx(t, c);
    var gs' := gs[qi := v];
    var open' := open + [Node(q, v, Heuristic(q, end))];
    forall i | 0 <= i < |gs'| && gs'[i] >= 0 && i != ci
      ensures InOpen(open', Pt(t, i), gs'[i]) || Relaxed(t, gs', i)
    {
      if i == qi {
        assert open'[|open|].point == Pt(t, i);
      } else if InOpen(open, Pt(t, i), gs[i]) {
        var j :| 0 <= j < |open| && open[j].point == Pt(t, i) && open[j].g == gs[i];
        assert open'[j] == open[j];
      } else {
        forall e | 0 <= e < 4 ensures RelaxedTo(t, gs', i, Neighbor(Pt(t, i), e)) {
          assert RelaxedTo(t, gs, i, Neighbor(Pt(t, i), e));
        }
      }
    }
  }

  /** Improving `q`: neighbours 0 .. d of `c` are now relaxed. */
  lemma ImproveRelaxed(t: Terrain, start: Point, end: Point, gs: seq<int>, cf: seq<Point>,
                       st: seq<int>, time: int, open: seq<Node>, c: Point, d: int,
                       q: Point, qi: int, v: int)
    requires Improving(t, start, end, gs, cf, st, time, open, c, d, q, qi, v)
    ensures forall e :: 0 <= e < d + 1 ==> RelaxedTo(t, gs[qi := v], Idx(t, c), Neighbor(c, e))
  {
    ImproveFacts(t, start, end, gs, cf, st, time, open, c, d, q, qi, v);
    var ci := Idx(t, c);
    var gs' := gs[qi := v];
    forall e | 0 <= e < d + 1 ensures RelaxedTo(t, gs', ci, Neighbor(c, e)) {
      if e < d {
        assert RelaxedTo(t, gs, ci, Neighbor(c, e));
        if Passable(t, Neighbor(c, e)) {
          IdxInjective(t, q, Neighbor(c, e));
        }
      }
    }
  }

  /** Improving a passable neighbour `q` of the expanded cell `c`: record
      `c` as its parent, store the new cost, stamp it and push it. */
  lemma ImproveInv(t: Terrain, start: Point, end: Point, gs: seq<int>, cf: seq<Point>,
                   st: seq<int>, time: int, open: seq<Node>, c: Point, d: int,
                   q: Point, qi: int, v: int)
    requires Improving(t, start, end, gs, cf, st, time, open, c, d, q, qi, v)
    ensures ExpandInv(t, start, end, gs[qi := v], cf[qi := c], st[qi := time], time + 1,
                      open + [Node(q, v, Heuristic(q, end))], c, d + 1)
  {
    ImproveFacts(t, start, end, gs, cf, st, time, open, c, d, q, qi, v);
    ImproveBase(t, start, end, gs, cf, st, time, open, c, d, q, qi, v);
    ImproveClosed(t, start, end, gs, cf, st, time, open, c, d, q, qi, v);
    ImproveRelaxed(t, start, end, gs, cf, st, time, open, c, d, q, qi, v);
  }

  lemma {:induction false} DoneInv(t: Terrain, start: Point, end: Point, gs: seq<int>, cf: seq<Point>,
                st: seq<int>, time: int, open: seq<Node>, c: Point)
    requires ExpandInv(t, start, end, gs, cf, st, time, open, c, 4)
    ensures SearchInv(t, start, end, gs, cf, st, time, open)
  {
    IdxPt(t, c);
    assert Relaxed(t, gs, Idx(t, c));
  }

  // -----------------------------------------------------------------------
  // What the invariant says about complete routes.

  /** Along any walk to the goal from a reached cell: some open entry has
      a priority no larger than the walk's cost on top of the cell's
      cost bound `c`; with unit costs, an entry of priority no larger. */
  lemma {:induction false} OpenOnWalk(t: Terrain, start: Point, end: Point, gs: seq<int>, cf: seq<Point>,
                     st: seq<int>, time: int, open: seq<Node>, path: seq<Point>, c: int)
    requires SearchInv(t, start, end, gs, cf, st, time, open)
    requires |path| >= 1 && Walk(t, path) && path[|path| - 1] == end && t.InBounds(end.x, end.y)
    requires t.InBounds(path[0].x, path[0].y) && 0 <= Idx(t, path[0]) < |gs|
    requires 0 <= gs[Idx(t, path[0])] <= c
    ensures |open| > 0
    ensures UnitCosts(t) ==> exists k :: 0 <= k < |open| && open[k].F() <= c + PathCost(t, path)
    decreases |path|
  {
    var p := path[0];
    var i := Idx(t, p);
    IdxPt(t, p);
    if InOpen(open, p, gs[i]) {
      var k :| 0 <= k < |open| && open[k].point == p && open[k].g == gs[i];
      assert NodeOk(t, end, gs, open[k]);
      if UnitCosts(t) {
        HeuristicAdmissible(t, path);
      }
    } else if |path| == 1 {
      assert false;
    } else {
      assert Relaxed(t, gs, i);
      var e := AdjacentIsNeighbor(p, path[1]);
      assert RelaxedTo(t, gs, i, Neighbor(p, e));
      assert Passable(t, path[1]);
      WalkTail(t, path);
      OpenOnWalk(t, start, end, gs, cf, st, time, open, path[1..], c + CostAt(t, path[1]));
    }
  }

  /** When the goal is popped as a minimal entry, its cost is no larger
      than that of any path (with unit costs). */
  lemma GoalCostOptimal(t: Terrain, start: Point, end: Point, gs: seq<int>, cf: seq<Point>,
                        st: seq<int>, time: int, open: seq<Node>, k: int, other: seq<Point>)
    requires SearchInv(t, start, end, gs, cf, st, time, open) && UnitCosts(t)
    requires 0 <= k < |open| && open[k].point == end
    requires forall j :: 0 <= j < |open| ==> open[k].F() <= open[j].F()
    requires IsPath(t, other, start, end) && start != end
    ensures 0 <= Idx(t, end) < |gs| && gs[Idx(t, end)] <= PathCost(t, other)
  {
    assert Passable(t, other[|other| - 1]);
    IdxPt(t, start);
    OpenOnWalk(t, start, end, gs, cf, st, time, open, other, 0);
    assert NodeOk(t, end, gs, open[k]);
    HeuristicProperties(end, end);
  }

  /** The path rebuilt when the goal is popped is a cheapest one. */
  lemma GoalPathOptimal(t: Terrain, start: Point, end: Point, gs: seq<int>, cf: seq<Point>,
                        st: seq<int>, time: int, open: seq<Node>, k: int, path: seq<Point>)
    requires SearchInv(t, start, end, gs, cf, st, time, open) && start != end
    requires 0 <= k < |open| && open[k].point == end
    requires forall j :: 0 <= j < |open| ==> open[k].F() <= open[j].F()
    requires IsPath(t, path, start, end) && 0 <= Idx(t, end) < |gs| && PathCost(t, path) <= gs[Idx(t, end)]
    requires t.ValidIndex(end.x, end.y)
    ensures FoundPath(t, start, end, path)
  {
    assert NodeOk(t, end, gs, open[k]);
    if UnitCosts(t) {
      forall other | IsPath(t, other, start, end)
        ensures PathCost(t, path) <= PathCost(t, other)
      {
        GoalCostOptimal(t, start, end, gs, cf, st, time, open, k, other);
      }
    }
  }

  /** When the open set runs empty, the goal is unreachable. */
  lemma ExhaustedUnreachable(t: Terrain, start: Point, end: Point, gs: seq<int>, cf: seq<Point>,
                             st: seq<int>, time: int, other: seq<Point>)
    requires SearchInv(t, start, end, gs, cf, st, time, []) && start != end
    ensures !IsPath(t, other, start, end)
  {
    if IsPath(t, other, start, end) {
      assert Passable(t, other[|other| - 1]);
      IdxPt(t, start);
      OpenOnWalk(t, start, end, gs, cf, st, time, [], other, 0);
    }
  }

  /** So the empty answer after the open set runs empty is the right one. */
  lemma ExhaustedFound(t: Terrain, start: Point, end: Point, gs: seq<int>, cf: seq<Point>,
                       st: seq<int>, time: int)
    requires SearchInv(t, start, end, gs, cf, st, time, []) && start != end
    requires t.ValidIndex(end.x, end.y)
    ensures FoundPath(t, start, end, [])
  {
    forall other ensures !IsPath(t, other, start, end) {
      ExhaustedUnreachable(t, start, end, gs, cf, st, time, other);
    }
  }

  lemma MinExists(open: seq<Node>) returns (k: int)
    requires |open| > 0
    ensures 0 <= k < |open| && forall j :: 0 <= j < |open| ==> open[k].F() <= open[j].F()
  {
    k := 0;
    var i := 1;
    while i < |open|
      invariant 0 <= k < i <= |open|
      invariant forall j :: 0 <= j < i ==> open[k].F() <= open[j].F()
    {
      if open[i].F() < open[k].F() {
        k := i;
      }
      i := i + 1;
    }
  }

  // -----------------------------------------------------------------------
  // findPathToZone: one findPath per non-wall cell of the zone, scanned
  // row by row, keeping the first of the results with fewest cells.

  /** Cell `c` lies in the zone's rectangle. */
  predicate InZone(z: Zone, c: Point)
  {
    z.x <= c.x < z.x + z.width && z.y <= c.y < z.y + z.height
  }

  /** Every cell of the zone addresses the cell vector (`grid.at` does not
      check its arguments). */
  ghost predicate ZoneInside(t: Terrain, z: Zone)
  {
    forall c :: InZone(z, c) ==> t.ValidIndex(c.x, c.y)
  }

  /** `a` is visited before `b` in the row-major scan. */
  predicate Before(a: Point, b: Point)
  {
    a.y < b.y || (a.y == b.y && a.x < b.x)
  }

  /** The scan has visited `c`: rows above `y`, and row `y` left of `x`. */
  predicate Scanned(z: Zone, y: int, x: int, c: Point)
  {
    InZone(z, c) && (c.y < y || (c.y == y && c.x < x))
  }

  /** `best` is the result for cell `c`, has no more cells than any other
      nonempty result, and strictly fewer than any nonempty result for a
      cell scanned before `c`. */
  ghost predicate FirstFewest(found: map<Point, seq<Point>>, best: seq<Point>, c: Point)
  {
    c in found && found[c] == best
    && (forall c' :: c' in found && found[c'] != [] ==> |best| <= |found[c']|)
    && (forall c' :: c' in found && found[c'] != [] && Before(c', c) ==> |best| < |found[c']|)
  }

  /** What the scan keeps: `found` holds the findPath answer for exactly the
      non-wall cells visited so far, and `best` is the first of the fewest. */
  ghost predicate ScanInv(t: Terrain, start: Point, z: Zone, y: int, x: int,
                          found: map<Point, seq<Point>>, best: seq<Point>)
  {
    ZoneInside(t, z)
    && (forall c :: c in found <==> Scanned(z, y, x, c) && t.ValidIndex(c.x, c.y) && t.At(c.x, c.y).obstacle != Wall)
    && Answers(t, start, found)
    && (best == [] <==> forall c :: c in found ==> found[c] == [])
    && (best != [] ==> exists c :: FirstFewest(found, best, c))
  }

  /** Every recorded answer is what findPath answers for its cell. */
  ghost predicate Answers(t: Terrain, start: Point, found: map<Point, seq<Point>>)
  {
    forall c :: c in found ==> t.ValidIndex(c.x, c.y) && FoundPath(t, start, c, found[c])
  }

  /** The keep-or-replace step of the scan. */
  function Keep(best: seq<Point>, current: seq<Point>): seq<Point>
  {
    if current != [] && (best == [] || |current| < |best|) then current else best
  }

  lemma ScanStart(t: Terrain, start: Point, z: Zone)
    requires ZoneInside(t, z)
    ensures ScanInv(t, start, z, z.y, z.x, map[], [])
  {
  }

  /** Visiting a non-wall cell records its answer and keeps the best. */
  lemma ScanStep(t: Terrain, start: Point, z: Zone, y: int, x: int,
                 found: map<Point, seq<Point>>, best: seq<Point>, current: seq<Point>)
    requires ScanInv(t, start, z, y, x, found, best) && InZone(z, Point(x, y))
    requires t.ValidIndex(x, y) && t.At(x, y).obstacle != Wall
    requires FoundPath(t, start, Point(x, y), current)
    ensures ScanInv(t, start, z, y, x + 1, found[Point(x, y) := current], Keep(best, current))
  {
    var p := Point(x, y);
    ScanOrder(t, z, y, x, found);
    KeepFirstFewest(found, best, current, p);
    ScanRecord(t, z, y, x, found, current);
    ScanAnswers(t, start, found, p, current);
  }

  lemma ScanAnswers(t: Terrain, start: Point, found: map<Point, seq<Point>>, p: Point, current: seq<Point>)
    requires Answers(t, start, found)
    requires t.ValidIndex(p.x, p.y) && FoundPath(t, start, p, current)
    ensures Answers(t, start, found[p := current])
  {
  }

  /** The cell being visited comes after every recorded one. */
  lemma ScanOrder(t: Terrain, z: Zone, y: int, x: int, found: map<Point, seq<Point>>)
    requires forall c :: c in found <==> Scanned(z, y, x, c) && t.ValidIndex(c.x, c.y) && t.At(c.x, c.y).obstacle != Wall
    ensures Point(x, y) !in found && forall c :: c in found ==> Before(c, Point(x, y))
  {
  }

  /** Recording the answer for a visited non-wall cell extends the domain. */
  lemma ScanRecord(t: Terrain, z: Zone, y: int, x: int, found: map<Point, seq<Point>>, current: seq<Point>)
    requires forall c :: c in found <==> Scanned(z, y, x, c) && t.ValidIndex(c.x, c.y) && t.At(c.x, c.y).obstacle != Wall
    requires InZone(z, Point(x, y)) && t.ValidIndex(x, y) && t.At(x, y).obstacle != Wall
    ensures forall c :: c in found[Point(x, y) := current] <==>
              Scanned(z, y, x + 1, c) && t.ValidIndex(c.x, c.y) && t.At(c.x, c.y).obstacle != Wall
  {
  }

  /** The keep-or-replace step keeps `best` the first of the fewest. */
  lemma KeepFirstFewest(found: map<Point, seq<Point>>, best: seq<Point>, current: seq<Point>, p: Point)
    requires p !in found && forall c :: c in found ==> Before(c, p)
    requires best == [] <==> forall c :: c in found ==> found[c] == []
    requires best != [] ==> exists c :: FirstFewest(found, best, c)
    ensures var found' := found[p := current];
            var best' := Keep(best, current);
            (best' == [] <==> forall c :: c in found' ==> found'[c] == [])
            && (best' != [] ==> exists c :: FirstFewest(found', best', c))
  {
    var found' := found[p := current];
    var best' := Keep(best, current);
    if best' != [] {
      if current != [] && (best == [] || |current| < |best|) {
        if best != [] {
          var c0 :| FirstFewest(found, best, c0);
        }
        assert FirstFewest(found', best', p);
      } else {
        var c :| FirstFewest(found, best, c);
        assert FirstFewest(found', best', c);
      }
    }
  }

  /** Visiting a wall cell changes nothing. */
  lemma ScanSkip(t: Terrain, start: Point, z: Zone, y: int, x: int,
                 found: map<Point, seq<Point>>, best: seq<Point>)
    requires ScanInv(t, start, z, y, x, found, best) && InZone(z, Point(x, y))
    requires t.ValidIndex(x, y) && t.At(x, y).obstacle == Wall
    ensures ScanInv(t, start, z, y, x + 1, found, best)
  {
  }

  /** A finished row moves the scan to the start of the next one. */
  lemma RowDone(t: Terrain, start: Point, z: Zone, y: int, x: int,
                found: map<Point, seq<Point>>, best: seq<Point>)
    requires ScanInv(t, start, z, y, x, found, best) && x >= z.x + z.width
    ensures ScanInv(t, start, z, y + 1, z.x, found, best)
  {
  }

  /** What findPathToZone returns for a known zone: `found` answers every
      non-wall cell of the zone as findPath does, the result is empty
      exactly when every answer is, and otherwise the first of the fewest. */
  ghost predicate ZoneResult(t: Terrain, start: Point, z: Zone, found: map<Point, seq<Point>>,
                             best: seq<Point>)
  {
    ZoneInside(t, z)
    && (forall c :: c in found <==> InZone(z, c) && t.At(c.x, c.y).obstacle != Wall)
    && (forall c :: c in found ==> FoundPath(t, start, c, found[c]))
    && (best == [] <==> forall c :: c in found ==> found[c] == [])
    && (best != [] ==> exists c :: FirstFewest(found, best, c))
  }

  lemma ScanDone(t: Terrain, start: Point, z: Zone, y: int,
                 found: map<Point, seq<Point>>, best: seq<Point>)
    requires ScanInv(t, start, z, y, z.x, found, best) && y >= z.y + z.height
    ensures ZoneResult(t, start, z, found, best)
  {
  }

  /** Read through findPath's contract: an empty answer for a known zone
      means no non-wall zone cell other than the start can be reached; a
      nonempty one is a path into the zone, ending on a non-wall cell, and
      no other nonempty answer has fewer cells. */
  lemma ZoneResultMeaning(t: Terrain, start: Point, z: Zone, found: map<Point, seq<Point>>,
                          best: seq<Point>)
    requires ZoneResult(t, start, z, found, best)
    ensures best == [] ==>
      forall c, p :: InZone(z, c) && t.At(c.x, c.y).obstacle != Wall && c != start ==> !IsPath(t, p, start, c)
    ensures best != [] ==>
      exists c :: InZone(z, c) && t.At(c.x, c.y).obstacle != Wall && IsPath(t, best, start, c)
  {
    if best == [] {
      forall c, p | InZone(z, c) && t.At(c.x, c.y).obstacle != Wall && c != start
        ensures !IsPath(t, p, start, c)
      {
        assert c in found && found[c] == [];
      }
    } else {
      var c :| FirstFewest(found, best, c);
      assert c in found;
    }
  }

  // -----------------------------------------------------------------------

  class Pathfinder {
    const grid: Grid

    constructor (g: Grid)
      ensures grid == g
    {
      grid := g;
    }

    /** A* from `start` to `end`. The open set is a sequence; each round
        pops an entry of least f = g + h, whichever of the least the
        priority queue happens to hold on top. Stale entries are not
        skipped: a popped cell is expanded with its current gCost. */
    method FindPath(start: Point, end: Point) returns (path: seq<Point>)
      requires grid.Valid()
      requires grid.GetTerrain().InBounds(start.x, start.y)
      requires grid.GetTerrain().ValidIndex(end.x, end.y)
      requires NonNegativeCosts(grid.GetTerrain())
      ensures FoundPath(grid.GetTerrain(), start, end, path)
    {
      var t := grid.GetTerrain();
      if start == end || grid.At(end.x, end.y).obstacle == Wall {
        return [];
      }
      var n := grid.width * grid.height;
      var cameFrom := new Point[n](_ => Point(-1, -1));
      var gCost := new int[n](_ => -1);
      ghost var st: seq<int> := seq(n, _ => 0);
      ghost var time := 1;
      IdxPt(t, start);
      gCost[t.Index(start.x, start.y)] := 0;
      var open := [Node(start, 0, Heuristic(start, end))];
      InitInv(t, start, end, gCost[..], cameFrom[..], st);

      while |open| > 0
        invariant gCost.Length == n && cameFrom.Length == n
        invariant SearchInv(t, start, end, gCost[..], cameFrom[..], st, time, open)
        decreases Unreached(gCost[..]), Spent(gCost[..]), |open|
      {
        ghost var m := MinExists(open);
        var k :| 0 <= k < |open| && forall j :: 0 <= j < |open| ==> open[k].F() <= open[j].F();
        var current := open[k];
        ghost var open0 := open;
        open := open[..k] + open[k + 1..];

        if current.point == end {
          path := PathAtGoal(t, cameFrom, gCost, st, start, end, open0, k, time);
          assert t == grid.GetTerrain();
          return;
        }

        PopInv(t, start, end, gCost[..], cameFrom[..], st, time, open0, k);
        open, st, time := ExpandNode(t, gCost, cameFrom, st, time, open, current.point, start, end);
      }

      ExhaustedFound(t, start, end, gCost[..], cameFrom[..], st, time);
      assert t == grid.GetTerrain();
      return [];
    }

    /** The goal has been popped: the path read back through cameFrom. */
    method PathAtGoal(t: Terrain, cameFrom: array<Point>, gCost: array<int>, ghost st: seq<int>,
                      ghost start: Point, end: Point, ghost open: seq<Node>, ghost k: int, ghost time: int)
        returns (path: seq<Point>)
      requires SearchInv(t, start, end, gCost[..], cameFrom[..], st, time, open) && start != end
      requires 0 <= k < |open| && open[k].point == end
      requires forall j :: 0 <= j < |open| ==> open[k].F() <= open[j].F()
      requires t.ValidIndex(end.x, end.y)
      ensures FoundPath(t, start, end, path)
    {
      ghost var gs := gCost[..];
      assert NodeOk(t, end, gs, open[k]);
      BaseParents(t, start, end, gCost[..], cameFrom[..], st, time, open);
      path := ReconstructPath(t, cameFrom, end, gCost[..], st, start);
      GoalPathOptimal(t, start, end, gCost[..], cameFrom[..], st, time, open, k, path);
    }

    /** The neighbour loop of one popped cell. */
    method ExpandNode(t: Terrain, gCost: array<int>, cameFrom: array<Point>, ghost st: seq<int>,
                      ghost time: int, open: seq<Node>, current: Point, ghost start: Point, end: Point)
        returns (open': seq<Node>, ghost st': seq<int>, ghost time': int)
      requires ExpandInv(t, start, end, gCost[..], cameFrom[..], st, time, open, current, 0)
      modifies gCost, cameFrom
      ensures SearchInv(t, start, end, gCost[..], cameFrom[..], st', time', open')
      ensures Unreached(gCost[..]) <= Unreached(old(gCost[..]))
      ensures Unreached(gCost[..]) == Unreached(old(gCost[..])) ==> Spent(gCost[..]) <= Spent(old(gCost[..]))
      ensures Unreached(gCost[..]) == Unreached(old(gCost[..])) && Spent(gCost[..]) == Spent(old(gCost[..])) ==>
        open' == open
    {
      open', st', time' := open, st, time;
      for d := 0 to 4
        invariant ExpandInv(t, start, end, gCost[..], cameFrom[..], st', time', open', current, d)
        invariant Unreached(gCost[..]) <= Unreached(old(gCost[..]))
        invariant Unreached(gCost[..]) == Unreached(old(gCost[..])) ==> Spent(gCost[..]) <= Spent(old(gCost[..]))
        invariant Unreached(gCost[..]) == Unreached(old(gCost[..])) && Spent(gCost[..]) == Spent(old(gCost[..])) ==>
          open' == open
      {
        open', st', time' := RelaxNeighbor(t, gCost, cameFrom, st', time', open', current, d, start, end);
      }
      DoneInv(t, start, end, gCost[..], cameFrom[..], st', time', open', current);
    }

    /** One pass of the neighbour loop: neighbour `d` of `current` is
        skipped when outside the grid or a wall, and otherwise improved
        when its tentative cost beats its gCost. */
    method RelaxNeighbor(t: Terrain, gCost: array<int>, cameFrom: array<Point>, ghost st: seq<int>,
                         ghost time: int, open: seq<Node>, current: Point, d: int,
                         ghost start: Point, end: Point)
        returns (open': seq<Node>, ghost st': seq<int>, ghost time': int)
      requires 0 <= d < 4
      requires ExpandInv(t, start, end, gCost[..], cameFrom[..], st, time, open, current, d)
      modifies gCost, cameFrom
      ensures ExpandInv(t, start, end, gCost[..], cameFrom[..], st', time', open', current, d + 1)
      ensures Unreached(gCost[..]) <= Unreached(old(gCost[..]))
      ensures Unreached(gCost[..]) == Unreached(old(gCost[..])) ==> Spent(gCost[..]) <= Spent(old(gCost[..]))
      ensures Unreached(gCost[..]) == Unreached(old(gCost[..])) && Spent(gCost[..]) == Spent(old(gCost[..])) ==>
        open' == open
    {
      open', st', time' := open, st, time;
      ghost var gs := gCost[..];
      var ci := t.Index(current.x, current.y);
      assert ci == Idx(t, current) && 0 <= ci < |gs|;
      var q := Neighbor(current, d);
      var inside := 0 <= q.x < t.width && 0 <= q.y < t.height;
      if inside {
        IndexInRange(t, q.x, q.y);
      }
      if !inside || t.At(q.x, q.y).obstacle == Wall {
        SkipInv(t, start, end, gCost[..], cameFrom[..], st, time, open, current, d);
      } else {
        var tentative := gCost[ci] + t.At(q.x, q.y).cost;
        var qi := t.Index(q.x, q.y);
        assert Passable(t, q) && qi == Idx(t, q) && 0 <= qi < |gs|;
        assert tentative == gs[Idx(t, current)] + CostAt(t, q);
        if gCost[qi] < 0 || tentative < gCost[qi] {
          assert Improving(t, start, end, gs, cameFrom[..], st, time, open, current, d, q, qi, tentative);
          open', st', time' := ImproveCell(t, gCost, cameFrom, st, time, open, current, d, q, qi, tentative, start, end);
        } else {
          KeepInv(t, start, end, gCost[..], cameFrom[..], st, time, open, current, d);
        }
      }
    }

    /** Records `current` as the parent of `q`, stores the improved cost
        and pushes `q`. */
    method ImproveCell(t: Terrain, gCost: array<int>, cameFrom: array<Point>, ghost st: seq<int>,
                       ghost time: int, open: seq<Node>, current: Point, ghost d: int,
                       q: Point, qi: int, tentative: int, ghost start: Point, end: Point)
        returns (open': seq<Node>, ghost st': seq<int>, ghost time': int)
      requires Improving(t, start, end, gCost[..], cameFrom[..], st, time, open, current, d, q, qi, tentative)
      modifies gCost, cameFrom
      ensures ExpandInv(t, start, end, gCost[..], cameFrom[..], st', time', open', current, d + 1)
      ensures old(gCost[qi]) < 0 ==> Unreached(gCost[..]) < Unreached(old(gCost[..]))
      ensures old(gCost[qi]) >= 0 ==>
        Unreached(gCost[..]) == Unreached(old(gCost[..])) && Spent(gCost[..]) < Spent(old(gCost[..]))
    {
      ghost var gs0, cf0 := gCost[..], cameFrom[..];
      ImproveInv(t, start, end, gs0, cf0, st, time, open, current, d, q, qi, tentative);
      ImproveFacts(t, start, end, gs0, cf0, st, time, open, current, d, q, qi, tentative);
      ImproveMeasure(gs0, qi, tentative);
      cameFrom[qi] := current;
      assert cameFrom[..] == cf0[qi := current];
      gCost[qi] := tentative;
      assert gCost[..] == gs0[qi := tentative];
      st' := st[qi := time];
      time' := time + 1;
      open' := open + [Node(q, tentative, Heuristic(q, end))];
    }

    /** One step back along the parents: the parent of a reached cell
        other than the start is reached, the path grows by it and the
        recorded-cost bound still holds; (cost, time) decreases. */
    lemma ReconstructStep(t: Terrain, gs: seq<int>, cf: seq<Point>, st: seq<int>, start: Point,
                          cur: Point, current: Point, path: seq<Point>)
      requires Parents(t, start, gs, cf, st)
      requires t.InBounds(cur.x, cur.y) && 0 <= Idx(t, cur) < |gs| && gs[Idx(t, cur)] >= 0
      requires cf[Idx(t, cur)].x != -1 && 0 <= Idx(t, current) < |gs|
      requires IsPath(t, path, cur, current) && PathCost(t, path) + gs[Idx(t, cur)] <= gs[Idx(t, current)]
      ensures var next := cf[Idx(t, cur)];
              t.InBounds(next.x, next.y) && 0 <= Idx(t, next) < |gs| && gs[Idx(t, next)] >= 0
              && IsPath(t, [next] + path, next, current)
              && PathCost(t, [next] + path) + gs[Idx(t, next)] <= gs[Idx(t, current)]
              && (gs[Idx(t, next)] < gs[Idx(t, cur)]
                  || (gs[Idx(t, next)] == gs[Idx(t, cur)] && 0 <= st[Idx(t, next)] < st[Idx(t, cur)]))
    {
      var ci := Idx(t, cur);
      IdxPt(t, cur);
      IdxPt(t, start);
      assert ParentOk(t, gs, cf, st, ci);
      assert t.cells[ci].cost >= 0;
      var next := cf[ci];
      var p2 := [next] + path;
      assert p2[1..] == path;
      assert Passable(t, cur);
    }

    /** Follows `cameFrom` back from `current` to the start. The vector is
        built front to back here, which gives the same sequence as pushing
        back and reversing. */
    method ReconstructPath(t: Terrain, cameFrom: array<Point>, current: Point, ghost gs: seq<int>,
                           ghost st: seq<int>, ghost start: Point)
        returns (path: seq<Point>)
      requires Parents(t, start, gs, cameFrom[..], st)
      requires t.InBounds(current.x, current.y)
      requires 0 <= Idx(t, current) < |gs| && gs[Idx(t, current)] >= 0
      ensures IsPath(t, path, start, current)
      ensures PathCost(t, path) <= gs[Idx(t, current)]
    {
      IdxPt(t, current);
      IdxPt(t, start);
      path := [current];
      var cur := current;
      var currentIndex := t.Index(current.x, current.y);
      while cameFrom[currentIndex].x != -1
        invariant t.InBounds(cur.x, cur.y) && currentIndex == Idx(t, cur) && 0 <= currentIndex < |gs|
        invariant gs[currentIndex] >= 0
        invariant IsPath(t, path, cur, current)
        invariant PathCost(t, path) + gs[currentIndex] <= gs[Idx(t, current)]
        decreases gs[currentIndex], st[currentIndex]
      {
        ReconstructStep(t, gs, cameFrom[..], st, start, cur, current, path);
        var next := cameFrom[currentIndex];
        path := [next] + path;
        cur := next;
        currentIndex := t.Index(cur.x, cur.y);
      }
      ReconstructEnd(t, gs, cameFrom[..], st, start, cur);
    }

    /** The walk back stops only at the start: every other reached cell
        has a parent inside the grid. */
    lemma ReconstructEnd(t: Terrain, gs: seq<int>, cf: seq<Point>, st: seq<int>, start: Point, cur: Point)
      requires Parents(t, start, gs, cf, st)
      requires t.InBounds(cur.x, cur.y) && 0 <= Idx(t, cur) < |gs| && gs[Idx(t, cur)] >= 0
      requires cf[Idx(t, cur)].x == -1
      ensures cur == start
    {
      IdxPt(t, start);
      assert Idx(t, cur) == Idx(t, start);
      IdxInjective(t, cur, start);
    }

    /** Paths to every non-wall cell of the named zone, keeping the first
        one with fewest cells; empty for an unknown zone. `found` records,
        for the proof, the answer findPath gave for each cell. */
    method FindPathToZone(start: Point, zoneName: string)
        returns (bestPath: seq<Point>, ghost found: map<Point, seq<Point>>)
      requires grid.Valid()
      requires grid.GetTerrain().InBounds(start.x, start.y)
      requires NonNegativeCosts(grid.GetTerrain())
      requires FindZone(grid.zones, zoneName).Some? ==>
                 ZoneInside(grid.GetTerrain(), FindZone(grid.zones, zoneName).value)
      ensures FindZone(grid.zones, zoneName).None? ==> bestPath == [] && found == map[]
      ensures FindZone(grid.zones, zoneName).Some? ==>
                ZoneResult(grid.GetTerrain(), start, FindZone(grid.zones, zoneName).value, found, bestPath)
    {
      found := map[];
      var zone := FindZone(grid.zones, zoneName);
      if zone.None? {
        return [], found;
      }
      var t := grid.GetTerrain();
      var z := zone.value;
      bestPath := [];
      ScanStart(t, start, z);
      var y := z.y;
      while y < z.y + z.height
        invariant z.y <= y && (z.height <= 0 || y <= z.y + z.height)
        invariant ScanInv(t, start, z, y, z.x, found, bestPath)
        decreases z.y + z.height - y
      {
        var x := z.x;
        while x < z.x + z.width
          invariant z.x <= x && (z.width <= 0 || x <= z.x + z.width)
          invariant ScanInv(t, start, z, y, x, found, bestPath)
          decreases z.x + z.width - x
        {
          assert InZone(z, Point(x, y));
          if grid.At(x, y).obstacle != Wall {
            var currentPath := FindPath(start, Point(x, y));
            ScanStep(t, start, z, y, x, found, bestPath, currentPath);
            if currentPath != [] && (bestPath == [] || |currentPath| < |bestPath|) {
              bestPath := currentPath;
            }
            found := found[Point(x, y) := currentPath];
          } else {
            ScanSkip(t, start, z, y, x, found, bestPath);
          }
          x := x + 1;
        }
        RowDone(t, start, z, y, x, found, bestPath);
        y := y + 1;
      }
      ScanDone(t, start, z, y, found, bestPath);
    }
  }
}

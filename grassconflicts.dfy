/** fix_grass_conflicts.py: drop every Grass tile that lies on a cell a
    Path tile occupies, and write the file back with the remaining tiles. */
module GrassConflicts {
  import opened TileText
  import TileBlock

  /** The cells of the Path tiles. */
  function PathCells(ts: seq<Tile>): set<(int, int)>
  {
    set k | 0 <= k < |ts| && ts[k].kind == "Path" :: Coord(ts[k])
  }

  /** A Grass tile on one of the `paths` cells. */
  predicate Conflicts(t: Tile, paths: set<(int, int)>)
  {
    t.kind == "Grass" && Coord(t) in paths
  }

  /** The list comprehension keeping the tiles that do not conflict. */
  function KeepNonConflicting(ts: seq<Tile>, paths: set<(int, int)>): seq<Tile>
    decreases |ts|
  {
    if |ts| == 0 then []
    else (if Conflicts(ts[0], paths) then [] else [ts[0]]) + KeepNonConflicting(ts[1..], paths)
  }

  /** The tiles after the fix. */
  function WithoutConflicts(ts: seq<Tile>): seq<Tile>
  {
    KeepNonConflicting(ts, PathCells(ts))
  }

  /** The number of tiles conflicting with `paths`. */
  function CountConflicts(ts: seq<Tile>, paths: set<(int, int)>): nat
    decreases |ts|
  {
    if |ts| == 0 then 0
    else (if Conflicts(ts[0], paths) then 1 else 0) + CountConflicts(ts[1..], paths)
  }

  /** The loop collecting `path_coords`. */
  method CollectPathCells(tiles: seq<Tile>) returns (paths: set<(int, int)>)
    ensures paths == PathCells(tiles)
  {
    paths := {};
    var i := 0;
    while i < |tiles|
      invariant 0 <= i <= |tiles|
      invariant paths == PathCells(tiles[..i])
    {
      var tile := tiles[i];
      PathCellsSnoc(tiles[..i], tile);
      assert tiles[..i + 1] == tiles[..i] + [tile];
      if tile.kind == "Path" {
        paths := paths + {(tile.x, tile.y)};
      }
      i := i + 1;
    }
    assert tiles[..i] == tiles;
  }

  /** The whole script on the file's lines and the tiles parsed from it. */
  method FixGrassConflicts(lines: seq<string>, tiles: seq<Tile>)
    returns (output: seq<string>, kept: seq<Tile>, removed: int)
    ensures kept == WithoutConflicts(tiles)
    ensures removed == CountConflicts(tiles, PathCells(tiles))
    ensures output == TileBlock.RewriteTiles(lines, kept)
  {
    var paths := CollectPathCells(tiles);
    kept := KeepNonConflicting(tiles, paths);
    RemovedCount(tiles, paths);
    removed := |tiles| - |kept|;
    output := TileBlock.RewriteTilesBlock(lines, kept);
  }

  // ---------------------------------------------------------------------
  // What the fix keeps

  lemma PathCellsSnoc(ts: seq<Tile>, t: Tile)
    ensures PathCells(ts + [t]) == PathCells(ts) + (if t.kind == "Path" then {Coord(t)} else {})
  {
    var ts' := ts + [t];
    assert ts'[|ts|] == t;
    forall c | c in PathCells(ts) ensures c in PathCells(ts') {
      var k :| 0 <= k < |ts| && ts[k].kind == "Path" && Coord(ts[k]) == c;
      assert ts'[k] == ts[k];
    }
    forall c | c in PathCells(ts') ensures c in PathCells(ts) || (t.kind == "Path" && c == Coord(t)) {
      var k :| 0 <= k < |ts'| && ts'[k].kind == "Path" && Coord(ts'[k]) == c;
      if k < |ts| {
        assert ts'[k] == ts[k];
      }
    }
  }

  /** A tile survives exactly when it does not conflict. */
  lemma {:induction false} KeptMembers(ts: seq<Tile>, paths: set<(int, int)>)
    ensures forall t :: t in KeepNonConflicting(ts, paths) <==> t in ts && !Conflicts(t, paths)
    decreases |ts|
  {
    if |ts| > 0 {
      KeptMembers(ts[1..], paths);
      assert ts == [ts[0]] + ts[1..];
    }
  }

  /** The comprehension keeps the order: it distributes over concatenation. */
  lemma {:induction false} KeepConcat(a: seq<Tile>, b: seq<Tile>, paths: set<(int, int)>)
    ensures KeepNonConflicting(a + b, paths) == KeepNonConflicting(a, paths) + KeepNonConflicting(b, paths)
    decreases |a|
  {
    if |a| == 0 {
      assert a + b == b;
    } else {
      assert (a + b)[0] == a[0] && (a + b)[1..] == a[1..] + b;
      KeepConcat(a[1..], b, paths);
    }
  }

  /** "Removed N conflicting Grass tiles": the length difference is the
      number of conflicting tiles. */
  lemma {:induction false} RemovedCount(ts: seq<Tile>, paths: set<(int, int)>)
    ensures |ts| - |KeepNonConflicting(ts, paths)| == CountConflicts(ts, paths)
    decreases |ts|
  {
    if |ts| > 0 {
      RemovedCount(ts[1..], paths);
    }
  }

  /** Path tiles are never removed, so the Path cells are the same after the fix. */
  lemma {:induction false} PathTilesKept(ts: seq<Tile>, paths: set<(int, int)>)
    ensures PathCells(KeepNonConflicting(ts, paths)) == PathCells(ts)
    decreases |ts|
  {
    if |ts| > 0 {
      PathTilesKept(ts[1..], paths);
      var rest := KeepNonConflicting(ts[1..], paths);
      var head := if Conflicts(ts[0], paths) then [] else [ts[0]];
      PathCellsConcat(head, rest);
      PathCellsConcat([ts[0]], ts[1..]);
      assert ts == [ts[0]] + ts[1..];
      assert head == [] ==> ts[0].kind != "Path";
      assert PathCells([]) == {};
    }
  }

  lemma PathCellsConcat(a: seq<Tile>, b: seq<Tile>)
    ensures PathCells(a + b) == PathCells(a) + PathCells(b)
  {
    var ab := a + b;
    forall c | c in PathCells(ab) ensures c in PathCells(a) + PathCells(b) {
      var k :| 0 <= k < |ab| && ab[k].kind == "Path" && Coord(ab[k]) == c;
      if k < |a| {
        assert ab[k] == a[k];
      } else {
        assert ab[k] == b[k - |a|];
      }
    }
    forall c | c in PathCells(a) ensures c in PathCells(ab) {
      var k :| 0 <= k < |a| && a[k].kind == "Path" && Coord(a[k]) == c;
      assert ab[k] == a[k];
    }
    forall c | c in PathCells(b) ensures c in PathCells(ab) {
      var k :| 0 <= k < |b| && b[k].kind == "Path" && Coord(b[k]) == c;
      assert ab[|a| + k] == b[k];
    }
  }

  /** After the fix no Grass tile shares a cell with a Path tile. */
  lemma NoConflictsLeft(ts: seq<Tile>)
    ensures forall t :: t in WithoutConflicts(ts) ==> !Conflicts(t, PathCells(WithoutConflicts(ts)))
  {
    KeptMembers(ts, PathCells(ts));
    PathTilesKept(ts, PathCells(ts));
  }

  /** Running the script a second time removes nothing more. */
  lemma FixIdempotent(ts: seq<Tile>)
    ensures WithoutConflicts(WithoutConflicts(ts)) == WithoutConflicts(ts)
  {
    NoConflictsLeft(ts);
    var r := WithoutConflicts(ts);
    PathTilesKept(ts, PathCells(ts));
    KeepAll(r, PathCells(r));
  }

  lemma {:induction false} KeepAll(ts: seq<Tile>, paths: set<(int, int)>)
    requires forall t :: t in ts ==> !Conflicts(t, paths)
    ensures KeepNonConflicting(ts, paths) == ts
    decreases |ts|
  {
    if |ts| > 0 {
      assert ts[0] in ts;
      assert forall t :: t in ts[1..] ==> t in ts;
      KeepAll(ts[1..], paths);
      assert ts == [ts[0]] + ts[1..];
    }
  }
}

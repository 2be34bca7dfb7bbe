/** remove_duplicates.py: keep the first tile for each (x, y) cell, in
    file order, and write the file back with the cleaned tiles. */
module TileDedup {
  import opened TileText
  import TileBlock

  /** The tiles the loop keeps: the seen set is the cells of the prefix. */
  function FirstTiles(ts: seq<Tile>): seq<Tile>
    decreases |ts|
  {
    if |ts| == 0 then []
    else
      var prefix := ts[..|ts| - 1];
      var last := ts[|ts| - 1];
      if Coord(last) in Coords(prefix) then FirstTiles(prefix)
      else FirstTiles(prefix) + [last]
  }

  /** Reference definition: position `i` holds the first tile of its cell. */
  predicate IsFirst(ts: seq<Tile>, i: int)
    requires 0 <= i < |ts|
  {
    forall j :: 0 <= j < i ==> Coord(ts[j]) != Coord(ts[i])
  }

  /** The first occurrences among the first `n` tiles, in order. */
  function FirstOccurrences(ts: seq<Tile>, n: nat): seq<Tile>
    requires n <= |ts|
  {
    if n == 0 then []
    else FirstOccurrences(ts, n - 1) + (if IsFirst(ts, n - 1) then [ts[n - 1]] else [])
  }

  predicate DistinctCells(ts: seq<Tile>)
  {
    forall i, j :: 0 <= i < j < |ts| ==> Coord(ts[i]) != Coord(ts[j])
  }

  /** The loop of remove_duplicate_tiles. */
  method DedupTiles(tiles: seq<Tile>) returns (unique: seq<Tile>, removed: int)
    ensures unique == FirstTiles(tiles)
    ensures removed == |tiles| - |unique|
  {
    var seen: set<(int, int)> := {};
    unique := [];
    var i := 0;
    while i < |tiles|
      invariant 0 <= i <= |tiles|
      invariant seen == Coords(tiles[..i])
      invariant unique == FirstTiles(tiles[..i])
    {
      var tile := tiles[i];
      assert tiles[..i + 1] == tiles[..i] + [tile];
      CoordsSnoc(tiles[..i], tile);
      FirstTilesSnoc(tiles[..i], tile);
      var coord := (tile.x, tile.y);
      if coord !in seen {
        unique := unique + [tile];
        seen := seen + {coord};
      }
      i := i + 1;
    }
    assert tiles[..i] == tiles;
    removed := |tiles| - |unique|;
  }

  lemma FirstTilesSnoc(ts: seq<Tile>, t: Tile)
    ensures FirstTiles(ts + [t]) == if Coord(t) in Coords(ts) then FirstTiles(ts) else FirstTiles(ts) + [t]
  {
    var ts' := ts + [t];
    assert ts'[..|ts'| - 1] == ts && ts'[|ts'| - 1] == t;
  }

  /** The whole script on the file's lines and the tiles parsed from it. */
  method RemoveDuplicateTiles(lines: seq<string>, tiles: seq<Tile>)
    returns (output: seq<string>, unique: seq<Tile>, removed: int)
    ensures unique == FirstTiles(tiles)
    ensures removed == |tiles| - |Coords(tiles)|
    ensures output == TileBlock.RewriteTiles(lines, unique)
  {
    unique, removed := DedupTiles(tiles);
    FirstTilesCount(tiles);
    output := TileBlock.RewriteTilesBlock(lines, unique);
  }

  // ---------------------------------------------------------------------
  // What the kept tiles are

  /** The kept tiles are exactly the first occurrences, in file order. */
  lemma {:induction false} FirstTilesAreFirstOccurrences(ts: seq<Tile>, n: nat)
    requires n <= |ts|
    ensures FirstTiles(ts[..n]) == FirstOccurrences(ts, n)
  {
    if n > 0 {
      FirstTilesAreFirstOccurrences(ts, n - 1);
      var p := ts[..n][..n - 1];
      assert p == ts[..n - 1];
      assert ts[..n][n - 1] == ts[n - 1];
      if Coord(ts[n - 1]) in Coords(p) {
        var j :| 0 <= j < n - 1 && Coord(p[j]) == Coord(ts[n - 1]);
        assert Coord(ts[j]) == Coord(ts[n - 1]);
        assert !IsFirst(ts, n - 1);
      } else {
        forall j | 0 <= j < n - 1 ensures Coord(ts[j]) != Coord(ts[n - 1]) {
          assert ts[j] == p[j];
        }
      }
    }
  }

  /** No two kept tiles share a cell. */
  lemma {:induction false} FirstTilesDistinct(ts: seq<Tile>)
    ensures DistinctCells(FirstTiles(ts))
    decreases |ts|
  {
    if |ts| > 0 {
      var prefix := ts[..|ts| - 1];
      FirstTilesDistinct(prefix);
      FirstTilesCells(prefix);
    }
  }

  /** Every cell of the input keeps a tile, and no other cell appears. */
  lemma {:induction false} FirstTilesCells(ts: seq<Tile>)
    ensures Coords(FirstTiles(ts)) == Coords(ts)
    decreases |ts|
  {
    if |ts| > 0 {
      var prefix := ts[..|ts| - 1];
      var last := ts[|ts| - 1];
      FirstTilesCells(prefix);
      assert ts == prefix + [last];
      CoordsSnoc(prefix, last);
      if Coord(last) !in Coords(prefix) {
        CoordsSnoc(FirstTiles(prefix), last);
      }
    }
  }

  /** One tile per cell is kept: the count printed as "Duplicates removed"
      is the number of tiles minus the number of distinct cells. */
  lemma {:induction false} FirstTilesCount(ts: seq<Tile>)
    ensures |FirstTiles(ts)| == |Coords(ts)|
    decreases |ts|
  {
    if |ts| > 0 {
      var prefix := ts[..|ts| - 1];
      var last := ts[|ts| - 1];
      FirstTilesCount(prefix);
      assert ts == prefix + [last];
      CoordsSnoc(prefix, last);
      var cells := Coords(prefix);
      if Coord(last) in cells {
        assert cells + {Coord(last)} == cells;
      } else {
        assert |cells + {Coord(last)}| == |cells| + 1;
      }
    }
  }

  /** Tiles whose cells are already distinct are all kept. */
  lemma {:induction false} DistinctKept(ts: seq<Tile>)
    requires DistinctCells(ts)
    ensures FirstTiles(ts) == ts
    decreases |ts|
  {
    if |ts| > 0 {
      var prefix := ts[..|ts| - 1];
      var last := ts[|ts| - 1];
      assert DistinctCells(prefix);
      DistinctKept(prefix);
      forall k | 0 <= k < |prefix| ensures Coord(prefix[k]) != Coord(last) {
        assert prefix[k] == ts[k];
      }
      assert ts == prefix + [last];
    }
  }

  /** Running the script a second time removes nothing more. */
  lemma DedupIdempotent(ts: seq<Tile>)
    ensures FirstTiles(FirstTiles(ts)) == FirstTiles(ts)
  {
    FirstTilesDistinct(ts);
    DistinctKept(FirstTiles(ts));
  }
}

/** generate_grass.py: list, row by row, every cell of the width x height
    grid no tile occupies, and render one Grass tile line per such cell,
    joined with ",\n". */
module GrassGen {
  import opened TileText
  import TileBlock

  /** `(a, b)` comes before `(c, d)` when the rows (y) are scanned outer and
      the columns (x) inner. */
  predicate RowMajorBefore(a: (int, int), b: (int, int))
  {
    a.1 < b.1 || (a.1 == b.1 && a.0 < b.0)
  }

  predicate RowMajorSorted(cs: seq<(int, int)>)
  {
    forall i, j :: 0 <= i < j < |cs| ==> RowMajorBefore(cs[i], cs[j])
  }

  /** A grid cell no tile occupies. */
  predicate Missing(width: int, height: int, existing: set<(int, int)>, c: (int, int))
  {
    0 <= c.0 < width && 0 <= c.1 < height && c !in existing
  }

  /** The loop collecting `existing_coords`. */
  method ExistingCells(tiles: seq<Tile>) returns (existing: set<(int, int)>)
    ensures existing == Coords(tiles)
  {
    existing := {};
    var i := 0;
    while i < |tiles|
      invariant 0 <= i <= |tiles|
      invariant existing == Coords(tiles[..i])
    {
      CoordsSnoc(tiles[..i], tiles[i]);
      assert tiles[..i + 1] == tiles[..i] + [tiles[i]];
      existing := existing + {(tiles[i].x, tiles[i].y)};
      i := i + 1;
    }
    assert tiles[..i] == tiles;
  }

  /** The nested loop building `missing_coords`: exactly the missing cells,
      in row-major order. */
  method MissingCells(width: int, height: int, existing: set<(int, int)>)
    returns (missing: seq<(int, int)>)
    ensures forall c :: c in missing <==> Missing(width, height, existing, c)
    ensures RowMajorSorted(missing)
  {
    missing := [];
    var y := 0;
    while y < height
      invariant 0 <= y && (height >= 0 ==> y <= height) && (height < 0 ==> y == 0)
      invariant forall c :: c in missing <==> Missing(width, y, existing, c)
      invariant RowMajorSorted(missing)
      invariant forall k :: 0 <= k < |missing| ==> missing[k].1 < y
    {
      missing := MissingInRow(width, y, existing, missing);
      y := y + 1;
    }
    forall c ensures c in missing <==> Missing(width, height, existing, c) {
      assert c in missing <==> Missing(width, y, existing, c);
      if height >= 0 {
        assert y == height;
      } else {
        assert !Missing(width, y, existing, c);
      }
    }
  }

  /** The inner loop over one row `y`. */
  method MissingInRow(width: int, y: int, existing: set<(int, int)>, before: seq<(int, int)>)
    returns (missing: seq<(int, int)>)
    requires 0 <= y
    requires forall c :: c in before <==> Missing(width, y, existing, c)
    requires RowMajorSorted(before)
    requires forall k :: 0 <= k < |before| ==> before[k].1 < y
    ensures forall c :: c in missing <==> Missing(width, y + 1, existing, c)
    ensures RowMajorSorted(missing)
    ensures forall k :: 0 <= k < |missing| ==> missing[k].1 < y + 1
  {
    missing := before;
    var x := 0;
    while x < width
      invariant 0 <= x && (width >= 0 ==> x <= width) && (width < 0 ==> x == 0)
      invariant forall c :: c in missing <==>
                  (Missing(width, y, existing, c) || (c.1 == y && 0 <= c.0 < x && c !in existing))
      invariant RowMajorSorted(missing)
      invariant forall k :: 0 <= k < |missing| ==> RowMajorBefore(missing[k], (x, y))
    {
      if (x, y) !in existing {
        missing := missing + [(x, y)];
      }
      x := x + 1;
    }
    forall c ensures c in missing <==> Missing(width, y + 1, existing, c) {
      assert c in missing <==>
        (Missing(width, y, existing, c) || (c.1 == y && 0 <= c.0 < x && c !in existing));
    }
  }

  /** The grass tile for a missing cell. */
  function GrassTile(c: (int, int)): Tile
  {
    Tile(c.0, c.1, "Grass")
  }

  function GrassTiles(cs: seq<(int, int)>): (r: seq<Tile>)
    ensures |r| == |cs| && forall k :: 0 <= k < |cs| ==> r[k] == GrassTile(cs[k])
  {
    seq(|cs|, k requires 0 <= k < |cs| => GrassTile(cs[k]))
  }

  /** The loop building `grass_tiles`: one Grass line per cell, in order. */
  method GrassLines(cs: seq<(int, int)>) returns (lines: seq<string>)
    ensures lines == TileLines(GrassTiles(cs))
  {
    lines := [];
    var i := 0;
    while i < |cs|
      invariant 0 <= i <= |cs|
      invariant lines == TileLines(GrassTiles(cs[..i]))
    {
      var (x, y) := cs[i];
      assert cs[..i + 1] == cs[..i] + [cs[i]];
      lines := lines + [TileLine(Tile(x, y, "Grass"))];
      i := i + 1;
    }
    assert cs[..i] == cs;
  }

  /** The whole script on the tiles and grid size parsed from the file: the
      text of grass_tiles.txt. */
  method GenerateGrass(width: int, height: int, tiles: seq<Tile>)
    returns (text: string, missing: seq<(int, int)>)
    ensures forall c :: c in missing <==> Missing(width, height, Coords(tiles), c)
    ensures RowMajorSorted(missing)
    ensures text == JoinWith(",\n", TileLines(GrassTiles(missing)))
  {
    var existing := ExistingCells(tiles);
    missing := MissingCells(width, height, existing);
    var lines := GrassLines(missing);
    text := JoinWith(",\n", lines);
  }

  // ---------------------------------------------------------------------
  // What the generated list is

  /** Row-major order admits no repeated cell. */
  lemma SortedDistinct(cs: seq<(int, int)>)
    requires RowMajorSorted(cs)
    ensures forall i, j :: 0 <= i < j < |cs| ==> cs[i] != cs[j]
  {
  }

  /** The missing cells and the existing ones together cover the grid and
      never overlap. */
  lemma MissingCompletesGrid(width: int, height: int, existing: set<(int, int)>,
                             missing: seq<(int, int)>)
    requires forall c :: c in missing <==> Missing(width, height, existing, c)
    ensures forall c: (int, int) :: 0 <= c.0 < width && 0 <= c.1 < height ==> c in existing || c in missing
    ensures forall c :: c in missing ==> c !in existing
  {
  }

  /** Two row-major sorted lists of the same cells are equal: the contract
      of MissingCells fixes its result. */
  lemma {:induction false} SortedUnique(a: seq<(int, int)>, b: seq<(int, int)>)
    requires RowMajorSorted(a) && RowMajorSorted(b)
    requires forall c :: c in a <==> c in b
    ensures a == b
    decreases |a| + |b|
  {
    assert |a| > 0 ==> a[0] in b;
    assert |b| > 0 ==> b[0] in a;
    if |a| > 0 && |b| > 0 {
      assert a[0] in b && b[0] in a;
      var i :| 0 <= i < |b| && b[i] == a[0];
      var j :| 0 <= j < |a| && a[j] == b[0];
      assert a[0] == b[0];
      forall c ensures c in a[1..] <==> c in b[1..] {
        if c in a[1..] {
          var i :| 1 <= i < |a| && a[i] == c;
          assert RowMajorBefore(a[0], c);
          assert c in b;
        }
        if c in b[1..] {
          var i :| 1 <= i < |b| && b[i] == c;
          assert RowMajorBefore(b[0], c);
          assert c in a;
        }
      }
      SortedUnique(a[1..], b[1..]);
      assert a == [a[0]] + a[1..] && b == [b[0]] + b[1..];
    }
  }

  /** Read back line by line, grass_tiles.txt holds the rows the tiles
      section would get for these Grass tiles. */
  lemma GrassFileRows(cs: seq<(int, int)>)
    requires |cs| >= 1
    ensures SplitLines(JoinWith(",\n", TileLines(GrassTiles(cs)))) == TileBlock.Rows(GrassTiles(cs))
  {
    var ls := TileLines(GrassTiles(cs));
    forall k | 0 <= k < |ls| ensures NoNewline(ls[k]) {
      TileLineNoNewline(GrassTile(cs[k]));
    }
    CommaFileLines(ls);
  }
}

/** The tile grid: a row-major vector of cells, each with an obstacle type
    and a movement cost, plus a table of named rectangular zones. */
module Grid {
  import opened Util

  /** `ObstacleType::None` is spelled `NoObstacle` here, so that it does not
      clash with `Option.None`. */
  datatype ObstacleType = NoObstacle | Wall | Water | Forest | Grass | Path

  datatype Cell = Cell(obstacle: ObstacleType, cost: int)

  /** A default-constructed cell: no obstacle, cost 1. */
  function DefaultCell(): (c: Cell)
    ensures c.obstacle == NoObstacle && c.cost == 1
  {
    Cell(NoObstacle, 1)
  }

  datatype Zone = Zone(x: int, y: int, width: int, height: int)

  /** The zone table; names are unique and the order is the iteration order. */
  type ZoneList = seq<(string, Zone)>

  predicate UniqueNames(zones: ZoneList)
  {
    forall i, j :: 0 <= i < j < |zones| ==> zones[i].0 != zones[j].0
  }

  function FindZone(zones: ZoneList, name: string): (r: Option<Zone>)
    ensures r.None? <==> forall i :: 0 <= i < |zones| ==> zones[i].0 != name
    ensures r.Some? ==> exists i :: 0 <= i < |zones| && zones[i] == (name, r.value)
    decreases |zones|
  {
    if |zones| == 0 then None
    else if zones[0].0 == name then Some(zones[0].1)
    else FindZone(zones[1..], name)
  }

  /** With unique names, the entry named `name` is the one found. */
  lemma {:induction false} FindZoneUnique(zones: ZoneList, i: int)
    requires UniqueNames(zones) && 0 <= i < |zones|
    ensures FindZone(zones, zones[i].0) == Some(zones[i].1)
    decreases |zones|
  {
    if i > 0 {
      assert zones[0].0 != zones[i].0;
      assert UniqueNames(zones[1..]) by {
        forall a, b | 0 <= a < b < |zones| - 1 ensures zones[1..][a].0 != zones[1..][b].0 {
          assert zones[1..][a] == zones[a + 1] && zones[1..][b] == zones[b + 1];
        }
      }
      FindZoneUnique(zones[1..], i - 1);
    }
  }

  predicate HasZone(zones: ZoneList, name: string)
  {
    FindZone(zones, name).Some?
  }

  /** `zones[name] = zone`: overwrite in place, or append a new entry. */
  function SetZone(zones: ZoneList, name: string, zone: Zone): ZoneList
    decreases |zones|
  {
    if |zones| == 0 then [(name, zone)]
    else if zones[0].0 == name then [(name, zone)] + zones[1..]
    else [zones[0]] + SetZone(zones[1..], name, zone)
  }

  /** After storing, the name finds the new zone and every other name
      finds what it found before. */
  lemma {:induction false} SetZoneFind(zones: ZoneList, name: string, zone: Zone, n: string)
    ensures FindZone(SetZone(zones, name, zone), n) == if n == name then Some(zone) else FindZone(zones, n)
    decreases |zones|
  {
    if |zones| > 0 && zones[0].0 != name {
      SetZoneFind(zones[1..], name, zone, n);
    }
  }

  /** Storing never duplicates a name: the names after are the names
      before plus `name`. */
  lemma SetZoneNames(zones: ZoneList, name: string, zone: Zone)
    ensures forall i :: 0 <= i < |SetZone(zones, name, zone)| ==>
      SetZone(zones, name, zone)[i].0 == name || exists j :: 0 <= j < |zones| && zones[j].0 == SetZone(zones, name, zone)[i].0
    ensures UniqueNames(zones) ==> UniqueNames(SetZone(zones, name, zone))
  {
    SetZoneNamesFrom(zones, name, zone);
    if UniqueNames(zones) {
      SetZoneUnique(zones, name, zone);
    }
  }

  lemma UniqueTail(zones: ZoneList)
    requires UniqueNames(zones) && |zones| > 0
    ensures UniqueNames(zones[1..])
  {
    forall a, b | 0 <= a < b < |zones| - 1 ensures zones[1..][a].0 != zones[1..][b].0 {
      assert zones[1..][a] == zones[a + 1] && zones[1..][b] == zones[b + 1];
    }
  }

  lemma {:induction false} SetZoneNamesFrom(zones: ZoneList, name: string, zone: Zone)
    ensures forall i :: 0 <= i < |SetZone(zones, name, zone)| ==>
      SetZone(zones, name, zone)[i].0 == name || exists j :: 0 <= j < |zones| && zones[j].0 == SetZone(zones, name, zone)[i].0
    decreases |zones|
  {
    var r := SetZone(zones, name, zone);
    if |zones| > 0 {
      if zones[0].0 == name {
        assert forall i :: 1 <= i < |r| ==> r[i] == zones[i];
      } else {
        var rest := SetZone(zones[1..], name, zone);
        SetZoneNamesFrom(zones[1..], name, zone);
        assert r == [zones[0]] + rest;
        forall i | 1 <= i < |r|
          ensures r[i].0 == name || exists j :: 0 <= j < |zones| && zones[j].0 == r[i].0
        {
          assert r[i] == rest[i - 1];
          if rest[i - 1].0 != name {
            var j :| 0 <= j < |zones[1..]| && zones[1..][j].0 == rest[i - 1].0;
            assert zones[j + 1].0 == r[i].0;
          }
        }
      }
    }
  }

  lemma {:induction false} SetZoneUnique(zones: ZoneList, name: string, zone: Zone)
    requires UniqueNames(zones)
    ensures UniqueNames(SetZone(zones, name, zone))
    decreases |zones|
  {
    var r := SetZone(zones, name, zone);
    if |zones| > 0 {
      if zones[0].0 == name {
        assert forall i :: 1 <= i < |r| ==> r[i] == zones[i];
      } else {
        var rest := SetZone(zones[1..], name, zone);
        UniqueTail(zones);
        SetZoneNamesFrom(zones[1..], name, zone);
        SetZoneUnique(zones[1..], name, zone);
        assert r == [zones[0]] + rest;
        forall i | 1 <= i < |r| ensures r[i].0 != r[0].0 {
          assert r[i] == rest[i - 1];
          if rest[i - 1].0 != name {
            var j :| 0 <= j < |zones[1..]| && zones[1..][j].0 == rest[i - 1].0;
            assert zones[j + 1].0 == r[i].0;
          }
        }
        forall a, b | 0 <= a < b < |r| ensures r[a].0 != r[b].0 {
          if a > 0 { assert r[a] == rest[a - 1] && r[b] == rest[b - 1]; }
        }
      }
    }
  }

  /** The cell data the pathfinder reads, as a value. */
  datatype Terrain = Terrain(width: int, height: int, cells: seq<Cell>)
  {
    predicate WellFormed()
    {
      width >= 0 && height >= 0 && |cells| == width * height
    }

    predicate InBounds(x: int, y: int)
    {
      0 <= x < width && 0 <= y < height
    }

    /** The vector index `at(x, y)` reads: `y * width + x`. */
    function Index(x: int, y: int): int
    {
      y * width + x
    }

    predicate ValidIndex(x: int, y: int)
    {
      0 <= Index(x, y) < |cells|
    }

    function At(x: int, y: int): Cell
      requires ValidIndex(x, y)
    {
      cells[Index(x, y)]
    }
  }

  /** In-bounds coordinates address the vector, and distinct coordinates
      address distinct cells. */
  lemma IndexInRange(t: Terrain, x: int, y: int)
    requires t.WellFormed() && t.InBounds(x, y)
    ensures t.ValidIndex(x, y)
  {
    assert y * t.width + x < (y + 1) * t.width;
    assert (y + 1) * t.width <= t.height * t.width by {
      MulLe(y + 1, t.height, t.width);
    }
  }

  lemma MulLe(a: int, b: int, c: int)
    requires a <= b && c >= 0
    ensures a * c <= b * c
  {
  }

  lemma IndexInjective(t: Terrain, x1: int, y1: int, x2: int, y2: int)
    requires t.InBounds(x1, y1) && t.InBounds(x2, y2)
    ensures t.Index(x1, y1) == t.Index(x2, y2) <==> x1 == x2 && y1 == y2
  {
    if y1 < y2 {
      MulLe(y1 + 1, y2, t.width);
    } else if y2 < y1 {
      MulLe(y2 + 1, y1, t.width);
    }
  }

  /** An in-row offset and a row number are recovered from their index. */
  lemma CoordsOfIndex(w: int, x: int, y: int)
    requires 0 <= x < w
    ensures (y * w + x) % w == x && (y * w + x) / w == y
  {
    var i := y * w + x;
    var q, r := i / w, i % w;
    assert i == q * w + r && 0 <= r < w;
    assert (q - y) * w == x - r;
    if q - y >= 1 {
      MulLe(1, q - y, w);
    } else if q - y <= -1 {
      MulLe(q - y, -1, w);
    }
  }

  /** The coordinates an index of a well-formed terrain stands for. */
  lemma IndexSurjective(t: Terrain, i: int)
    requires t.WellFormed() && 0 <= i < |t.cells|
    ensures t.width > 0 && t.InBounds(i % t.width, i / t.width)
    ensures t.Index(i % t.width, i / t.width) == i
  {
    if t.width != 0 && i / t.width >= t.height {
      MulLe(t.height, i / t.width, t.width);
    }
  }

  // -----------------------------------------------------------------------
  // The six-step tile cycle an editor click applies.

  /** The cell the click turns `c` into. */
  function NextTile(c: Cell): (r: Cell)
    ensures r.obstacle != c.obstacle
  {
    match c.obstacle
    case NoObstacle => Cell(Grass, 10)
    case Grass => Cell(Path, 5)
    case Path => Cell(Forest, 20)
    case Forest => Cell(Water, 100)
    case Water => Cell(Wall, 9999)
    case Wall => Cell(NoObstacle, 1)
  }

  /** The cost the cycle assigns to each obstacle type. */
  function CycleCost(o: ObstacleType): int
  {
    match o
    case NoObstacle => 1
    case Grass => 10
    case Path => 5
    case Forest => 20
    case Water => 100
    case Wall => 9999
  }

  function Cycle(c: Cell, n: nat): Cell
    decreases n
  {
    if n == 0 then c else Cycle(NextTile(c), n - 1)
  }

  lemma {:induction false} CycleSixRestores(c: Cell)
    ensures Cycle(c, 6).obstacle == c.obstacle
    ensures Cycle(c, 6).cost == CycleCost(c.obstacle)
  {
    var c1 := NextTile(c);
    var c2 := NextTile(c1);
    var c3 := NextTile(c2);
    var c4 := NextTile(c3);
    var c5 := NextTile(c4);
    assert Cycle(c, 6) == Cycle(c1, 5) == Cycle(c2, 4) == Cycle(c3, 3);
    assert Cycle(c3, 3) == Cycle(c4, 2) == Cycle(c5, 1) == NextTile(c5);
  }

  /** Every cell produced by the cycle carries the canonical cost of its type. */
  lemma NextTileCanonical(c: Cell)
    ensures NextTile(c).cost == CycleCost(NextTile(c).obstacle)
  {
  }

  // -----------------------------------------------------------------------
  // Applying the already-parsed tiles of an environment file.

  /** A parsed tile entry; a missing coordinate reads -1, a missing type "None". */
  datatype Tile = Tile(x: int, y: int, typeName: string)

  /** The five type names an environment file uses; anything else is None. */
  function JsonObstacleType(name: string): (o: ObstacleType)
    ensures o != NoObstacle <==> name in {"Wall", "Water", "Forest", "Grass", "Path"}
  {
    if name == "Wall" then Wall
    else if name == "Water" then Water
    else if name == "Forest" then Forest
    else if name == "Grass" then Grass
    else if name == "Path" then Path
    else NoObstacle
  }

  /** The cell a tile entry writes: its type, and the cost from the
      `tile_properties` table or 1. */
  function TileCell(tile: Tile, tileCosts: map<string, int>): (c: Cell)
    ensures c.obstacle == JsonObstacleType(tile.typeName)
    ensures c.cost == if tile.typeName in tileCosts then tileCosts[tile.typeName] else 1
  {
    Cell(JsonObstacleType(tile.typeName),
         if tile.typeName in tileCosts then tileCosts[tile.typeName] else 1)
  }

  /** The cells after applying the tiles one after the other. */
  function ApplyTiles(t: Terrain, tiles: seq<Tile>, tileCosts: map<string, int>): (r: seq<Cell>)
    requires t.WellFormed()
    ensures |r| == |t.cells|
    decreases |tiles|
  {
    if |tiles| == 0 then t.cells
    else
      var tile := tiles[|tiles| - 1];
      var before := ApplyTiles(t, tiles[..|tiles| - 1], tileCosts);
      if t.InBounds(tile.x, tile.y) then
        IndexInRange(t, tile.x, tile.y);
        before[t.Index(tile.x, tile.y) := TileCell(tile, tileCosts)]
      else before
  }

  /** The position of the last tile entry naming (x, y), or -1. */
  function LastTileAt(tiles: seq<Tile>, x: int, y: int): (k: int)
    ensures -1 <= k < |tiles|
    ensures k == -1 <==> forall j :: 0 <= j < |tiles| ==> tiles[j].x != x || tiles[j].y != y
    ensures k >= 0 ==> tiles[k].x == x && tiles[k].y == y
    ensures forall j :: k < j < |tiles| ==> tiles[j].x != x || tiles[j].y != y
    decreases |tiles|
  {
    if |tiles| == 0 then -1
    else if tiles[|tiles| - 1].x == x && tiles[|tiles| - 1].y == y then |tiles| - 1
    else LastTileAt(tiles[..|tiles| - 1], x, y)
  }

  /** The last tile entry naming an in-bounds cell decides it; a cell no
      entry names keeps its contents; out-of-bounds entries are ignored. */
  lemma {:induction false} ApplyTilesLastWins(t: Terrain, tiles: seq<Tile>, tileCosts: map<string, int>, x: int, y: int)
    requires t.WellFormed() && t.InBounds(x, y)
    ensures t.ValidIndex(x, y)
    ensures ApplyTiles(t, tiles, tileCosts)[t.Index(x, y)] ==
      if LastTileAt(tiles, x, y) == -1 then t.cells[t.Index(x, y)]
      else TileCell(tiles[LastTileAt(tiles, x, y)], tileCosts)
    decreases |tiles|
  {
    IndexInRange(t, x, y);
    if |tiles| > 0 {
      var tile := tiles[|tiles| - 1];
      ApplyTilesLastWins(t, tiles[..|tiles| - 1], tileCosts, x, y);
      if t.InBounds(tile.x, tile.y) {
        IndexInjective(t, tile.x, tile.y, x, y);
      }
    }
  }

  // -----------------------------------------------------------------------

  class Grid {
    var width: int
    var height: int
    var cells: seq<Cell>
    var zones: ZoneList

    ghost predicate Valid()
      reads this
    {
      width >= 0 && height >= 0 && |cells| == width * height && UniqueNames(zones)
    }

    function GetTerrain(): (t: Terrain)
      reads this
      ensures t.width == width && t.height == height && t.cells == cells
    {
      Terrain(width, height, cells)
    }

    /** A new grid: width x height default cells and no zones. */
    constructor (w: int, h: int)
      requires w >= 0 && h >= 0
      ensures Valid() && width == w && height == h && zones == []
      ensures forall i :: 0 <= i < |cells| ==> cells[i] == DefaultCell()
    {
      width := w;
      height := h;
      cells := seq(w * h, _ => DefaultCell());
      zones := [];
    }

    /** `at(x, y)`: unchecked row-major vector access. */
    function At(x: int, y: int): (c: Cell)
      reads this
      requires 0 <= y * width + x < |cells|
      ensures c == GetTerrain().At(x, y)
    {
      cells[y * width + x]
    }

    /** Advances the clicked cell one step in the tile cycle. */
    method CycleTileType(x: int, y: int)
      requires Valid()
      modifies this
      ensures Valid()
      ensures width == old(width) && height == old(height) && zones == old(zones)
      ensures !old(GetTerrain()).InBounds(x, y) ==> cells == old(cells)
      ensures old(GetTerrain()).InBounds(x, y) ==> (old(GetTerrain()).ValidIndex(x, y)
        && cells == old(cells)[y * width + x := NextTile(old(cells)[y * width + x])])
    {
      if x < 0 || x >= width || y < 0 || y >= height {
        return;
      }
      IndexInRange(GetTerrain(), x, y);
      var i := y * width + x;
      cells := cells[i := NextTile(cells[i])];
    }

    /** The tile-application loop of loading an environment file: the
        cells are re-initialised to w x h default cells, then every tile
        entry is applied in order. */
    method ApplyParsedTiles(w: int, h: int, tiles: seq<Tile>, tileCosts: map<string, int>)
      requires Valid() && w >= 0 && h >= 0
      modifies this
      ensures Valid() && width == w && height == h && zones == old(zones)
      ensures cells == ApplyTiles(Terrain(w, h, seq(w * h, _ => DefaultCell())), tiles, tileCosts)
    {
      width := w;
      height := h;
      cells := seq(w * h, _ => DefaultCell());
      ghost var start := GetTerrain();
      var k := 0;
      while k < |tiles|
        invariant 0 <= k <= |tiles|
        invariant width == w && height == h && zones == old(zones)
        invariant cells == ApplyTiles(start, tiles[..k], tileCosts)
      {
        var tile := tiles[k];
        if tile.x >= 0 && tile.x < width && tile.y >= 0 && tile.y < height {
          IndexInRange(start, tile.x, tile.y);
          var i := tile.y * width + tile.x;
          cells := cells[i := TileCell(tile, tileCosts)];
        }
        assert tiles[..k + 1][..k] == tiles[..k];
        k := k + 1;
      }
      assert tiles[..k] == tiles;
    }

    /** The zone-table part of loading an environment file: each entry is
        stored under its name, a later entry overwriting an earlier one. */
    method ApplyParsedZones(entries: seq<(string, Zone)>)
      requires Valid()
      modifies this
      ensures Valid() && width == old(width) && height == old(height) && cells == old(cells)
      ensures zones == ApplyZoneEntries(old(zones), entries)
    {
      var k := 0;
      while k < |entries|
        invariant 0 <= k <= |entries|
        invariant Valid() && width == old(width) && height == old(height) && cells == old(cells)
        invariant zones == ApplyZoneEntries(old(zones), entries[..k])
      {
        SetZoneNames(zones, entries[k].0, entries[k].1);
        zones := SetZone(zones, entries[k].0, entries[k].1);
        assert entries[..k + 1][..k] == entries[..k];
        k := k + 1;
      }
      assert entries[..k] == entries;
    }
  }

  /** The zone table after storing every entry in order. */
  function ApplyZoneEntries(zones: ZoneList, entries: seq<(string, Zone)>): ZoneList
    decreases |entries|
  {
    if |entries| == 0 then zones
    else
      var last := entries[|entries| - 1];
      SetZone(ApplyZoneEntries(zones, entries[..|entries| - 1]), last.0, last.1)
  }

  lemma {:induction false} ApplyZoneEntriesUnique(zones: ZoneList, entries: seq<(string, Zone)>)
    requires UniqueNames(zones)
    ensures UniqueNames(ApplyZoneEntries(zones, entries))
    decreases |entries|
  {
    if |entries| > 0 {
      var last := entries[|entries| - 1];
      ApplyZoneEntriesUnique(zones, entries[..|entries| - 1]);
      SetZoneNames(ApplyZoneEntries(zones, entries[..|entries| - 1]), last.0, last.1);
    }
  }

  lemma ApplyZoneEntriesUniqueIf(zones: ZoneList, entries: seq<(string, Zone)>)
    ensures UniqueNames(zones) ==> UniqueNames(ApplyZoneEntries(zones, entries))
  {
    if UniqueNames(zones) {
      ApplyZoneEntriesUnique(zones, entries);
    }
  }

  lemma ApplyZoneEntriesSnoc(zones: ZoneList, entries: seq<(string, Zone)>, e: (string, Zone))
    ensures ApplyZoneEntries(zones, entries + [e]) == SetZone(ApplyZoneEntries(zones, entries), e.0, e.1)
  {
    assert (entries + [e])[..|entries|] == entries;
  }

  /** The position of the last entry named `n`, or -1. */
  function LastEntryNamed(entries: seq<(string, Zone)>, n: string): (k: int)
    ensures -1 <= k < |entries|
    ensures k == -1 <==> forall j :: 0 <= j < |entries| ==> entries[j].0 != n
    ensures k >= 0 ==> entries[k].0 == n
    ensures forall j :: k < j < |entries| ==> entries[j].0 != n
    decreases |entries|
  {
    if |entries| == 0 then -1
    else if entries[|entries| - 1].0 == n then |entries| - 1
    else LastEntryNamed(entries[..|entries| - 1], n)
  }

  /** The last entry with a name decides that zone; names no entry uses
      keep their earlier zone. */
  lemma {:induction false} ZoneEntriesLastWins(zones: ZoneList, entries: seq<(string, Zone)>, n: string)
    ensures FindZone(ApplyZoneEntries(zones, entries), n) ==
      if LastEntryNamed(entries, n) == -1 then FindZone(zones, n)
      else Some(entries[LastEntryNamed(entries, n)].1)
    decreases |entries|
  {
    if |entries| > 0 {
      var last := entries[|entries| - 1];
      ZoneEntriesLastWins(zones, entries[..|entries| - 1], n);
      SetZoneFind(ApplyZoneEntries(zones, entries[..|entries| - 1]), last.0, last.1, n);
    }
  }
}

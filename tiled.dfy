/** Loading a map exported by the Tiled editor into a `Grid`. The JSON
    document is taken as already parsed into the records below, with the
    field defaults of the reader applied. */
module TiledParser {
  import opened Util
  import opened Grid

  /** One entry of a tileset's `tiles` array: the local id, its `type`
      name if present, and the value of its `cost` property if present. */
  datatype TileData = TileData(id: int, typeName: Option<string>, cost: Option<int>)

  /** A tileset reference; `hasSource` marks an external tileset. */
  datatype TilesetRef = TilesetRef(firstgid: int, hasSource: bool, tiles: seq<TileData>)

  /** A loaded tileset, keyed by global tile id (firstgid + local id). */
  datatype Tileset = Tileset(firstgid: int, tileTypes: map<int, string>, tileCosts: map<int, int>)

  datatype MapObject = MapObject(name: string, x: real, y: real, width: real, height: real)

  datatype Layer = Layer(layerType: string, visible: bool, width: int, height: int,
                         data: Option<seq<int>>, objects: Option<seq<MapObject>>)

  datatype TiledMap = TiledMap(mapType: Option<string>, width: int, height: int,
                               tilesets: seq<TilesetRef>, layers: seq<Layer>)

  /** Tiled type names: five obstacle names and "None", each capitalised
      or lower-case; every other name is no obstacle. */
  function StringToObstacleType(s: string): (o: ObstacleType)
    ensures o == Wall <==> s in {"Wall", "wall"}
    ensures o == Water <==> s in {"Water", "water"}
    ensures o == Forest <==> s in {"Forest", "forest"}
    ensures o == Grass <==> s in {"Grass", "grass"}
    ensures o == Path <==> s in {"Path", "path"}
  {
    if s == "Wall" || s == "wall" then Wall
    else if s == "Water" || s == "water" then Water
    else if s == "Forest" || s == "forest" then Forest
    else if s == "Grass" || s == "grass" then Grass
    else if s == "Path" || s == "path" then Path
    else NoObstacle
  }

  /** The movement cost of a tile whose tileset gives none. */
  function DefaultCost(o: ObstacleType): (c: int)
    ensures c >= 0
    ensures c == 0 <==> o == Path
    ensures c > 1 <==> (o == Wall || o == Water || o == Forest)
  {
    match o
    case Wall => 9999
    case Water => 50
    case Forest => 10
    case Grass => 1
    case Path => 0
    case NoObstacle => 1
  }

  /** The tileset built from an embedded reference; later entries for the
      same global id overwrite earlier ones. */
  function BuildTileset(firstgid: int, tiles: seq<TileData>): (ts: Tileset)
    ensures ts.firstgid == firstgid
    ensures forall g :: g in ts.tileTypes ==>
      exists k :: 0 <= k < |tiles| && firstgid + tiles[k].id == g && tiles[k].typeName.Some?
    decreases |tiles|
  {
    if |tiles| == 0 then Tileset(firstgid, map[], map[])
    else
      var before := BuildTileset(firstgid, tiles[..|tiles| - 1]);
      var t := tiles[|tiles| - 1];
      var g := firstgid + t.id;
      assert forall k :: 0 <= k < |tiles| - 1 ==> tiles[..|tiles| - 1][k] == tiles[k];
      Tileset(firstgid,
              if t.typeName.Some? then before.tileTypes[g := t.typeName.value] else before.tileTypes,
              if t.cost.Some? then before.tileCosts[g := t.cost.value] else before.tileCosts)
  }

  /** The tilesets kept from the references: external ones are skipped. */
  function LoadTilesets(refs: seq<TilesetRef>): (r: seq<Tileset>)
    ensures |r| <= |refs|
    ensures (forall k :: 0 <= k < |refs| ==> !refs[k].hasSource) ==> |r| == |refs|
    decreases |refs|
  {
    if |refs| == 0 then []
    else
      var rest := LoadTilesets(refs[1..]);
      if refs[0].hasSource then rest
      else [BuildTileset(refs[0].firstgid, refs[0].tiles)] + rest
  }

  /** The tileset a gid belongs to: the last one in list order whose
      firstgid does not exceed it. */
  function TilesetFor(tilesets: seq<Tileset>, gid: int): Option<Tileset>
    decreases |tilesets|
  {
    if |tilesets| == 0 then None
    else if gid >= tilesets[|tilesets| - 1].firstgid then Some(tilesets[|tilesets| - 1])
    else TilesetFor(tilesets[..|tilesets| - 1], gid)
  }

  /** No tileset covers `gid` exactly when every firstgid exceeds it;
      otherwise the answer is a tileset starting at or below `gid` after
      which every tileset starts above it. */
  lemma TilesetForMeaning(tilesets: seq<Tileset>, gid: int)
    ensures TilesetFor(tilesets, gid).None? <==> forall k :: 0 <= k < |tilesets| ==> gid < tilesets[k].firstgid
    ensures TilesetFor(tilesets, gid).Some? ==>
              exists k :: (0 <= k < |tilesets| && tilesets[k] == TilesetFor(tilesets, gid).value
                && gid >= tilesets[k].firstgid
                && forall j :: k < j < |tilesets| ==> gid < tilesets[j].firstgid)
  {
    TilesetForNone(tilesets, gid);
    if TilesetFor(tilesets, gid).Some? {
      TilesetForLast(tilesets, gid);
    }
  }

  lemma {:induction false} TilesetForNone(tilesets: seq<Tileset>, gid: int)
    ensures TilesetFor(tilesets, gid).None? <==> forall k :: 0 <= k < |tilesets| ==> gid < tilesets[k].firstgid
    decreases |tilesets|
  {
    var n := |tilesets|;
    if n > 0 && gid < tilesets[n - 1].firstgid {
      var init := tilesets[..n - 1];
      TilesetForNone(init, gid);
      assert forall k :: 0 <= k < n - 1 ==> init[k] == tilesets[k];
    }
  }

  lemma {:induction false} TilesetForLast(tilesets: seq<Tileset>, gid: int)
    requires TilesetFor(tilesets, gid).Some?
    ensures exists k :: (0 <= k < |tilesets| && tilesets[k] == TilesetFor(tilesets, gid).value
              && gid >= tilesets[k].firstgid
              && forall j :: k < j < |tilesets| ==> gid < tilesets[j].firstgid)
    decreases |tilesets|
  {
    var n := |tilesets|;
    if gid >= tilesets[n - 1].firstgid {
      assert tilesets[n - 1] == TilesetFor(tilesets, gid).value;
    } else {
      var init := tilesets[..n - 1];
      TilesetForLast(init, gid);
      var k :| 0 <= k < |init| && init[k] == TilesetFor(init, gid).value
               && gid >= init[k].firstgid
               && forall j :: k < j < |init| ==> gid < init[j].firstgid;
      assert tilesets[k] == init[k];
      forall j | k < j < n ensures gid < tilesets[j].firstgid {
        if j < n - 1 {
          assert init[j] == tilesets[j];
        }
      }
    }
  }

  /** The reverse scan over the tilesets. */
  method FindTileset(tilesets: seq<Tileset>, gid: int) returns (r: Option<Tileset>)
    ensures r == TilesetFor(tilesets, gid)
  {
    var k := |tilesets|;
    assert tilesets[..k] == tilesets;
    while k > 0
      invariant 0 <= k <= |tilesets|
      invariant TilesetFor(tilesets, gid) == TilesetFor(tilesets[..k], gid)
    {
      TilesetForStep(tilesets, k, gid);
      if gid >= tilesets[k - 1].firstgid {
        return Some(tilesets[k - 1]);
      }
      k := k - 1;
    }
    return None;
  }

  /** One step of the reverse scan. */
  lemma TilesetForStep(tilesets: seq<Tileset>, k: int, gid: int)
    requires 0 < k <= |tilesets|
    ensures TilesetFor(tilesets[..k], gid) ==
              if gid >= tilesets[k - 1].firstgid then Some(tilesets[k - 1])
              else TilesetFor(tilesets[..k - 1], gid)
  {
    assert tilesets[..k][k - 1] == tilesets[k - 1];
    assert tilesets[..k][..k - 1] == tilesets[..k - 1];
  }

  /** The cell a non-empty gid of tileset `ts` turns `c` into: the type is
      replaced only when the tileset names one, and the cost comes from the
      tileset or else from the (possibly unchanged) type. */
  function TileCellFor(c: Cell, gid: int, ts: Tileset): (r: Cell)
    ensures r.obstacle == if gid in ts.tileTypes then StringToObstacleType(ts.tileTypes[gid]) else c.obstacle
    ensures r.cost == if gid in ts.tileCosts then ts.tileCosts[gid] else DefaultCost(r.obstacle)
  {
    var o := if gid in ts.tileTypes then StringToObstacleType(ts.tileTypes[gid]) else c.obstacle;
    Cell(o, if gid in ts.tileCosts then ts.tileCosts[gid] else DefaultCost(o))
  }

  /** The gid a tile layer holds for grid cell (x, y), if the source's loop
      writes that cell: inside both the layer and the grid, inside the data
      array, non-zero, and covered by some tileset. */
  function LayerGid(layer: Layer, data: seq<int>, gw: int, gh: int, tilesets: seq<Tileset>, x: int, y: int): Option<int>
  {
    if 0 <= x < layer.width && x < gw && 0 <= y < layer.height && y < gh
       && y * layer.width + x < |data|
       && data[y * layer.width + x] != 0
       && TilesetFor(tilesets, data[y * layer.width + x]).Some?
    then Some(data[y * layer.width + x])
    else None
  }

  /** The cells after one tile layer. */
  function TileLayerCells(t: Terrain, layer: Layer, data: seq<int>, tilesets: seq<Tileset>): (r: seq<Cell>)
    requires t.WellFormed()
    ensures |r| == |t.cells|
  {
    seq(|t.cells|, i requires 0 <= i < |t.cells| =>
      LayerCellAt(t, layer, data, tilesets, i))
  }

  function LayerCellAt(t: Terrain, layer: Layer, data: seq<int>, tilesets: seq<Tileset>, i: int): Cell
    requires t.WellFormed() && 0 <= i < |t.cells|
  {
    IndexSurjective(t, i);
    var g := LayerGid(layer, data, t.width, t.height, tilesets, i % t.width, i / t.width);
    if g.Some? then TileCellFor(t.cells[i], g.value, TilesetFor(tilesets, g.value).value)
    else t.cells[i]
  }

  /** Each grid cell is rewritten from the layer's gid at that cell, or
      kept when the loop skips it. */
  lemma TileLayerCellsAt(t: Terrain, layer: Layer, data: seq<int>, tilesets: seq<Tileset>, x: int, y: int)
    requires t.WellFormed() && t.InBounds(x, y)
    ensures t.ValidIndex(x, y)
    ensures var g := LayerGid(layer, data, t.width, t.height, tilesets, x, y);
      TileLayerCells(t, layer, data, tilesets)[t.Index(x, y)] ==
        if g.Some? then TileCellFor(t.At(x, y), g.value, TilesetFor(tilesets, g.value).value)
        else t.At(x, y)
  {
    IndexInRange(t, x, y);
    CoordsOfIndex(t.width, x, y);
  }

  /** The zone an object becomes, if any: pixel values are truncated to
      32-pixel tiles, and only named objects with a positive tile size count. */
  function ObjectZone(o: MapObject): Option<(string, Zone)>
  {
    var z := Zone(Trunc(o.x / 32.0), Trunc(o.y / 32.0), Trunc(o.width / 32.0), Trunc(o.height / 32.0));
    if o.name != "" && z.width > 0 && z.height > 0 then Some((o.name, z)) else None
  }

  function ObjectZones(objects: seq<MapObject>): (r: seq<(string, Zone)>)
    ensures forall k :: 0 <= k < |r| ==> r[k].0 != "" && r[k].1.width > 0 && r[k].1.height > 0
    ensures |r| <= |objects|
    decreases |objects|
  {
    if |objects| == 0 then []
    else
      var before := ObjectZones(objects[..|objects| - 1]);
      match ObjectZone(objects[|objects| - 1])
      case Some(e) => before + [e]
      case None => before
  }

  /** An object narrower than one tile (under 32 pixels) adds no zone. */
  lemma NarrowObjectIgnored(o: MapObject)
    requires 0.0 <= o.width < 32.0
    ensures ObjectZone(o).None?
  {
  }

  /** The grid state the loader produces, as a value. */
  datatype Loaded = Loaded(terrain: Terrain, zones: ZoneList)

  function ApplyLayer(s: Loaded, layer: Layer, tilesets: seq<Tileset>): (r: Loaded)
    requires s.terrain.WellFormed()
    ensures r.terrain.WellFormed() && r.terrain.width == s.terrain.width && r.terrain.height == s.terrain.height
    ensures UniqueNames(s.zones) ==> UniqueNames(r.zones)
    ensures !layer.visible ==> r == s
  {
    if !layer.visible then s
    else if layer.layerType == "tilelayer" then
      if layer.data.Some? then
        Loaded(Terrain(s.terrain.width, s.terrain.height, TileLayerCells(s.terrain, layer, layer.data.value, tilesets)), s.zones)
      else s
    else if layer.layerType == "objectgroup" then
      if layer.objects.Some? then
        ApplyZoneEntriesUniqueIf(s.zones, ObjectZones(layer.objects.value));
        Loaded(s.terrain, ApplyZoneEntries(s.zones, ObjectZones(layer.objects.value)))
      else s
    else s
  }

  function ApplyLayers(s: Loaded, layers: seq<Layer>, tilesets: seq<Tileset>): (r: Loaded)
    requires s.terrain.WellFormed()
    ensures r.terrain.WellFormed() && r.terrain.width == s.terrain.width && r.terrain.height == s.terrain.height
    ensures UniqueNames(s.zones) ==> UniqueNames(r.zones)
    decreases |layers|
  {
    if |layers| == 0 then s
    else ApplyLayers(ApplyLayer(s, layers[0], tilesets), layers[1..], tilesets)
  }

  /** What a successful load leaves in the grid: a fresh width x height
      grid with every visible layer applied in order. */
  function LoadedMap(m: TiledMap): (r: Loaded)
    requires m.width >= 0 && m.height >= 0
    ensures r.terrain.width == m.width && r.terrain.height == m.height && r.terrain.WellFormed()
    ensures UniqueNames(r.zones)
  {
    ApplyLayers(Loaded(Terrain(m.width, m.height, seq(m.width * m.height, _ => DefaultCell())), []),
                m.layers, LoadTilesets(m.tilesets))
  }

  /** Invisible layers do not contribute. */
  lemma {:induction false} InvisibleLayersSkipped(s: Loaded, layers: seq<Layer>, tilesets: seq<Tileset>)
    requires s.terrain.WellFormed()
    requires forall k :: 0 <= k < |layers| ==> !layers[k].visible
    ensures ApplyLayers(s, layers, tilesets) == s
    decreases |layers|
  {
    if |layers| > 0 {
      InvisibleLayersSkipped(s, layers[1..], tilesets);
    }
  }

  // -----------------------------------------------------------------------
  // The loader's loops, writing into a Grid.

  /** Row-major progress of the loader's nested loop: cell `i` comes
      before column x of row y. */
  predicate Before(w: int, i: int, x: int, y: int)
    requires w > 0
  {
    i / w < y || (i / w == y && i % w < x)
  }

  lemma BeforeStep(w: int, i: int, x: int, y: int)
    requires 0 <= x < w && 0 <= i
    ensures Before(w, i, x + 1, y) <==> (Before(w, i, x, y) || i == y * w + x)
  {
    CoordsOfIndex(w, x, y);
    if i / w == y && i % w == x {
      assert i == (i / w) * w + i % w;
    }
  }

  /** A cell the loop has not reached keeps its contents when the loop stops
      at column x of row y or beyond: its column or row lies outside the layer. */
  lemma UnreachedUnchanged(t: Terrain, layer: Layer, data: seq<int>, tilesets: seq<Tileset>, i: int)
    requires t.WellFormed() && 0 <= i < |t.cells|
    requires t.width > 0
    requires i % t.width >= layer.width || i / t.width >= layer.height
    ensures LayerCellAt(t, layer, data, tilesets, i) == t.cells[i]
  {
    IndexSurjective(t, i);
  }

  method ProcessTileLayer(layer: Layer, data: seq<int>, grid: Grid, tilesets: seq<Tileset>)
    requires grid.Valid()
    modifies grid
    ensures grid.Valid() && grid.width == old(grid.width) && grid.height == old(grid.height)
    ensures grid.zones == old(grid.zones)
    ensures grid.cells == TileLayerCells(old(grid.GetTerrain()), layer, data, tilesets)
  {
    ghost var t := grid.GetTerrain();
    var w, h := grid.width, grid.height;
    if w == 0 {
      assert |t.cells| == 0;
      assert grid.cells == TileLayerCells(t, layer, data, tilesets);
      return;
    }
    var y := 0;
    while y < layer.height && y < h
      invariant 0 <= y
      invariant grid.Valid() && grid.width == w && grid.height == h && grid.zones == old(grid.zones)
      invariant |grid.cells| == |t.cells|
      invariant forall i :: 0 <= i < |t.cells| ==>
        grid.cells[i] == if Before(w, i, 0, y) then LayerCellAt(t, layer, data, tilesets, i) else t.cells[i]
    {
      var x := 0;
      while x < layer.width && x < w
        invariant 0 <= x
        invariant grid.Valid() && grid.width == w && grid.height == h && grid.zones == old(grid.zones)
        invariant |grid.cells| == |t.cells|
        invariant forall i :: 0 <= i < |t.cells| ==>
          grid.cells[i] == if Before(w, i, x, y) then LayerCellAt(t, layer, data, tilesets, i) else t.cells[i]
      {
        ProcessTileCell(layer, data, grid, tilesets, x, y, t);
        x := x + 1;
      }
      forall i | 0 <= i < |t.cells|
        ensures grid.cells[i] == if Before(w, i, 0, y + 1) then LayerCellAt(t, layer, data, tilesets, i) else t.cells[i]
      {
        if i / w == y && i % w >= x {
          UnreachedUnchanged(t, layer, data, tilesets, i);
        }
      }
      y := y + 1;
    }
    forall i | 0 <= i < |t.cells|
      ensures grid.cells[i] == LayerCellAt(t, layer, data, tilesets, i)
    {
      IndexSurjective(t, i);
      if i / w >= y {
        UnreachedUnchanged(t, layer, data, tilesets, i);
      }
    }
  }

  /** The body of the nested loop for cell (x, y). */
  method ProcessTileCell(layer: Layer, data: seq<int>, grid: Grid, tilesets: seq<Tileset>, x: int, y: int, ghost t: Terrain)
    requires grid.Valid() && t.WellFormed() && t.width == grid.width && t.height == grid.height
    requires |grid.cells| == |t.cells|
    requires 0 <= x < layer.width && x < grid.width && 0 <= y < layer.height && y < grid.height
    requires forall i :: 0 <= i < |t.cells| ==>
      grid.cells[i] == if Before(grid.width, i, x, y) then LayerCellAt(t, layer, data, tilesets, i) else t.cells[i]
    modifies grid
    ensures grid.Valid() && grid.width == old(grid.width) && grid.height == old(grid.height)
    ensures grid.zones == old(grid.zones) && |grid.cells| == |t.cells|
    ensures forall i :: 0 <= i < |t.cells| ==>
      grid.cells[i] == if Before(grid.width, i, x + 1, y) then LayerCellAt(t, layer, data, tilesets, i) else t.cells[i]
  {
    var w := grid.width;
    IndexInRange(t, x, y);
    CoordsOfIndex(w, x, y);
    var j := y * w + x;
    assert !Before(w, j, x, y);
    assert grid.cells[j] == t.cells[j];
    var index := y * layer.width + x;
    if index < |data| && data[index] != 0 {
      var found := FindTileset(tilesets, data[index]);
      if found.Some? {
        grid.cells := grid.cells[j := TileCellFor(grid.cells[j], data[index], found.value)];
      }
    }
    assert grid.cells[j] == LayerCellAt(t, layer, data, tilesets, j);
    forall i | 0 <= i < |t.cells|
      ensures grid.cells[i] == if Before(w, i, x + 1, y) then LayerCellAt(t, layer, data, tilesets, i) else t.cells[i]
    {
      BeforeStep(w, i, x, y);
    }
  }

  method ProcessObjectGroup(objects: seq<MapObject>, grid: Grid)
    requires grid.Valid()
    modifies grid
    ensures grid.Valid() && grid.cells == old(grid.cells)
    ensures grid.width == old(grid.width) && grid.height == old(grid.height)
    ensures grid.zones == ApplyZoneEntries(old(grid.zones), ObjectZones(objects))
  {
    var zones := grid.zones;
    var k := 0;
    while k < |objects|
      invariant 0 <= k <= |objects|
      invariant UniqueNames(zones)
      invariant zones == ApplyZoneEntries(old(grid.zones), ObjectZones(objects[..k]))
      modifies {}
    {
      var entry := ObjectZone(objects[k]);
      ObjectZonesStep(old(grid.zones), objects, k);
      if entry.Some? {
        SetZoneNames(zones, entry.value.0, entry.value.1);
        zones := SetZone(zones, entry.value.0, entry.value.1);
      }
      k := k + 1;
    }
    assert objects[..k] == objects;
    grid.zones := zones;
  }

  lemma ObjectZonesStep(zones: ZoneList, objects: seq<MapObject>, k: int)
    requires 0 <= k < |objects|
    ensures ApplyZoneEntries(zones, ObjectZones(objects[..k + 1])) ==
      match ObjectZone(objects[k])
      case Some(e) => SetZone(ApplyZoneEntries(zones, ObjectZones(objects[..k])), e.0, e.1)
      case None => ApplyZoneEntries(zones, ObjectZones(objects[..k]))
  {
    assert objects[..k + 1][..k] == objects[..k];
    var before := ObjectZones(objects[..k]);
    match ObjectZone(objects[k])
    case Some(e) =>
      assert ObjectZones(objects[..k + 1]) == before + [e];
      ApplyZoneEntriesSnoc(zones, before, e);
    case None =>
  }

  /** Loads a parsed map into `grid`; false (and the grid untouched) unless
      the document's type is "map". */
  method LoadTiledMap(m: TiledMap, grid: Grid) returns (ok: bool)
    requires grid.Valid()
    requires m.mapType == Some("map") ==> m.width >= 0 && m.height >= 0
    modifies grid
    ensures grid.Valid()
    ensures ok <==> m.mapType == Some("map")
    ensures !ok ==> (grid.width == old(grid.width) && grid.height == old(grid.height)
      && grid.cells == old(grid.cells) && grid.zones == old(grid.zones))
    ensures ok ==> Loaded(grid.GetTerrain(), grid.zones) == LoadedMap(m)
  {
    if m.mapType != Some("map") {
      return false;
    }
    grid.width, grid.height := m.width, m.height;
    grid.cells := seq(m.width * m.height, _ => DefaultCell());
    grid.zones := [];
    var tilesets := LoadTilesetsLoop(m.tilesets);
    ghost var start := Loaded(grid.GetTerrain(), grid.zones);
    var k := 0;
    while k < |m.layers|
      invariant 0 <= k <= |m.layers|
      invariant grid.Valid() && grid.width == m.width && grid.height == m.height
      invariant ApplyLayers(start, m.layers, tilesets)
             == ApplyLayers(Loaded(grid.GetTerrain(), grid.zones), m.layers[k..], tilesets)
    {
      var layer := m.layers[k];
      assert m.layers[k..][1..] == m.layers[k + 1..];
      if layer.visible {
        if layer.layerType == "tilelayer" {
          if layer.data.Some? {
            ProcessTileLayer(layer, layer.data.value, grid, tilesets);
          }
        } else if layer.layerType == "objectgroup" {
          if layer.objects.Some? {
            ProcessObjectGroup(layer.objects.value, grid);
          }
        }
      }
      k := k + 1;
    }
    return true;
  }

  /** The tileset loop, over the references in file order: external
      references are skipped, embedded ones appended. */
  method LoadTilesetsLoop(refs: seq<TilesetRef>) returns (tilesets: seq<Tileset>)
    ensures tilesets == LoadTilesets(refs)
  {
    tilesets := [];
    var k := 0;
    while k < |refs|
      invariant 0 <= k <= |refs|
      invariant tilesets == LoadTilesets(refs[..k])
    {
      LoadTilesetsSnoc(refs[..k], refs[k]);
      assert refs[..k + 1] == refs[..k] + [refs[k]];
      if !refs[k].hasSource {
        tilesets := tilesets + [BuildTileset(refs[k].firstgid, refs[k].tiles)];
      }
      k := k + 1;
    }
    assert refs[..k] == refs;
  }

  /** One more reference adds its tileset at the end, unless it is external. */
  lemma {:induction false} LoadTilesetsSnoc(refs: seq<TilesetRef>, r: TilesetRef)
    ensures LoadTilesets(refs + [r]) ==
              LoadTilesets(refs) + (if r.hasSource then [] else [BuildTileset(r.firstgid, r.tiles)])
    decreases |refs|
  {
    if |refs| == 0 {
      assert (refs + [r])[1..] == [];
    } else {
      assert (refs + [r])[0] == refs[0] && (refs + [r])[1..] == refs[1..] + [r];
      LoadTilesetsSnoc(refs[1..], r);
    }
  }
}

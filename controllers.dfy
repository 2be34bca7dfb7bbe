/** Controllers: the player's key-to-grid-step handler and the factory
    and dispatcher that own one controller per entity. Keyboard events
    are reduced to the four movement keys and everything else. */
module Controllers {
  import opened Util
  import opened Grid
  import opened Paths
  import opened Movements

  datatype Key = KeyW | KeyS | KeyA | KeyD | OtherKey

  datatype Event = KeyDown(key: Key) | OtherEvent

  /** The grid step a key asks for: W up, S down, A left, D right. */
  function KeyStep(k: Key): (r: Option<Point>)
    ensures r.Some? <==> k != OtherKey
    ensures r.Some? ==> Heuristic(Point(0, 0), r.value) == 1
  {
    match k
    case KeyW => Some(Point(0, -1))
    case KeyS => Some(Point(0, 1))
    case KeyA => Some(Point(-1, 0))
    case KeyD => Some(Point(1, 0))
    case OtherKey => None
  }

  /** `static_cast<int>(pos / cellSize)`: the cell a pixel coordinate is in. */
  function CellOf(v: real, cellSize: int): int
    requires cellSize > 0
  {
    Trunc(v / cellSize as real)
  }

  /** `cell * cellSize + cellSize / 2.0`: the pixel centre of a cell. */
  function CellCentre(c: int, cellSize: int): real
  {
    (c * cellSize) as real + cellSize as real / 2.0
  }

  /** The centre of a cell lies in that cell: a player sent to a cell
      and standing on its target is seen in that cell. */
  lemma CellOfCentre(c: int, cellSize: int)
    requires c >= 0 && cellSize > 0
    ensures CellOf(CellCentre(c, cellSize), cellSize) == c
  {
    var cs := cellSize as real;
    var v := CellCentre(c, cellSize);
    assert v == (c as real + 0.5) * cs;
    DivCancel(c as real + 0.5, cs);
    var q := c as real + 0.5;
    assert v / cs == q;
    assert q.Floor == c;
    assert Trunc(q) == c;
  }

  lemma DivCancel(x: real, d: real)
    requires d > 0.0
    ensures (x * d) / d == x
  {
  }

  /** A cell the player may step into: inside the grid and free of any
      obstacle, so Grass, Path and the rest are refused too. */
  predicate Walkable(t: Terrain, x: int, y: int)
  {
    0 <= x < t.width && 0 <= y < t.height && t.ValidIndex(x, y) && t.At(x, y).obstacle == NoObstacle
  }

  /** The cell `handleEvent` would send the player to, or None when it
      leaves the record alone: no record, already moving, not a key-down,
      no position, not a movement key, or a target cell that is not
      walkable. */
  function PlayerTargetCell(m: Option<Movement>, pos: Option<Position>, event: Event, t: Terrain,
                            cellSize: int): (r: Option<Point>)
    requires cellSize > 0
    ensures r.Some? ==> Walkable(t, r.value.x, r.value.y)
    ensures r.Some? ==> m.Some? && !m.value.isMoving && event.KeyDown? && pos.Some?
                        && Heuristic(Point(CellOf(pos.value.x, cellSize), CellOf(pos.value.y, cellSize)), r.value) == 1
  {
    if m.None? || m.value.isMoving || !event.KeyDown? || pos.None? then None
    else
      match KeyStep(event.key)
      case None => None
      case Some(d) =>
        var target := Point(CellOf(pos.value.x, cellSize) + d.x, CellOf(pos.value.y, cellSize) + d.y);
        if Walkable(t, target.x, target.y) then Some(target) else None
  }

  /** The movement record after `handleEvent`: retargeted to the centre of
      the chosen cell, or unchanged. */
  function Handled(m: Movement, pos: Option<Position>, event: Event, t: Terrain, cellSize: int): (r: Movement)
    requires cellSize > 0
    ensures PlayerTargetCell(Some(m), pos, event, t, cellSize).None? ==> r == m
  {
    match PlayerTargetCell(Some(m), pos, event, t, cellSize)
    case None => m
    case Some(c) =>
      m.SetTarget(CellCentre(c.x, cellSize), CellCentre(c.y, cellSize))
       .(phase := Moving, phaseTimer := 0.0, isMoving := true)
  }

  /** An accepted key press heads for the centre of a walkable neighbour
      cell of the player's current cell, in phase MOVING with a fresh
      timer; speed and durations are kept. */
  lemma HandledMeaning(m: Movement, pos: Option<Position>, event: Event, t: Terrain, cellSize: int)
    requires cellSize > 0
    ensures var c := PlayerTargetCell(Some(m), pos, event, t, cellSize);
            var r := Handled(m, pos, event, t, cellSize);
            c.Some? ==>
              r.targetX == CellCentre(c.value.x, cellSize) && r.targetY == CellCentre(c.value.y, cellSize)
              && r.phase == Moving && r.isMoving && r.phaseTimer == 0.0
              && r.speed == m.speed && r.planningDuration == m.planningDuration
              && r.arrivingDuration == m.arrivingDuration
              && Walkable(t, c.value.x, c.value.y) && c.value.x >= 0 && c.value.y >= 0
              && CellOf(r.targetX, cellSize) == c.value.x && CellOf(r.targetY, cellSize) == c.value.y
  {
    var c := PlayerTargetCell(Some(m), pos, event, t, cellSize);
    if c.Some? {
      CellOfCentre(c.value.x, cellSize);
      CellOfCentre(c.value.y, cellSize);
    }
  }

  /** Only `isMoving` is consulted, not the phase: an entity that is
      PLANNING (and so not moving) takes a player target like an IDLE one. */
  lemma PlanningCanBeRetargeted(m: Movement, pos: Option<Position>, event: Event, t: Terrain, cellSize: int)
    requires cellSize > 0 && m.phase == Planning && !m.isMoving
    ensures PlayerTargetCell(Some(m), pos, event, t, cellSize)
            == PlayerTargetCell(Some(m.(phase := Idle)), pos, event, t, cellSize)
  {
  }

  /** A press of a movement key toward a walkable cell is accepted. */
  lemma WalkableStepAccepted(m: Movement, p: Position, k: Key, t: Terrain, cellSize: int)
    requires cellSize > 0 && !m.isMoving && k != OtherKey
    requires Walkable(t, CellOf(p.x, cellSize) + KeyStep(k).value.x, CellOf(p.y, cellSize) + KeyStep(k).value.y)
    ensures PlayerTargetCell(Some(m), Some(p), KeyDown(k), t, cellSize)
            == Some(Point(CellOf(p.x, cellSize) + KeyStep(k).value.x, CellOf(p.y, cellSize) + KeyStep(k).value.y))
  {
  }

  /** The key switch of `handleEvent`: the target cell one step from
      (x, y), and whether a movement key was pressed at all. */
  method KeyTarget(k: Key, x: int, y: int) returns (pressed: bool, tx: int, ty: int)
    ensures pressed <==> KeyStep(k).Some?
    ensures pressed ==> tx == x + KeyStep(k).value.x && ty == y + KeyStep(k).value.y
  {
    tx, ty, pressed := x, y, false;
    match k {
      case KeyW => ty := ty - 1; pressed := true;
      case KeyS => ty := ty + 1; pressed := true;
      case KeyA => tx := tx - 1; pressed := true;
      case KeyD => tx := tx + 1; pressed := true;
      case OtherKey =>
    }
  }

  /** The checks of `handleEvent` once the record is known and not
      moving: a key-down, a position, a movement key, and a target cell
      inside the grid without an obstacle. */
  method TargetCell(m: Movement, event: Event, pos: Option<Position>, grid: Grid, cellSize: int)
    returns (c: Option<Point>)
    requires cellSize > 0 && grid.Valid() && !m.isMoving
    ensures c == PlayerTargetCell(Some(m), pos, event, grid.GetTerrain(), cellSize)
  {
    ghost var t := grid.GetTerrain();
    if !event.KeyDown? || pos.None? {
      return None;
    }
    var currentGridX := Trunc(pos.value.x / cellSize as real);
    var currentGridY := Trunc(pos.value.y / cellSize as real);
    assert currentGridX == CellOf(pos.value.x, cellSize) && currentGridY == CellOf(pos.value.y, cellSize);
    var keyPressed, targetGridX, targetGridY := KeyTarget(event.key, currentGridX, currentGridY);
    if !keyPressed {
      return None;
    }
    if 0 <= targetGridX < grid.width && 0 <= targetGridY < grid.height {
      IndexInRange(t, targetGridX, targetGridY);
      if grid.At(targetGridX, targetGridY).obstacle == NoObstacle {
        return Some(Point(targetGridX, targetGridY));
      }
    }
    return None;
  }

  /** `PlayerController::handleEvent` for entity `uid`. */
  method HandleEvent(event: Event, uid: nat, moveManager: MovementManager, posManager: PositionManager,
                     grid: Grid, cellSize: int)
    requires cellSize > 0 && grid.Valid()
    modifies moveManager
    ensures uid in old(moveManager.movements) ==>
              moveManager.movements == old(moveManager.movements)[uid := Handled(old(moveManager.movements)[uid],
                                         posManager.Get(uid), event, grid.GetTerrain(), cellSize)]
    ensures uid !in old(moveManager.movements) ==> moveManager.movements == old(moveManager.movements)
  {
    var movement := moveManager.Get(uid);
    if movement.None? || movement.value.isMoving {
      return;
    }
    var m := movement.value;
    var c := TargetCell(m, event, posManager.Get(uid), grid, cellSize);
    if c.Some? {
      var targetPixelX := (c.value.x * cellSize) as real + cellSize as real / 2.0;
      var targetPixelY := (c.value.y * cellSize) as real + cellSize as real / 2.0;
      m := m.SetTarget(targetPixelX, targetPixelY);
      m := m.(phase := Moving, phaseTimer := 0.0, isMoving := true);
      moveManager.movements := moveManager.movements[uid := m];
    }
  }

  /** A controller component: the player's, or the plain one with type
      "unknown" that guardians and citizens get. */
  datatype Controller = PlayerController | PlainController
  {
    function Type(): string
    {
      if PlayerController? then "player" else "unknown"
    }
  }

  class ControllerManager {
    var controllers: map<nat, Controller>

    constructor ()
      ensures controllers == map[]
    {
      controllers := map[];
    }

    /** "player" stores a player controller, "guardian" and "citizen" a
        plain one, replacing any earlier controller; any other type
        stores nothing and returns None. */
    method Create(uid: nat, kind: string) returns (r: Option<Controller>)
      modifies this
      ensures kind == "player" ==> r == Some(PlayerController) && controllers == old(controllers)[uid := PlayerController]
      ensures kind == "guardian" || kind == "citizen" ==>
                r == Some(PlainController) && controllers == old(controllers)[uid := PlainController]
      ensures kind != "player" && kind != "guardian" && kind != "citizen" ==>
                r.None? && controllers == old(controllers)
      ensures r.Some? ==> Get(uid) == r
      ensures r.Some? ==> (r.value.Type() == "player" <==> kind == "player")
    {
      if kind == "player" {
        controllers := controllers[uid := PlayerController];
        r := Some(PlayerController);
      } else if kind == "guardian" {
        controllers := controllers[uid := PlainController];
        r := Some(PlainController);
      } else if kind == "citizen" {
        controllers := controllers[uid := PlainController];
        r := Some(PlainController);
      } else {
        r := None;
      }
    }

    function Get(uid: nat): (r: Option<Controller>)
      reads this
      ensures r.None? <==> uid !in controllers
      ensures r.Some? ==> r.value == controllers[uid]
    {
      if uid in controllers then Some(controllers[uid]) else None
    }

    /** Whether the dispatcher hands the event to this entity's controller. */
    predicate Dispatches(uid: nat)
      reads this
    {
      uid in controllers && controllers[uid].Type() == "player" && controllers[uid].PlayerController?
    }

    /** Forward the event to every player controller, in the map's order.
        Each handler writes only its own entity's record and reads only its
        own position, so the order does not matter. */
    method HandleEvents(event: Event, moveManager: MovementManager, posManager: PositionManager,
                        grid: Grid, cellSize: int)
      requires cellSize > 0 && grid.Valid()
      modifies moveManager
      ensures forall u :: u in moveManager.movements <==> u in old(moveManager.movements)
      ensures forall u :: u in moveManager.movements ==>
                moveManager.movements[u] ==
                  if Dispatches(u) then Handled(old(moveManager.movements)[u], posManager.Get(u), event,
                                                grid.GetTerrain(), cellSize)
                  else old(moveManager.movements)[u]
    {
      ghost var m0 := moveManager.movements;
      var todo := controllers.Keys;
      while todo != {}
        invariant todo <= controllers.Keys
        invariant forall u :: u in moveManager.movements <==> u in m0
        invariant forall u :: u in m0 ==>
                    moveManager.movements[u] ==
                      if Dispatches(u) && u !in todo then Handled(m0[u], posManager.Get(u), event,
                                                                  grid.GetTerrain(), cellSize)
                      else m0[u]
        decreases |todo|
      {
        ghost var w := Pick(todo);
        var uid :| uid in todo;
        var controller := controllers[uid];
        if controller.Type() == "player" {
          if controller.PlayerController? {
            HandleEvent(event, uid, moveManager, posManager, grid, cellSize);
          }
        }
        todo := todo - {uid};
      }
    }
  }
}

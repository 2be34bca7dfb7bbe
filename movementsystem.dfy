/** `ECS::MovementSystem`: the world-based alternative to the movement
    manager. Every moving entity with a position walks toward its target
    at speed * deltaTime (no time scale), without overshooting, and snaps
    onto it once closer than one pixel. */
module MovementSystems {
  import opened Util
  import opened Entities
  import opened Components
  import opened EcsWorld
  import opened Movements

  /** The component values the world holds for this system. */
  datatype Component = MovementComponent(movement: Movement) | PositionComponent(position: Position)
                     | OtherComponent(tag: string)

  const MOVEMENT: TypeId := "Movement"
  const POSITION: TypeId := "PositionComponent"

  /** `updateEntityPosition` on values: snap when within one pixel;
      otherwise move min(speed * deltaTime, distance) along the offset. */
  function PositionStep(m: Movement, p: Position, deltaTime: real, norm: (real, real) -> real): (Movement, Position)
  {
    var dx := m.targetX - p.x;
    var dy := m.targetY - p.y;
    var distance := Distance(m, p, norm);
    if distance < 1.0 then
      (m.(isMoving := false, phase := Arriving, phaseTimer := 0.0), Position(m.targetX, m.targetY))
    else
      var moveDistance := if m.speed * deltaTime > distance then distance else m.speed * deltaTime;
      (m, Position(p.x + (dx / distance) * moveDistance, p.y + (dy / distance) * moveDistance))
  }

  /** Within one pixel the entity lands on its target and starts arriving.
      Otherwise only the position changes, and the new offset is the old
      one scaled by 1 - step / distance with step = min(speed * deltaTime,
      distance): for a forward step the factor lies in [0, 1), so the
      entity never overshoots. */
  lemma PositionStepMeaning(m: Movement, p: Position, deltaTime: real, norm: (real, real) -> real)
    ensures var dx, dy := m.targetX - p.x, m.targetY - p.y;
            var distance := Distance(m, p, norm);
            var r := PositionStep(m, p, deltaTime, norm);
            var step := if m.speed * deltaTime > distance then distance else m.speed * deltaTime;
            (distance < 1.0 ==>
               r.1 == Position(m.targetX, m.targetY) && !r.0.isMoving && r.0.phase == Arriving
               && r.0.phaseTimer == 0.0 && r.0.speed == m.speed)
            && (distance >= 1.0 ==>
               r.0 == m && step <= distance
               && m.targetX - r.1.x == (1.0 - step / distance) * dx
               && m.targetY - r.1.y == (1.0 - step / distance) * dy
               && (m.speed * deltaTime >= 0.0 ==> 0.0 <= 1.0 - step / distance < 1.0 || step == 0.0))
  {
    var dx, dy := m.targetX - p.x, m.targetY - p.y;
    var distance := Distance(m, p, norm);
    if distance >= 1.0 {
      var step := if m.speed * deltaTime > distance then distance else m.speed * deltaTime;
      StepScales(dx, distance, step);
      StepScales(dy, distance, step);
      if m.speed * deltaTime >= 0.0 && step != 0.0 {
        StepFraction(distance, step);
      }
    }
  }

  lemma StepFraction(distance: real, step: real)
    requires distance >= 1.0 && 0.0 < step <= distance
    ensures 0.0 <= 1.0 - step / distance < 1.0
  {
    assert step / distance <= 1.0 by {
      assert (step / distance) * distance == step;
    }
    assert step / distance > 0.0;
  }

  /** One entity's part of a pass: what its movement and position
      components become. Entities that are not moving, or have no
      position, are skipped. */
  function EntityStep(mc: Option<Component>, pc: Option<Component>, deltaTime: real,
                      norm: (real, real) -> real): (r: (Option<Component>, Option<Component>))
    ensures (r.0.Some? <==> mc.Some?) && (r.1.Some? <==> pc.Some?)
  {
    if mc.Some? && mc.value.MovementComponent? && mc.value.movement.isMoving
       && pc.Some? && pc.value.PositionComponent? then
      var s := PositionStep(mc.value.movement, pc.value.position, deltaTime, norm);
      (Some(MovementComponent(s.0)), Some(PositionComponent(s.1)))
    else (mc, pc)
  }

  /** An entity that is not moving is left exactly as it was. */
  lemma StillEntitiesSkipped(mc: Option<Component>, pc: Option<Component>, deltaTime: real,
                             norm: (real, real) -> real)
    requires mc.None? || !mc.value.MovementComponent? || !mc.value.movement.isMoving || pc.None?
    ensures EntityStep(mc, pc, deltaTime, norm) == (mc, pc)
  {
  }

  /** What `getComponent` reads in a snapshot of the registry's storages. */
  ghost function Stored(storages: map<TypeId, Storage<Component>>, t: TypeId, e: EntityId): Option<Component>
  {
    if t !in storages then None else storages[t].GetComponent(e)
  }

  class MovementSystem {
    const world: World<Component>

    constructor (w: World<Component>)
      ensures world == w
    {
      world := w;
    }

    /** One pass over the movement components, in the storage's order;
        each entity reads and writes only its own two components. */
    method Update(deltaTime: real, norm: (real, real) -> real)
      modifies world.componentRegistry
      ensures forall e :: world.GetComponent(MOVEMENT, e) ==
                EntityStep(old(world.GetComponent(MOVEMENT, e)), old(world.GetComponent(POSITION, e)),
                           deltaTime, norm).0
      ensures forall e :: world.GetComponent(POSITION, e) ==
                EntityStep(old(world.GetComponent(MOVEMENT, e)), old(world.GetComponent(POSITION, e)),
                           deltaTime, norm).1
      ensures forall t, e :: t != MOVEMENT && t != POSITION ==> world.GetComponent(t, e) == old(world.GetComponent(t, e))
    {
      var movements := world.GetAllComponents(MOVEMENT);
      ghost var R0 := world.componentRegistry.storages;
      var todo := movements.Keys;
      while todo != {}
        invariant todo <= movements.Keys
        invariant forall e :: e in movements && e !in todo ==>
                    world.GetComponent(MOVEMENT, e) == EntityStep(Stored(R0, MOVEMENT, e), Stored(R0, POSITION, e), deltaTime, norm).0
                    && world.GetComponent(POSITION, e) == EntityStep(Stored(R0, MOVEMENT, e), Stored(R0, POSITION, e), deltaTime, norm).1
        invariant forall t, e :: (t != MOVEMENT && t != POSITION) || e !in movements || e in todo ==>
                    world.GetComponent(t, e) == Stored(R0, t, e)
        decreases |todo|
      {
        ghost var w := Pick(todo);
        var e :| e in todo;
        UpdateOne(e, deltaTime, norm);
        todo := todo - {e};
      }
    }

    /** The loop body for one entity. */
    method UpdateOne(e: EntityId, deltaTime: real, norm: (real, real) -> real)
      modifies world.componentRegistry
      ensures world.GetComponent(MOVEMENT, e) ==
                EntityStep(old(world.GetComponent(MOVEMENT, e)), old(world.GetComponent(POSITION, e)),
                           deltaTime, norm).0
      ensures world.GetComponent(POSITION, e) ==
                EntityStep(old(world.GetComponent(MOVEMENT, e)), old(world.GetComponent(POSITION, e)),
                           deltaTime, norm).1
      ensures forall t, u :: u != e ==> world.GetComponent(t, u) == old(world.GetComponent(t, u))
      ensures forall t :: t != MOVEMENT && t != POSITION ==> world.GetComponent(t, e) == old(world.GetComponent(t, e))
    {
      var mc := world.GetComponent(MOVEMENT, e);
      if mc.None? || !mc.value.MovementComponent? || !mc.value.movement.isMoving {
        return;
      }
      var pc := world.GetComponent(POSITION, e);
      if pc.None? || !pc.value.PositionComponent? {
        return;
      }
      var m := mc.value.movement;
      var p := pc.value.position;
      ghost var s := PositionStep(m, p, deltaTime, norm);
      var dx := m.targetX - p.x;
      var dy := m.targetY - p.y;
      var distance := Distance(m, p, norm);
      if distance < 1.0 {
        m := m.(isMoving := false, phase := Arriving, phaseTimer := 0.0);
        p := Position(m.targetX, m.targetY);
        assert s == (m, p);
      } else {
        var moveDistance := m.speed * deltaTime;
        if moveDistance > distance {
          moveDistance := distance;
        }
        assert s.1 == Position(p.x + (dx / distance) * moveDistance, p.y + (dy / distance) * moveDistance);
        p := Position(p.x + (dx / distance) * moveDistance, p.y + (dy / distance) * moveDistance);
      }
      var _ := world.componentRegistry.AddComponent(POSITION, e, PositionComponent(p));
      var _ := world.componentRegistry.AddComponent(MOVEMENT, e, MovementComponent(m));
    }
  }
}

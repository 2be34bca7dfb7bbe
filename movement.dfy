/** The movement record of an agent and the manager that advances it
    every frame: a phase IDLE / PLANNING / MOVING / ARRIVING with a phase
    timer, a target in pixels and a speed. Float values are reals; the
    Euclidean length sqrt(dx * dx + dy * dy) of the offset to the target is
    a parameter `norm`, about which nothing is assumed. */
module Movements {
  import opened Util

  datatype MovementPhase = Idle | Planning | Moving | Arriving

  /** A position record (`PositionComponent`), in pixels. */
  datatype Position = Position(x: real, y: real)

  datatype Movement = Movement(targetX: real, targetY: real, speed: real, isMoving: bool,
                               phase: MovementPhase, phaseTimer: real,
                               planningDuration: real, arrivingDuration: real)
  {
    /** Head for (x, y): unconditional, whatever the current phase. */
    function SetTarget(x: real, y: real): (r: Movement)
      ensures r.targetX == x && r.targetY == y && r.isMoving && r.phase == Moving && r.phaseTimer == 0.0
      ensures r.speed == speed && r.planningDuration == planningDuration
      ensures r.arrivingDuration == arrivingDuration
    {
      this.(targetX := x, targetY := y, isMoving := true, phase := Moving, phaseTimer := 0.0)
    }

    /** Enter the planning phase; the target is kept. */
    function StartPlanning(): (r: Movement)
      ensures r.phase == Planning && r.phaseTimer == 0.0 && !r.isMoving
      ensures r.targetX == targetX && r.targetY == targetY && r.speed == speed
      ensures r.planningDuration == planningDuration && r.arrivingDuration == arrivingDuration
    {
      this.(phase := Planning, phaseTimer := 0.0, isMoving := false)
    }

    predicate CanAcceptNewTarget()
    {
      phase == Idle || phase == Arriving
    }
  }

  /** `Movement(s)`: at rest at target (0, 0). */
  function NewMovement(s: real): (m: Movement)
    ensures m.phase == Idle && !m.isMoving && m.phaseTimer == 0.0 && m.speed == s
    ensures m.targetX == 0.0 && m.targetY == 0.0
    ensures m.planningDuration == 0.5 && m.arrivingDuration == 0.2
    ensures m.CanAcceptNewTarget()
  {
    Movement(0.0, 0.0, s, false, Idle, 0.0, 0.5, 0.2)
  }

  /** `canAcceptNewTarget` holds exactly in the two resting phases. */
  lemma CanAcceptExactly(m: Movement)
    ensures m.CanAcceptNewTarget() <==> m.phase != Planning && m.phase != Moving
  {
  }

  /** The distance to the target, as the frame computes it. */
  function Distance(m: Movement, p: Position, norm: (real, real) -> real): real
  {
    norm(m.targetX - p.x, m.targetY - p.y)
  }

  /** The snap-or-step of `updateMovement`: snap onto the target when it is
      within this frame's travel, otherwise travel that far toward it. The
      timer has already been advanced by the caller. */
  function MoveStep(m: Movement, p: Position, deltaTime: real, timeScale: real,
                    norm: (real, real) -> real): (r: (Movement, Position))
    requires m.speed * deltaTime * timeScale >= 0.0
  {
    var dx := m.targetX - p.x;
    var dy := m.targetY - p.y;
    var distance := Distance(m, p, norm);
    var moveDistance := m.speed * deltaTime * timeScale;
    if distance <= moveDistance then
      (m.(isMoving := false, phase := Arriving, phaseTimer := 0.0), Position(m.targetX, m.targetY))
    else
      (m, Position(p.x + (dx / distance) * moveDistance, p.y + (dy / distance) * moveDistance))
  }

  /** The fraction of the offset to the target left after a step. */
  function Remaining(m: Movement, p: Position, deltaTime: real, timeScale: real, norm: (real, real) -> real): real
  {
    var dx, dy := m.targetX - p.x, m.targetY - p.y;
    var distance := Distance(m, p, norm);
    if distance == 0.0 then 1.0 else 1.0 - (m.speed * deltaTime * timeScale) / distance
  }

  lemma RemainingValue(m: Movement, p: Position, deltaTime: real, timeScale: real, norm: (real, real) -> real)
    requires Distance(m, p, norm) != 0.0
    ensures Remaining(m, p, deltaTime, timeScale, norm) == 1.0 - (m.speed * deltaTime * timeScale) / Distance(m, p, norm)
  {
    var d := Distance(m, p, norm);
    var move := m.speed * deltaTime * timeScale;
    assert Remaining(m, p, deltaTime, timeScale, norm) == if d == 0.0 then 1.0 else 1.0 - move / d;
  }

  lemma StepScales(d: real, distance: real, move: real)
    requires distance > 0.0
    ensures d - (d / distance) * move == d * (1.0 - move / distance)
  {
    assert (d / distance) * move == d * (move / distance);
  }

  lemma FractionBelowOne(distance: real, move: real)
    requires distance > move >= 0.0
    ensures 0.0 < 1.0 - move / distance <= 1.0
  {
    var q := move / distance;
    assert q * distance == move;
    assert (1.0 - q) * distance == distance - move;
    PositiveFactor(1.0 - q, distance);
  }

  lemma PositiveFactor(a: real, b: real)
    requires b > 0.0 && a * b > 0.0
    ensures a > 0.0
  {
  }

  /** Within reach the agent lands exactly on the target and starts
      arriving; otherwise the record is unchanged and the new offset to
      the target is the old one scaled by a factor in (0, 1]: a step
      toward the target that never overshoots it. */
  lemma MoveStepMeaning(m: Movement, p: Position, deltaTime: real, timeScale: real,
                        norm: (real, real) -> real)
    requires m.speed * deltaTime * timeScale >= 0.0
    ensures var dx, dy := m.targetX - p.x, m.targetY - p.y;
            var distance := Distance(m, p, norm);
            var r := MoveStep(m, p, deltaTime, timeScale, norm);
            var f := Remaining(m, p, deltaTime, timeScale, norm);
            (distance <= m.speed * deltaTime * timeScale ==>
               r.1 == Position(m.targetX, m.targetY) && !r.0.isMoving && r.0.phase == Arriving
               && r.0.phaseTimer == 0.0)
            && (distance > m.speed * deltaTime * timeScale ==>
               r.0 == m && distance > 0.0 && 0.0 < f <= 1.0
               && m.targetX - r.1.x == f * dx && m.targetY - r.1.y == f * dy)
  {
    var dx, dy := m.targetX - p.x, m.targetY - p.y;
    var distance := Distance(m, p, norm);
    var move := m.speed * deltaTime * timeScale;
    if distance > move {
      var r := MoveStep(m, p, deltaTime, timeScale, norm);
      var f := Remaining(m, p, deltaTime, timeScale, norm);
      assert r.1 == Position(p.x + (dx / distance) * move, p.y + (dy / distance) * move);
      RemainingValue(m, p, deltaTime, timeScale, norm);
      assert m.targetX - r.1.x == dx - (dx / distance) * move;
      assert m.targetY - r.1.y == dy - (dy / distance) * move;
      StepScales(dx, distance, move);
      StepScales(dy, distance, move);
      FractionBelowOne(distance, move);
    }
  }

  /** One frame of `MovementManager::update` for one record: advance the
      timer by deltaTime * timeScale, then let the phase act. `pos` is the
      agent's position record, if it has one. */
  function PhaseStep(m: Movement, pos: Option<Position>, deltaTime: real, timeScale: real,
                     norm: (real, real) -> real): (r: (Movement, Option<Position>))
    requires m.speed * deltaTime * timeScale >= 0.0
    ensures r.1.Some? <==> pos.Some?
  {
    var t := m.(phaseTimer := m.phaseTimer + deltaTime * timeScale);
    match m.phase
    case Planning =>
      (if t.phaseTimer >= t.planningDuration then t.(phase := Idle, phaseTimer := 0.0) else t, pos)
    case Arriving =>
      (if t.phaseTimer >= t.arrivingDuration then t.(phase := Idle, phaseTimer := 0.0) else t, pos)
    case Moving =>
      if pos.None? then (t, pos)
      else
        var s := MoveStep(t, pos.value, deltaTime, timeScale, norm);
        (s.0, Some(s.1))
    case Idle => (t, pos)
  }

  /** What a frame does to each phase. */
  lemma PhaseStepMeaning(m: Movement, pos: Option<Position>, deltaTime: real, timeScale: real,
                         norm: (real, real) -> real)
    requires m.speed * deltaTime * timeScale >= 0.0
    ensures var r := PhaseStep(m, pos, deltaTime, timeScale, norm);
            var timer := m.phaseTimer + deltaTime * timeScale;
            (m.phase == Planning ==>
               if timer >= m.planningDuration then r.0 == m.(phase := Idle, phaseTimer := 0.0)
               else r.0 == m.(phaseTimer := timer))
            && (m.phase == Arriving ==>
               if timer >= m.arrivingDuration then r.0 == m.(phase := Idle, phaseTimer := 0.0)
               else r.0 == m.(phaseTimer := timer))
            && (m.phase == Idle ==> r.0 == m.(phaseTimer := timer) && r.1 == pos)
            && (m.phase == Moving && pos.None? ==> r.0 == m.(phaseTimer := timer) && r.1 == pos)
            && (m.phase != Moving ==> r.1 == pos)
  {
  }

  /** A frame never enters PLANNING or MOVING: it only leaves them. */
  lemma PhaseStepNeverStarts(m: Movement, pos: Option<Position>, deltaTime: real, timeScale: real,
                             norm: (real, real) -> real)
    requires m.speed * deltaTime * timeScale >= 0.0
    ensures var q := PhaseStep(m, pos, deltaTime, timeScale, norm).0.phase;
            (q == Planning || q == Moving) ==> m.phase == q
  {
  }

  /** The position store (`PositionManager`): uid -> position. */
  class PositionManager {
    var positions: map<nat, Position>

    constructor ()
      ensures positions == map[]
    {
      positions := map[];
    }

    method Create(uid: nat, x: real, y: real)
      modifies this
      ensures positions == old(positions)[uid := Position(x, y)]
    {
      positions := positions[uid := Position(x, y)];
    }

    function Get(uid: nat): (r: Option<Position>)
      reads this
      ensures r.None? <==> uid !in positions
      ensures r.Some? ==> r.value == positions[uid]
    {
      if uid in positions then Some(positions[uid]) else None
    }
  }

  function PositionOf(positions: map<nat, Position>, uid: nat): (r: Option<Position>)
    ensures r.Some? <==> uid in positions
  {
    if uid in positions then Some(positions[uid]) else None
  }

  /** No record moves backwards in time or at negative speed: the frame's
      travel is never negative. */
  ghost predicate ForwardFrame(movements: map<nat, Movement>, deltaTime: real, timeScale: real)
  {
    forall u :: u in movements ==> movements[u].speed * deltaTime * timeScale >= 0.0
  }

  /** The position store after a frame: each agent with a movement record
      takes the position its record's step gives it. */
  function PositionsAfter(movements: map<nat, Movement>, positions: map<nat, Position>,
                          deltaTime: real, timeScale: real, norm: (real, real) -> real): (r: map<nat, Position>)
    requires ForwardFrame(movements, deltaTime, timeScale)
    ensures r.Keys == positions.Keys
  {
    map u | u in positions ::
      if u in movements then PhaseStep(movements[u], Some(positions[u]), deltaTime, timeScale, norm).1.value
      else positions[u]
  }

  function MovementsAfter(movements: map<nat, Movement>, positions: map<nat, Position>,
                          deltaTime: real, timeScale: real, norm: (real, real) -> real): (r: map<nat, Movement>)
    requires ForwardFrame(movements, deltaTime, timeScale)
    ensures r.Keys == movements.Keys
  {
    map u | u in movements :: PhaseStep(movements[u], PositionOf(positions, u), deltaTime, timeScale, norm).0
  }

  /** A frame part-way: the records in `done` have had their step, and
      so have their positions. */
  function FramePartial(movements: map<nat, Movement>, positions: map<nat, Position>, deltaTime: real,
                        timeScale: real, norm: (real, real) -> real, done: set<nat>)
    : (map<nat, Movement>, map<nat, Position>)
    requires ForwardFrame(movements, deltaTime, timeScale)
  {
    (map u | u in movements ::
       if u in done then PhaseStep(movements[u], PositionOf(positions, u), deltaTime, timeScale, norm).0
       else movements[u],
     map u | u in positions ::
       if u in movements && u in done
       then PhaseStep(movements[u], Some(positions[u]), deltaTime, timeScale, norm).1.value
       else positions[u])
  }

  /** Before its step a record and its position are those the frame
      started with. */
  lemma FramePartialAt(movements: map<nat, Movement>, positions: map<nat, Position>, deltaTime: real,
                       timeScale: real, norm: (real, real) -> real, done: set<nat>, uid: nat)
    requires ForwardFrame(movements, deltaTime, timeScale) && uid in movements && uid !in done
    ensures var A := FramePartial(movements, positions, deltaTime, timeScale, norm, done);
            A.0.Keys == movements.Keys && A.1.Keys == positions.Keys && A.0[uid] == movements[uid]
            && PositionOf(A.1, uid) == PositionOf(positions, uid)
  {
  }

  /** One more record's step extends the partial frame by exactly that
      record and its position. */
  lemma FramePartialStep(movements: map<nat, Movement>, positions: map<nat, Position>, deltaTime: real,
                         timeScale: real, norm: (real, real) -> real, done: set<nat>, uid: nat)
    requires ForwardFrame(movements, deltaTime, timeScale) && uid in movements && uid !in done
    ensures var A := FramePartial(movements, positions, deltaTime, timeScale, norm, done);
            var B := FramePartial(movements, positions, deltaTime, timeScale, norm, done + {uid});
            var s := PhaseStep(movements[uid], PositionOf(positions, uid), deltaTime, timeScale, norm);
            B == (A.0[uid := s.0], if s.1.Some? then A.1[uid := s.1.value] else A.1)
  {
    var A := FramePartial(movements, positions, deltaTime, timeScale, norm, done);
    var B := FramePartial(movements, positions, deltaTime, timeScale, norm, done + {uid});
    var s := PhaseStep(movements[uid], PositionOf(positions, uid), deltaTime, timeScale, norm);
    assert B.0 == A.0[uid := s.0];
    assert B.1 == if s.1.Some? then A.1[uid := s.1.value] else A.1;
  }

  /** With nothing done the partial frame changes nothing; with every
      record done it is the frame. */
  lemma FramePartialEnds(movements: map<nat, Movement>, positions: map<nat, Position>, deltaTime: real,
                         timeScale: real, norm: (real, real) -> real)
    requires ForwardFrame(movements, deltaTime, timeScale)
    ensures FramePartial(movements, positions, deltaTime, timeScale, norm, {}) == (movements, positions)
    ensures FramePartial(movements, positions, deltaTime, timeScale, norm, movements.Keys)
            == (MovementsAfter(movements, positions, deltaTime, timeScale, norm),
                PositionsAfter(movements, positions, deltaTime, timeScale, norm))
  {
    var E := FramePartial(movements, positions, deltaTime, timeScale, norm, {});
    assert E.0 == movements;
    assert E.1 == positions;
    var A := FramePartial(movements, positions, deltaTime, timeScale, norm, movements.Keys);
    assert A.0 == MovementsAfter(movements, positions, deltaTime, timeScale, norm);
    assert A.1 == PositionsAfter(movements, positions, deltaTime, timeScale, norm);
  }

  class MovementManager {
    var movements: map<nat, Movement>

    constructor ()
      ensures movements == map[]
    {
      movements := map[];
    }

    /** A fresh record for the uid, replacing any earlier one. */
    method Create(uid: nat, speed: real)
      modifies this
      ensures movements == old(movements)[uid := NewMovement(speed)]
    {
      movements := movements[uid := NewMovement(speed)];
    }

    function Get(uid: nat): (r: Option<Movement>)
      reads this
      ensures r.None? <==> uid !in movements
      ensures r.Some? ==> r.value == movements[uid]
    {
      if uid in movements then Some(movements[uid]) else None
    }

    /** `updateMovement`: the MOVING step for one record whose timer has
        been advanced. Without a position record nothing happens. */
    method UpdateMovement(uid: nat, m: Movement, posManager: PositionManager, deltaTime: real,
                          timeScale: real, norm: (real, real) -> real) returns (r: Movement)
      requires m.speed * deltaTime * timeScale >= 0.0
      modifies posManager
      ensures uid !in old(posManager.positions) ==> r == m && posManager.positions == old(posManager.positions)
      ensures uid in old(posManager.positions) ==>
                var s := MoveStep(m, old(posManager.positions)[uid], deltaTime, timeScale, norm);
                r == s.0 && posManager.positions == old(posManager.positions)[uid := s.1]
    {
      var pos := posManager.Get(uid);
      if pos.None? {
        return m;
      }
      var p := pos.value;
      var dx := m.targetX - p.x;
      var dy := m.targetY - p.y;
      var distance := Distance(m, p, norm);
      var moveDistance := m.speed * deltaTime * timeScale;
      ghost var step := MoveStep(m, p, deltaTime, timeScale, norm);
      if distance <= moveDistance {
        assert step.1 == Position(m.targetX, m.targetY);
        posManager.positions := posManager.positions[uid := Position(m.targetX, m.targetY)];
        r := m.(isMoving := false, phase := Arriving, phaseTimer := 0.0);
      } else {
        posManager.positions := posManager.positions[uid := Position(p.x + (dx / distance) * moveDistance,
                                                                     p.y + (dy / distance) * moveDistance)];
        assert step.1 == Position(p.x + (dx / distance) * moveDistance, p.y + (dy / distance) * moveDistance);
        r := m;
      }
    }

    /** The body of the frame loop for one uid: advance its timer, let
        its phase act, store the record back. */
    method StepOne(uid: nat, posManager: PositionManager, deltaTime: real, timeScale: real,
                   norm: (real, real) -> real)
      requires uid in movements && movements[uid].speed * deltaTime * timeScale >= 0.0
      modifies this, posManager
      ensures var s := PhaseStep(old(movements)[uid], PositionOf(old(posManager.positions), uid),
                                 deltaTime, timeScale, norm);
              movements == old(movements)[uid := s.0]
              && posManager.positions == if s.1.Some? then old(posManager.positions)[uid := s.1.value]
                                         else old(posManager.positions)
    {
      var movement := movements[uid];
      movement := movement.(phaseTimer := movement.phaseTimer + deltaTime * timeScale);
      match movement.phase {
        case Planning =>
          if movement.phaseTimer >= movement.planningDuration {
            movement := movement.(phase := Idle, phaseTimer := 0.0);
          }
        case Arriving =>
          if movement.phaseTimer >= movement.arrivingDuration {
            movement := movement.(phase := Idle, phaseTimer := 0.0);
          }
        case Moving =>
          movement := UpdateMovement(uid, movement, posManager, deltaTime, timeScale, norm);
        case Idle =>
      }
      movements := movements[uid := movement];
    }

    /** One frame for every record, in the map's (unspecified) order. Each
        record reads and writes only its own position, so the order does
        not matter. */
    method Update(posManager: PositionManager, deltaTime: real, timeScale: real, norm: (real, real) -> real)
      requires ForwardFrame(movements, deltaTime, timeScale)
      modifies this, posManager
      ensures movements == MovementsAfter(old(movements), old(posManager.positions), deltaTime, timeScale, norm)
      ensures posManager.positions ==
                PositionsAfter(old(movements), old(posManager.positions), deltaTime, timeScale, norm)
    {
      ghost var m0 := movements;
      ghost var p0 := posManager.positions;
      var todo := movements.Keys;
      FramePartialEnds(m0, p0, deltaTime, timeScale, norm);
      assert m0.Keys - todo == {};
      while todo != {}
        invariant todo <= m0.Keys
        invariant (movements, posManager.positions)
                  == FramePartial(m0, p0, deltaTime, timeScale, norm, m0.Keys - todo)
        decreases |todo|
      {
        ghost var w := Pick(todo);
        var uid :| uid in todo;
        FrameNext(uid, posManager, deltaTime, timeScale, norm, m0, p0, todo);
        todo := todo - {uid};
      }
      assert m0.Keys - todo == m0.Keys;
    }

    /** One iteration of the frame loop: record `uid` takes its step and
        leaves `todo`. */
    method FrameNext(uid: nat, posManager: PositionManager, deltaTime: real, timeScale: real,
                     norm: (real, real) -> real, ghost m0: map<nat, Movement>, ghost p0: map<nat, Position>,
                     ghost todo: set<nat>)
      requires ForwardFrame(m0, deltaTime, timeScale) && todo <= m0.Keys && uid in todo
      requires (movements, posManager.positions) == FramePartial(m0, p0, deltaTime, timeScale, norm, m0.Keys - todo)
      modifies this, posManager
      ensures (movements, posManager.positions)
              == FramePartial(m0, p0, deltaTime, timeScale, norm, m0.Keys - (todo - {uid}))
    {
      ghost var done := m0.Keys - todo;
      FramePartialAt(m0, p0, deltaTime, timeScale, norm, done, uid);
      assert movements[uid] == m0[uid] && m0[uid].speed * deltaTime * timeScale >= 0.0;
      StepOne(uid, posManager, deltaTime, timeScale, norm);
      FramePartialStep(m0, p0, deltaTime, timeScale, norm, done, uid);
      assert m0.Keys - (todo - {uid}) == done + {uid};
    }

    /** The uids whose record is in phase `p`, each once. */
    method GetEntitiesInPhase(p: MovementPhase) returns (entities: seq<nat>)
      ensures forall u :: u in entities <==> u in movements && movements[u].phase == p
      ensures forall i, j :: 0 <= i < j < |entities| ==> entities[i] != entities[j]
    {
      entities := [];
      var todo := movements.Keys;
      while todo != {}
        invariant todo <= movements.Keys
        invariant forall u :: u in entities <==> u in movements && u !in todo && movements[u].phase == p
        invariant forall i, j :: 0 <= i < j < |entities| ==> entities[i] != entities[j]
        decreases |todo|
      {
        ghost var w := Pick(todo);
        var uid :| uid in todo;
        if movements[uid].phase == p {
          entities := entities + [uid];
        }
        todo := todo - {uid};
      }
    }

    /** True for an agent without a record; otherwise whether its record
        can take a new target. */
    function CanEntityMove(uid: nat): (r: bool)
      reads this
      ensures r <==> uid !in movements || movements[uid].phase == Idle || movements[uid].phase == Arriving
    {
      match Get(uid)
      case Some(m) => m.CanAcceptNewTarget()
      case None => true
    }
  }
}

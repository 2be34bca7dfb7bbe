/** The behaviour scheduler's decisions for one agent, as values: the
    intent record (Idle / MovingToZone / PerformingActivity), the zone
    helpers, and what each pass of the scheduler does to an agent's
    intent and movement records. The random numbers the source draws
    with `rand()` are parameters (`roll`). */
module Behaviour {
  import opened Util
  import opened TimeOfDay
  import opened Grid
  import opened Paths
  import opened Movements
  import opened Controllers
  import opened Pathfinder

  datatype AIStateName = AIIdle | MovingToZone | PerformingActivity

  datatype AIState = AIState(currentState: AIStateName, targetZone: string, intendedActivity: string,
                             timeInCurrentState: real, activityTimer: real)

  /** A default-constructed intent record. */
  function NewAIState(): (s: AIState)
    ensures s.currentState == AIIdle && s.targetZone == "" && s.intendedActivity == ""
    ensures s.timeInCurrentState == 0.0 && s.activityTimer == 0.0
  {
    AIState(AIIdle, "", "", 0.0, 0.0)
  }

  /** What a pass reads besides the agent's own records: the clock's hour
      and stored period, the zone table and the cell size. */
  datatype Context = Context(hour: int, period: DayPeriod, zones: ZoneList, cellSize: int)

  // ---------------------------------------------------------------
  // Zone helpers

  predicate ZoneNamed(zones: ZoneList, n: string)
  {
    exists i :: 0 <= i < |zones| && zones[i].0 == n
  }

  predicate NonHomeName(n: string)
  {
    !Contains(n, "Home")
  }

  /** A zone good for leisure: a cafe, forest, water or stadium that is
      not a home. */
  predicate LeisureName(n: string)
  {
    (Contains(n, "Cafe") || Contains(n, "Forest") || Contains(n, "Water") || Contains(n, "Stadium"))
    && !Contains(n, "Home")
  }

  lemma ZoneNamedSnoc(zones: ZoneList, n: string)
    requires |zones| > 0
    ensures ZoneNamed(zones, n) <==> ZoneNamed(zones[..|zones| - 1], n) || zones[|zones| - 1].0 == n
  {
    var init := zones[..|zones| - 1];
    if ZoneNamed(zones, n) && zones[|zones| - 1].0 != n {
      var i :| 0 <= i < |zones| && zones[i].0 == n;
      assert init[i].0 == n;
    }
    if ZoneNamed(init, n) {
      var i :| 0 <= i < |init| && init[i].0 == n;
      assert zones[i].0 == n;
    }
  }

  /** The names of the non-home zones, in table order. */
  function NonHomeNames(zones: ZoneList): (r: seq<string>)
    ensures forall n :: n in r <==> ZoneNamed(zones, n) && NonHomeName(n)
    decreases |zones|
  {
    if |zones| == 0 then []
    else
      var n := zones[|zones| - 1].0;
      var init := NonHomeNames(zones[..|zones| - 1]);
      ZoneNamedSnoc(zones, n);
      assert forall k :: ZoneNamed(zones, k) <==> ZoneNamed(zones[..|zones| - 1], k) || n == k by {
        forall k ensures ZoneNamed(zones, k) <==> ZoneNamed(zones[..|zones| - 1], k) || n == k {
          ZoneNamedSnoc(zones, k);
        }
      }
      if NonHomeName(n) then init + [n] else init
  }

  /** The names of the leisure zones, in table order. */
  function LeisureNames(zones: ZoneList): (r: seq<string>)
    ensures forall n :: n in r <==> ZoneNamed(zones, n) && LeisureName(n)
    decreases |zones|
  {
    if |zones| == 0 then []
    else
      var n := zones[|zones| - 1].0;
      var init := LeisureNames(zones[..|zones| - 1]);
      assert forall k :: ZoneNamed(zones, k) <==> ZoneNamed(zones[..|zones| - 1], k) || n == k by {
        forall k ensures ZoneNamed(zones, k) <==> ZoneNamed(zones[..|zones| - 1], k) || n == k {
          ZoneNamedSnoc(zones, k);
        }
      }
      if LeisureName(n) then init + [n] else init
  }

  /** `names[rand() % names.size()]`, or "" when there is nothing to pick. */
  function PickName(names: seq<string>, roll: nat): (r: string)
    ensures names == [] ==> r == ""
    ensures names != [] ==> r in names
  {
    if names == [] then "" else names[roll % |names|]
  }

  /** `getRandomLeisureZone`. */
  function LeisureZone(zones: ZoneList, roll: nat): string
  {
    if LeisureNames(zones) != [] then PickName(LeisureNames(zones), roll)
    else PickName(NonHomeNames(zones), roll)
  }

  /** A leisure zone when there is one, else a non-home zone when there is
      one, else "". A home is never chosen. */
  lemma LeisureZoneMeaning(zones: ZoneList, roll: nat)
    ensures var r := LeisureZone(zones, roll);
            (LeisureNames(zones) != [] ==> ZoneNamed(zones, r) && LeisureName(r))
            && (LeisureNames(zones) == [] && NonHomeNames(zones) != [] ==> ZoneNamed(zones, r) && NonHomeName(r))
            && (LeisureNames(zones) == [] && NonHomeNames(zones) == [] ==> r == "")
            && (r != "" ==> NonHomeName(r))
  {
  }

  /** The position of the first zone whose name contains "Home", or -1. */
  function FirstHomeIndex(zones: ZoneList): (k: int)
    ensures -1 <= k < |zones|
    ensures k == -1 <==> forall i :: 0 <= i < |zones| ==> !Contains(zones[i].0, "Home")
    ensures k >= 0 ==> Contains(zones[k].0, "Home") && forall i :: 0 <= i < k ==> !Contains(zones[i].0, "Home")
    decreases |zones|
  {
    if |zones| == 0 then -1
    else if Contains(zones[0].0, "Home") then 0
    else
      var k := FirstHomeIndex(zones[1..]);
      if k == -1 then -1 else k + 1
  }

  /** `getHomeZone`: the registry's home, else the first zone named like a
      home, else the first zone, else "". */
  function HomeZoneFor(registered: string, zones: ZoneList): string
  {
    if registered != "" then registered
    else if FirstHomeIndex(zones) >= 0 then zones[FirstHomeIndex(zones)].0
    else if |zones| > 0 then zones[0].0
    else ""
  }

  /** The fallbacks of `getHomeZone`, in order: the registry's home, the
      earliest zone named like a home, the first zone, "". */
  lemma HomeZoneMeaning(registered: string, zones: ZoneList)
    ensures var r := HomeZoneFor(registered, zones);
            (registered != "" ==> r == registered)
            && (registered == "" && FirstHomeIndex(zones) >= 0 ==>
                  ZoneNamed(zones, r) && Contains(r, "Home")
                  && forall i :: 0 <= i < FirstHomeIndex(zones) ==> zones[i].0 != r)
            && (registered == "" && FirstHomeIndex(zones) == -1 ==> r == (if |zones| > 0 then zones[0].0 else ""))
  {
    var r := HomeZoneFor(registered, zones);
    var k := FirstHomeIndex(zones);
    if registered == "" && k >= 0 {
      assert zones[k].0 == r;
      assert forall i :: 0 <= i < k ==> !Contains(zones[i].0, "Home");
    }
  }

  /** `shouldReplanActivity`: the agent's target no longer suits the hour. */
  predicate ShouldReplan(hour: int, targetZone: string)
  {
    (IsSleepTime(hour) && !Contains(targetZone, "Home"))
    || (IsWorkHours(hour) && targetZone != "Work")
    || (IsMealTime(hour) && targetZone != "Cafe")
  }

  /** At noon (work and meal time at once) every target asks for a replan,
      "Work" included; at 17:00 a "Work" target does not. */
  lemma ReplanAtNoonAndFive(targetZone: string)
    ensures ShouldReplan(12, targetZone)
    ensures !ShouldReplan(17, "Work")
  {
    assert "Work"[0] != "Cafe"[0];
    assert "Work" != "Home" by {
      assert "Work"[0] != "Home"[0];
    }
    NotContainsSameLength("Work", "Home");
  }

  /** 300 + rand() % 600 seconds of activity. */
  function ActivityDuration(roll: nat): (d: real)
    ensures 300.0 <= d <= 899.0
  {
    300.0 + (roll % 600) as real
  }

  // ---------------------------------------------------------------
  // Decisions

  /** The activity label and target zone `planNextAction` picks, in
      priority order sleep, work, meal, evening, otherwise. */
  function ChooseTarget(ctx: Context, home: string, roll: nat): (r: (string, string))
  {
    if IsSleepTime(ctx.hour) then ("Sleeping", HomeZoneFor(home, ctx.zones))
    else if IsWorkHours(ctx.hour) then ("Working", "Work")
    else if IsMealTime(ctx.hour) then ("Eating", "Cafe")
    else if ctx.period == Evening then ("Relaxing", LeisureZone(ctx.zones, roll))
    else (SuggestedActivityFor(ctx.period, ctx.hour), PickName(NonHomeNames(ctx.zones), roll))
  }

  /** At noon the target is "Work"; with the stored period in step with
      the hour, the evening branch is taken only at 17:00, since 18:00 and
      19:00 are meal times. */
  lemma ChooseTargetPriority(ctx: Context, home: string, roll: nat)
    ensures ctx.hour == 12 ==> ChooseTarget(ctx, home, roll) == ("Working", "Work")
    ensures ctx.period == CalculatePeriod(ctx.hour) ==>
              (ChooseTarget(ctx, home, roll).0 == "Relaxing" <==> ctx.hour == 17)
    ensures IsSleepTime(ctx.hour) ==> ChooseTarget(ctx, home, roll).1 == HomeZoneFor(home, ctx.zones)
    ensures !IsSleepTime(ctx.hour) && ChooseTarget(ctx, home, roll).1 != "Work"
            && ChooseTarget(ctx, home, roll).1 != "Cafe" ==>
              ChooseTarget(ctx, home, roll).1 == "" || NonHomeName(ChooseTarget(ctx, home, roll).1)
  {
    LeisureZoneMeaning(ctx.zones, roll);
  }

  /** `planNextAction` on the agent's records. */
  function PlanNext(s: AIState, m: Movement, ctx: Context, home: string, roll: nat): (AIState, Movement)
  {
    var (activity, target) := ChooseTarget(ctx, home, roll);
    if target != "" && HasZone(ctx.zones, target) then
      (s.(intendedActivity := activity, targetZone := target, currentState := MovingToZone), m.StartPlanning())
    else
      (s.(intendedActivity := activity), m)
  }

  /** A resolvable target starts planning toward it; otherwise only the
      intended activity changes. */
  lemma PlanNextMeaning(s: AIState, m: Movement, ctx: Context, home: string, roll: nat)
    ensures var c := ChooseTarget(ctx, home, roll);
            var r := PlanNext(s, m, ctx, home, roll);
            r.0.intendedActivity == c.0
            && r.0.timeInCurrentState == s.timeInCurrentState && r.0.activityTimer == s.activityTimer
            && (c.1 != "" && HasZone(ctx.zones, c.1) ==>
                  r.0.targetZone == c.1 && r.0.currentState == MovingToZone
                  && r.1.phase == Planning && r.1.phaseTimer == 0.0 && !r.1.isMoving
                  && r.1.targetX == m.targetX && r.1.targetY == m.targetY)
            && (c.1 == "" || !HasZone(ctx.zones, c.1) ==>
                  r.0.targetZone == s.targetZone && r.0.currentState == s.currentState && r.1 == m)
  {
  }

  /** The agent's cell: its pixel position over the cell size, truncated. */
  function CellOfPosition(p: Position, cellSize: int): Point
    requires cellSize > 0
  {
    Point(CellOf(p.x, cellSize), CellOf(p.y, cellSize))
  }

  /** `executeMovementPlan` on the agent's records; `path` is what
      `findPathToZone` returned for the agent's cell and target. */
  function ExecutePlan(s: AIState, m: Movement, cell: Point, ctx: Context, path: seq<Point>, roll: nat)
    : (AIState, Movement)
  {
    if s.currentState != MovingToZone then (s, m)
    else
      match FindZone(ctx.zones, s.targetZone)
      case None => (s.(currentState := AIIdle), m.(phase := Idle))
      case Some(z) =>
        if InZone(z, cell) then
          (s.(currentState := PerformingActivity, activityTimer := ActivityDuration(roll)), m.(phase := Idle))
        else if |path| > 1 then
          (s, m.SetTarget(CellCentre(path[1].x, ctx.cellSize), CellCentre(path[1].y, ctx.cellSize))
                .(phase := Moving, phaseTimer := 0.0, isMoving := true))
        else
          (s.(currentState := AIIdle), m.(phase := Idle))
  }

  /** The outcomes of `executeMovementPlan`. */
  lemma ExecutePlanMeaning(s: AIState, m: Movement, cell: Point, ctx: Context, path: seq<Point>, roll: nat)
    ensures var r := ExecutePlan(s, m, cell, ctx, path, roll);
            var z := FindZone(ctx.zones, s.targetZone);
            (s.currentState != MovingToZone ==> r == (s, m))
            && (s.currentState == MovingToZone && z.None? ==>
                  r.0.currentState == AIIdle && r.1.phase == Idle)
            && (s.currentState == MovingToZone && z.Some? && InZone(z.value, cell) ==>
                  r.0.currentState == PerformingActivity && r.1.phase == Idle
                  && 300.0 <= r.0.activityTimer <= 899.0)
            && (s.currentState == MovingToZone && z.Some? && !InZone(z.value, cell) && |path| > 1 ==>
                  r.0 == s && r.1.phase == Moving && r.1.isMoving && r.1.phaseTimer == 0.0
                  && r.1.targetX == CellCentre(path[1].x, ctx.cellSize)
                  && r.1.targetY == CellCentre(path[1].y, ctx.cellSize))
            && (s.currentState == MovingToZone && z.Some? && !InZone(z.value, cell) && |path| <= 1 ==>
                  r.0.currentState == AIIdle && r.1.phase == Idle)
            && r.0.targetZone == s.targetZone && r.0.intendedActivity == s.intendedActivity
  {
  }

  /** `updateAI`'s decision for one agent on a due tick: plan when the
      movement record is IDLE, whatever the intent. */
  function AITick(s: AIState, m: Movement, ctx: Context, home: string, roll: nat): (AIState, Movement)
  {
    if m.phase == Idle then PlanNext(s, m, ctx, home, roll) else (s, m)
  }

  /** An agent that has finished a step toward its zone. */
  predicate Arrived(s: AIState, m: Movement)
  {
    s.currentState == MovingToZone && m.phase == Idle && !m.isMoving
  }

  /** `processArrivingEntities` for one agent. */
  function ArriveStep(s: AIState, m: Movement, cell: Point, ctx: Context, path: seq<Point>, roll: nat)
    : (AIState, Movement)
  {
    if !Arrived(s, m) then (s, m)
    else
      match FindZone(ctx.zones, s.targetZone)
      case None => (s, m)
      case Some(z) =>
        if InZone(z, cell) then
          (s.(currentState := PerformingActivity, activityTimer := ActivityDuration(roll)), m)
        else ExecutePlan(s, m, cell, ctx, path, roll)
  }

  /** Only arrived agents are touched; inside the zone the activity
      starts, outside it the next step is planned, and a missing zone
      changes nothing. */
  lemma ArriveStepMeaning(s: AIState, m: Movement, cell: Point, ctx: Context, path: seq<Point>, roll: nat)
    ensures var r := ArriveStep(s, m, cell, ctx, path, roll);
            var z := FindZone(ctx.zones, s.targetZone);
            (!Arrived(s, m) ==> r == (s, m))
            && (Arrived(s, m) && z.None? ==> r == (s, m))
            && (Arrived(s, m) && z.Some? && InZone(z.value, cell) ==>
                  r.0.currentState == PerformingActivity && r.1 == m
                  && 300.0 <= r.0.activityTimer <= 899.0)
            && (Arrived(s, m) && z.Some? && !InZone(z.value, cell) ==> r == ExecutePlan(s, m, cell, ctx, path, roll))
  {
  }

  /** The label an arrival reports: "Sleeping" for a home at sleep time,
      else the intended activity, or "Idle" when there is none. */
  function ArrivalActivity(s: AIState, hour: int): string
  {
    if IsSleepTime(hour) && Contains(s.targetZone, "Home") then "Sleeping"
    else if s.intendedActivity == "" then "Idle"
    else s.intendedActivity
  }

  lemma ArrivalActivityMeaning(s: AIState, hour: int)
    ensures IsSleepTime(hour) && Contains(s.targetZone, "Home") ==> ArrivalActivity(s, hour) == "Sleeping"
    ensures ArrivalActivity(s, hour) == "Sleeping" ==>
              (IsSleepTime(hour) && Contains(s.targetZone, "Home")) || s.intendedActivity == "Sleeping"
    ensures s.intendedActivity != "Sleeping" ==>
              (ArrivalActivity(s, hour) == "Sleeping" <==> IsSleepTime(hour) && Contains(s.targetZone, "Home"))
  {
  }

  /** The amount `processPlanningEntities` takes off the activity timer
      each call (one 60 Hz frame, in milliseconds). */
  const FRAME_DECREMENT: real := 16.67

  /** The activity part of `processPlanningEntities` for one agent: run
      down the activity timer; keep sleeping at home; otherwise replan
      once the timer is out or the target no longer suits the hour. */
  function ActivityStep(s: AIState, m: Movement, ctx: Context, home: string, roll: nat): (AIState, Movement)
  {
    if s.currentState != PerformingActivity then (s, m)
    else
      var s1 := s.(activityTimer := s.activityTimer - FRAME_DECREMENT);
      if IsSleepTime(ctx.hour) && Contains(s1.targetZone, "Home") then (s1, m)
      else if s1.activityTimer <= 0.0 || ShouldReplan(ctx.hour, s1.targetZone) then PlanNext(s1, m, ctx, home, roll)
      else (s1, m)
  }

  /** The handoff part: a MovingToZone agent whose planning phase has run
      its time executes its plan. */
  predicate HandoffDue(s: AIState, m: Movement)
  {
    s.currentState == MovingToZone && m.phase == Planning && m.phaseTimer >= m.planningDuration
  }

  /** `processPlanningEntities` for one agent. The sleeping-at-home case
      skips the handoff check, as the source's `continue` does. */
  function PlanningStep(s: AIState, m: Movement, cell: Point, ctx: Context, home: string, zoneRoll: nat,
                        path: seq<Point>, timerRoll: nat): (AIState, Movement)
  {
    var a := ActivityStep(s, m, ctx, home, zoneRoll);
    if s.currentState == PerformingActivity && IsSleepTime(ctx.hour) && Contains(s.targetZone, "Home") then a
    else if HandoffDue(a.0, a.1) then ExecutePlan(a.0, a.1, cell, ctx, path, timerRoll)
    else a
  }

  /** The activity part of the planning pass: the timer runs down by one
      frame; at sleep time at home nothing is replanned; otherwise a
      replan happens exactly when the timer is out or the target no longer
      suits the hour. */
  lemma ActivityStepMeaning(s: AIState, m: Movement, ctx: Context, home: string, roll: nat)
    requires s.currentState == PerformingActivity
    ensures var r := ActivityStep(s, m, ctx, home, roll);
            var s1 := s.(activityTimer := s.activityTimer - FRAME_DECREMENT);
            (IsSleepTime(ctx.hour) && Contains(s.targetZone, "Home") ==> r == (s1, m))
            && (!(IsSleepTime(ctx.hour) && Contains(s.targetZone, "Home")) ==>
                  r == if s1.activityTimer <= 0.0 || ShouldReplan(ctx.hour, s.targetZone)
                       then PlanNext(s1, m, ctx, home, roll) else (s1, m))
  {
  }

  // ---------------------------------------------------------------
  // How the passes interact

  /** The coupling of the two state machines that every pass keeps: an
      agent performing an activity stands still in phase IDLE, and the
      planning duration stays positive. */
  predicate Coherent(s: AIState, m: Movement)
  {
    (s.currentState == PerformingActivity ==> m.phase == Idle) && m.planningDuration > 0.0
  }

  lemma NewAgentCoherent(speed: real)
    ensures Coherent(NewAIState(), NewMovement(speed))
  {
  }

  lemma PlanNextCoherent(s: AIState, m: Movement, ctx: Context, home: string, roll: nat)
    requires Coherent(s, m)
    ensures Coherent(PlanNext(s, m, ctx, home, roll).0, PlanNext(s, m, ctx, home, roll).1)
  {
  }

  lemma ExecutePlanCoherent(s: AIState, m: Movement, cell: Point, ctx: Context, path: seq<Point>, roll: nat)
    requires Coherent(s, m)
    ensures Coherent(ExecutePlan(s, m, cell, ctx, path, roll).0, ExecutePlan(s, m, cell, ctx, path, roll).1)
  {
  }

  lemma AITickCoherent(s: AIState, m: Movement, ctx: Context, home: string, roll: nat)
    requires Coherent(s, m)
    ensures Coherent(AITick(s, m, ctx, home, roll).0, AITick(s, m, ctx, home, roll).1)
  {
    PlanNextCoherent(s, m, ctx, home, roll);
  }

  lemma ArriveStepCoherent(s: AIState, m: Movement, cell: Point, ctx: Context, path: seq<Point>, roll: nat)
    requires Coherent(s, m)
    ensures Coherent(ArriveStep(s, m, cell, ctx, path, roll).0, ArriveStep(s, m, cell, ctx, path, roll).1)
  {
    ExecutePlanCoherent(s, m, cell, ctx, path, roll);
  }

  lemma PlanningStepCoherent(s: AIState, m: Movement, cell: Point, ctx: Context, home: string, zoneRoll: nat,
                             path: seq<Point>, timerRoll: nat)
    requires Coherent(s, m)
    ensures var r := PlanningStep(s, m, cell, ctx, home, zoneRoll, path, timerRoll);
            Coherent(r.0, r.1)
  {
    var a := ActivityStep(s, m, ctx, home, zoneRoll);
    if s.currentState == PerformingActivity {
      var s1 := s.(activityTimer := s.activityTimer - FRAME_DECREMENT);
      PlanNextCoherent(s1, m, ctx, home, zoneRoll);
    }
    assert Coherent(a.0, a.1);
    ExecutePlanCoherent(a.0, a.1, cell, ctx, path, timerRoll);
  }

  /** The movement pass of a frame keeps the coupling. */
  lemma PhaseStepCoherent(s: AIState, m: Movement, pos: Option<Position>, deltaTime: real, timeScale: real,
                          norm: (real, real) -> real)
    requires Coherent(s, m) && m.speed * deltaTime * timeScale >= 0.0
    ensures Coherent(s, PhaseStep(m, pos, deltaTime, timeScale, norm).0)
  {
  }

  /** An agent performing an activity is, by the coupling, in phase IDLE,
      so every due AI tick re-plans it. */
  lemma PerformingReplansOnTick(s: AIState, m: Movement, ctx: Context, home: string, roll: nat)
    requires Coherent(s, m) && s.currentState == PerformingActivity
    ensures AITick(s, m, ctx, home, roll) == PlanNext(s, m, ctx, home, roll)
  {
  }

  /** After the movement pass no record is PLANNING with its time run
      out: such a record has been turned IDLE. */
  lemma PhaseStepLeavesNoDuePlanning(m: Movement, pos: Option<Position>, deltaTime: real, timeScale: real,
                                     norm: (real, real) -> real)
    requires m.speed * deltaTime * timeScale >= 0.0
    ensures var r := PhaseStep(m, pos, deltaTime, timeScale, norm).0;
            r.phase == Planning ==> r.phaseTimer < r.planningDuration
  {
  }

  /** In the frame order (movement pass, then arrivals, then planning) the
      planning handoff never fires: a PLANNING record left by the movement
      pass has time to run, arrivals never produce PLANNING, and a record
      the activity part starts planning has a zero timer against a
      positive duration. So the outcome does not depend on the path or on
      the timer roll handed to `executeMovementPlan`. */
  lemma PlanningHandoffNeverFires(s: AIState, m: Movement, cell: Point, ctx: Context, home: string,
                                  zoneRoll: nat, path1: seq<Point>, path2: seq<Point>,
                                  timerRoll1: nat, timerRoll2: nat)
    requires Coherent(s, m)
    requires m.phase == Planning ==> m.phaseTimer < m.planningDuration
    ensures PlanningStep(s, m, cell, ctx, home, zoneRoll, path1, timerRoll1)
            == PlanningStep(s, m, cell, ctx, home, zoneRoll, path2, timerRoll2)
    ensures !HandoffDue(ActivityStep(s, m, ctx, home, zoneRoll).0, ActivityStep(s, m, ctx, home, zoneRoll).1)
  {
  }

  /** Where the move really starts: a MovingToZone agent whose planning
      time runs out in the movement pass is turned IDLE there and counts
      as arrived, so the arrivals pass plans its next step. */
  lemma MoveStartsOnArrival(s: AIState, m: Movement, pos: Option<Position>, deltaTime: real, timeScale: real,
                            norm: (real, real) -> real)
    requires m.speed * deltaTime * timeScale >= 0.0
    requires s.currentState == MovingToZone && m.phase == Planning && !m.isMoving
    requires m.phaseTimer + deltaTime * timeScale >= m.planningDuration
    ensures Arrived(s, PhaseStep(m, pos, deltaTime, timeScale, norm).0)
  {
  }

  /** Arrivals never leave an agent PLANNING. */
  lemma ArriveStepNeverPlans(s: AIState, m: Movement, cell: Point, ctx: Context, path: seq<Point>, roll: nat)
    requires m.phase != Planning
    ensures ArriveStep(s, m, cell, ctx, path, roll).1.phase != Planning
  {
  }
}

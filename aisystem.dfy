/** The behaviour scheduler over all agents: the intent store, the three
    passes a frame runs (the half-second AI tick, arrivals, planning) on
    every agent that has intent, movement and position records, and what
    the passes keep between them. Each pass touches each agent on its own,
    so a pass is described by whole-map functions built from the
    per-agent steps of `Behaviour`. */
module AiSystems {
  import opened Util
  import opened TimeOfDay
  import opened Grid
  import opened Paths
  import PF = Pathfinder
  import opened Homes
  import opened Movements
  import opened Controllers
  import opened Behaviour
  import C = Clock

  /** `AIManager`: one intent record per agent. */
  class AIManager {
    var states: map<nat, AIState>

    constructor ()
      ensures states == map[]
    {
      states := map[];
    }

    /** A fresh default record, replacing any earlier one. */
    method Create(uid: nat)
      modifies this
      ensures states == old(states)[uid := NewAIState()]
    {
      states := states[uid := NewAIState()];
    }

    function Get(uid: nat): (r: Option<AIState>)
      reads this
      ensures r.None? <==> uid !in states
      ensures r.Some? ==> r.value == states[uid]
    {
      if uid in states then Some(states[uid]) else None
    }
  }

  // ---------------------------------------------------------------
  // The passes on whole maps

  /** The registry's home for an agent, "" when it has none. */
  function HomeOf(npcToHome: map<int, string>, u: nat): string
  {
    if u in npcToHome then npcToHome[u] else ""
  }

  /** The path a pass found for an agent, [] when it found none. */
  function PathOf(paths: map<nat, seq<Point>>, u: nat): seq<Point>
  {
    if u in paths then paths[u] else []
  }

  /** An agent a pass looks at: it has all three records. */
  predicate Active(S: map<nat, AIState>, M: map<nat, Movement>, P: map<nat, Position>, u: nat)
  {
    u in S && u in M && u in P
  }

  /** What a pass does to one agent, from its id and its three records. */
  type AgentStep = (nat, AIState, Movement, Position) -> (AIState, Movement)

  /** A pass part-way: the active agents in `done` have had their step,
      every other record is as it was. A loop over the agents keeps its
      maps equal to the partial pass of the agents it has visited. */
  function PartialPass(S: map<nat, AIState>, M: map<nat, Movement>, P: map<nat, Position>, step: AgentStep,
                       done: set<nat>): (map<nat, AIState>, map<nat, Movement>)
  {
    (map u | u in S :: if u in done && Active(S, M, P, u) then step(u, S[u], M[u], P[u]).0 else S[u],
     map u | u in M :: if u in done && Active(S, M, P, u) then step(u, S[u], M[u], P[u]).1 else M[u])
  }

  /** `updateAI`'s per-agent turn. */
  function TickStepOf(ctx: Context, npcToHome: map<int, string>, roll: nat -> nat): AgentStep
  {
    (u: nat, s: AIState, m: Movement, p: Position) => AITick(s, m, ctx, HomeOf(npcToHome, u), roll(u))
  }

  /** `processArrivingEntities`' per-agent turn, with the paths the
      searches found. */
  function ArriveStepOf(ctx: Context, paths: map<nat, seq<Point>>, roll: nat -> nat): AgentStep
    requires ctx.cellSize > 0
  {
    (u: nat, s: AIState, m: Movement, p: Position) =>
      ArriveStep(s, m, CellOfPosition(p, ctx.cellSize), ctx, PathOf(paths, u), roll(u))
  }

  /** `processPlanningEntities`' per-agent turn, with the paths the
      searches found. */
  function PlanningStepOf(ctx: Context, npcToHome: map<int, string>, zoneRoll: nat -> nat,
                          paths: map<nat, seq<Point>>, timerRoll: nat -> nat): AgentStep
    requires ctx.cellSize > 0
  {
    (u: nat, s: AIState, m: Movement, p: Position) =>
      PlanningStep(s, m, CellOfPosition(p, ctx.cellSize), ctx, HomeOf(npcToHome, u), zoneRoll(u),
                   PathOf(paths, u), timerRoll(u))
  }

  /** A due AI tick: `AITick` on every active agent. */
  function TickPass(S: map<nat, AIState>, M: map<nat, Movement>, P: map<nat, Position>, ctx: Context,
                    npcToHome: map<int, string>, roll: nat -> nat): (map<nat, AIState>, map<nat, Movement>)
  {
    PartialPass(S, M, P, TickStepOf(ctx, npcToHome, roll), S.Keys)
  }

  /** The arrivals pass: `ArriveStep` on every active agent. */
  function ArrivePass(S: map<nat, AIState>, M: map<nat, Movement>, P: map<nat, Position>, ctx: Context,
                      paths: map<nat, seq<Point>>, roll: nat -> nat): (map<nat, AIState>, map<nat, Movement>)
    requires ctx.cellSize > 0
  {
    PartialPass(S, M, P, ArriveStepOf(ctx, paths, roll), S.Keys)
  }

  /** The planning pass: `PlanningStep` on every active agent. */
  function PlanningPass(S: map<nat, AIState>, M: map<nat, Movement>, P: map<nat, Position>, ctx: Context,
                        npcToHome: map<int, string>, zoneRoll: nat -> nat, paths: map<nat, seq<Point>>,
                        timerRoll: nat -> nat): (map<nat, AIState>, map<nat, Movement>)
    requires ctx.cellSize > 0
  {
    PartialPass(S, M, P, PlanningStepOf(ctx, npcToHome, zoneRoll, paths, timerRoll), S.Keys)
  }

  /** Every agent with both records keeps `Coherent`. */
  predicate AllCoherent(S: map<nat, AIState>, M: map<nat, Movement>)
  {
    forall u :: u in S && u in M ==> Coherent(S[u], M[u])
  }

  /** No movement record is PLANNING with its planning time used up. */
  predicate NoDuePlanning(M: map<nat, Movement>)
  {
    forall u :: u in M && M[u].phase == Planning ==> M[u].phaseTimer < M[u].planningDuration
  }

  lemma TickPassCoherent(S: map<nat, AIState>, M: map<nat, Movement>, P: map<nat, Position>, ctx: Context,
                         npcToHome: map<int, string>, roll: nat -> nat)
    requires AllCoherent(S, M)
    ensures var r := TickPass(S, M, P, ctx, npcToHome, roll); AllCoherent(r.0, r.1)
  {
    var r := TickPass(S, M, P, ctx, npcToHome, roll);
    forall u | u in r.0 && u in r.1 ensures Coherent(r.0[u], r.1[u]) {
      if Active(S, M, P, u) {
        AITickCoherent(S[u], M[u], ctx, HomeOf(npcToHome, u), roll(u));
      }
    }
  }

  lemma ArrivePassCoherent(S: map<nat, AIState>, M: map<nat, Movement>, P: map<nat, Position>, ctx: Context,
                           paths: map<nat, seq<Point>>, roll: nat -> nat)
    requires ctx.cellSize > 0 && AllCoherent(S, M)
    ensures var r := ArrivePass(S, M, P, ctx, paths, roll); AllCoherent(r.0, r.1)
  {
    var r := ArrivePass(S, M, P, ctx, paths, roll);
    forall u | u in r.0 && u in r.1 ensures Coherent(r.0[u], r.1[u]) {
      if Active(S, M, P, u) {
        ArriveStepCoherent(S[u], M[u], CellOfPosition(P[u], ctx.cellSize), ctx, PathOf(paths, u), roll(u));
      }
    }
  }

  lemma PlanningPassCoherent(S: map<nat, AIState>, M: map<nat, Movement>, P: map<nat, Position>, ctx: Context,
                             npcToHome: map<int, string>, zoneRoll: nat -> nat, paths: map<nat, seq<Point>>,
                             timerRoll: nat -> nat)
    requires ctx.cellSize > 0 && AllCoherent(S, M)
    ensures var r := PlanningPass(S, M, P, ctx, npcToHome, zoneRoll, paths, timerRoll); AllCoherent(r.0, r.1)
  {
    var r := PlanningPass(S, M, P, ctx, npcToHome, zoneRoll, paths, timerRoll);
    forall u | u in r.0 && u in r.1 ensures Coherent(r.0[u], r.1[u]) {
      if Active(S, M, P, u) {
        PlanningStepCoherent(S[u], M[u], CellOfPosition(P[u], ctx.cellSize), ctx, HomeOf(npcToHome, u),
                             zoneRoll(u), PathOf(paths, u), timerRoll(u));
      }
    }
  }

  /** The movement pass keeps the coupling and leaves no planning phase
      due. */
  lemma MovementPassCoherent(S: map<nat, AIState>, M: map<nat, Movement>, P: map<nat, Position>,
                             deltaTime: real, timeScale: real, norm: (real, real) -> real)
    requires ForwardFrame(M, deltaTime, timeScale) && AllCoherent(S, M)
    ensures AllCoherent(S, MovementsAfter(M, P, deltaTime, timeScale, norm))
    ensures NoDuePlanning(MovementsAfter(M, P, deltaTime, timeScale, norm))
  {
    var M' := MovementsAfter(M, P, deltaTime, timeScale, norm);
    forall u | u in S && u in M' ensures Coherent(S[u], M'[u]) {
      PhaseStepCoherent(S[u], M[u], PositionOf(P, u), deltaTime, timeScale, norm);
    }
    forall u | u in M' && M'[u].phase == Planning ensures M'[u].phaseTimer < M'[u].planningDuration {
      PhaseStepLeavesNoDuePlanning(M[u], PositionOf(P, u), deltaTime, timeScale, norm);
    }
  }

  /** Arrivals never leave a planning phase due. */
  lemma ArrivePassNoDuePlanning(S: map<nat, AIState>, M: map<nat, Movement>, P: map<nat, Position>, ctx: Context,
                                paths: map<nat, seq<Point>>, roll: nat -> nat)
    requires ctx.cellSize > 0 && NoDuePlanning(M)
    ensures NoDuePlanning(ArrivePass(S, M, P, ctx, paths, roll).1)
  {
    var M' := ArrivePass(S, M, P, ctx, paths, roll).1;
    forall u | u in M' && M'[u].phase == Planning ensures M'[u].phaseTimer < M'[u].planningDuration {
      if Active(S, M, P, u) && M[u].phase != Planning {
        ArriveStepNeverPlans(S[u], M[u], CellOfPosition(P[u], ctx.cellSize), ctx, PathOf(paths, u), roll(u));
      }
    }
  }

  /** In a frame's order the planning pass never reaches the handoff to
      `executeMovementPlan`: its outcome is the same whatever paths and
      timer rolls that call would use. */
  lemma PlanningPassIgnoresHandoff(S: map<nat, AIState>, M: map<nat, Movement>, P: map<nat, Position>,
                                   ctx: Context, npcToHome: map<int, string>, zoneRoll: nat -> nat,
                                   paths1: map<nat, seq<Point>>, paths2: map<nat, seq<Point>>,
                                   timerRoll1: nat -> nat, timerRoll2: nat -> nat)
    requires ctx.cellSize > 0 && AllCoherent(S, M) && NoDuePlanning(M)
    ensures PlanningPass(S, M, P, ctx, npcToHome, zoneRoll, paths1, timerRoll1)
            == PlanningPass(S, M, P, ctx, npcToHome, zoneRoll, paths2, timerRoll2)
  {
    var step1 := PlanningStepOf(ctx, npcToHome, zoneRoll, paths1, timerRoll1);
    var step2 := PlanningStepOf(ctx, npcToHome, zoneRoll, paths2, timerRoll2);
    forall u | Active(S, M, P, u)
      ensures step1(u, S[u], M[u], P[u]) == step2(u, S[u], M[u], P[u])
    {
      PlanningHandoffNeverFires(S[u], M[u], CellOfPosition(P[u], ctx.cellSize), ctx, HomeOf(npcToHome, u),
                                zoneRoll(u), PathOf(paths1, u), PathOf(paths2, u), timerRoll1(u), timerRoll2(u));
    }
    SameStepsSamePass(S, M, P, step1, step2, S.Keys);
  }

  /** Two per-agent turns that agree on every active agent make the same pass. */
  lemma SameStepsSamePass(S: map<nat, AIState>, M: map<nat, Movement>, P: map<nat, Position>,
                          step1: AgentStep, step2: AgentStep, done: set<nat>)
    requires forall u :: Active(S, M, P, u) ==> step1(u, S[u], M[u], P[u]) == step2(u, S[u], M[u], P[u])
    ensures PartialPass(S, M, P, step1, done) == PartialPass(S, M, P, step2, done)
  {
    var r1 := PartialPass(S, M, P, step1, done);
    var r2 := PartialPass(S, M, P, step2, done);
    assert r1.0 == r2.0;
    assert r1.1 == r2.1;
  }

  /** On a due tick every active agent performing an activity re-plans. */
  lemma TickPassReplansPerformers(S: map<nat, AIState>, M: map<nat, Movement>, P: map<nat, Position>,
                                  ctx: Context, npcToHome: map<int, string>, roll: nat -> nat, u: nat)
    requires AllCoherent(S, M) && Active(S, M, P, u) && S[u].currentState == PerformingActivity
    ensures var r := TickPass(S, M, P, ctx, npcToHome, roll);
            var p := PlanNext(S[u], M[u], ctx, HomeOf(npcToHome, u), roll(u));
            r.0[u] == p.0 && r.1[u] == p.1
  {
    PerformingReplansOnTick(S[u], M[u], ctx, HomeOf(npcToHome, u), roll(u));
  }

  /** Before its step an agent's records are those it started with. */
  lemma PartialPassAt(S: map<nat, AIState>, M: map<nat, Movement>, P: map<nat, Position>, step: AgentStep,
                      done: set<nat>, uid: nat)
    requires uid in S && uid !in done
    ensures var A := PartialPass(S, M, P, step, done);
            A.0.Keys == S.Keys && A.1.Keys == M.Keys && A.0[uid] == S[uid] && (uid in M ==> A.1[uid] == M[uid])
  {
  }

  /** One more agent's step extends a partial pass by exactly that agent's
      records, even when the step function changes at that agent alone
      (a path recorded for it). */
  lemma PartialPassStep(S: map<nat, AIState>, M: map<nat, Movement>, P: map<nat, Position>,
                        step: AgentStep, step': AgentStep, done: set<nat>, uid: nat)
    requires uid in S && uid !in done
    requires forall u, s, m, p :: u != uid ==> step'(u, s, m, p) == step(u, s, m, p)
    ensures var A := PartialPass(S, M, P, step, done);
            var B := PartialPass(S, M, P, step', done + {uid});
            B == if Active(S, M, P, uid)
                 then var r := step'(uid, S[uid], M[uid], P[uid]); (A.0[uid := r.0], A.1[uid := r.1])
                 else A
  {
    var A := PartialPass(S, M, P, step, done);
    var B := PartialPass(S, M, P, step', done + {uid});
    if Active(S, M, P, uid) {
      var r := step'(uid, S[uid], M[uid], P[uid]);
      assert B.0 == A.0[uid := r.0];
      assert B.1 == A.1[uid := r.1];
    } else {
      assert B.0 == A.0;
      assert B.1 == A.1;
    }
  }

  /** With nobody done a partial pass changes nothing. */
  lemma PartialPassNone(S: map<nat, AIState>, M: map<nat, Movement>, P: map<nat, Position>, step: AgentStep)
    ensures PartialPass(S, M, P, step, {}) == (S, M)
  {
    var E := PartialPass(S, M, P, step, {});
    assert E.0 == S;
    assert E.1 == M;
  }

  /** Recording a path for `uid` changes the arrival step of nobody else. */
  lemma ArriveStepOfRecord(ctx: Context, paths: map<nat, seq<Point>>, roll: nat -> nat, uid: nat, path: seq<Point>)
    requires ctx.cellSize > 0
    ensures forall u, s, m, p :: u != uid ==>
              ArriveStepOf(ctx, paths[uid := path], roll)(u, s, m, p) == ArriveStepOf(ctx, paths, roll)(u, s, m, p)
  {
    forall u | u != uid ensures PathOf(paths[uid := path], u) == PathOf(paths, u) { }
  }

  /** Recording a path for `uid` changes the planning step of nobody else. */
  lemma PlanningStepOfRecord(ctx: Context, npcToHome: map<int, string>, zoneRoll: nat -> nat,
                             paths: map<nat, seq<Point>>, timerRoll: nat -> nat, uid: nat, path: seq<Point>)
    requires ctx.cellSize > 0
    ensures forall u, s, m, p :: u != uid ==>
              PlanningStepOf(ctx, npcToHome, zoneRoll, paths[uid := path], timerRoll)(u, s, m, p)
              == PlanningStepOf(ctx, npcToHome, zoneRoll, paths, timerRoll)(u, s, m, p)
  {
    forall u | u != uid ensures PathOf(paths[uid := path], u) == PathOf(paths, u) { }
  }

  /** The random draws of one frame, per agent: the tick's zone pick, the
      arrival's activity duration, the replan's zone pick and the
      handoff's activity duration. */
  datatype Rolls = Rolls(tick: nat -> nat, arrive: nat -> nat, replan: nat -> nat, handoff: nat -> nat)

  class AISystem {
    const aiManager: AIManager
    const posManager: PositionManager
    const moveManager: MovementManager
    const pathfinder: PF.Pathfinder
    const grid: Grid
    const clock: C.Clock
    const homeManager: HomeManager
    const cellSize: int
    const aiUpdateInterval: real
    var aiUpdateTimer: real

    /** The collaborators agree, zones lie on the grid, costs are not
        negative and cells have a positive size. */
    ghost predicate Valid()
      reads grid
    {
      pathfinder.grid == grid && grid.Valid() && NonNegativeCosts(grid.GetTerrain())
      && (forall i :: 0 <= i < |grid.zones| ==> PF.ZoneInside(grid.GetTerrain(), grid.zones[i].1))
      && cellSize > 0 && aiUpdateInterval == 0.5
    }

    /** Every agent stands on a cell of the grid (the path search indexes
        its cost table by the start cell). */
    ghost predicate CellsOnGrid()
      reads posManager, grid
    {
      cellSize > 0
      && forall u :: u in posManager.positions ==>
           grid.GetTerrain().InBounds(CellOf(posManager.positions[u].x, cellSize),
                                      CellOf(posManager.positions[u].y, cellSize))
    }

    constructor (aiManager: AIManager, posManager: PositionManager, moveManager: MovementManager,
                 pathfinder: PF.Pathfinder, grid: Grid, clock: C.Clock, homeManager: HomeManager, cellSize: int)
      ensures this.aiManager == aiManager && this.posManager == posManager && this.moveManager == moveManager
      ensures this.pathfinder == pathfinder && this.grid == grid && this.clock == clock
      ensures this.homeManager == homeManager && this.cellSize == cellSize
      ensures aiUpdateTimer == 0.0 && aiUpdateInterval == 0.5
    {
      this.aiManager := aiManager;
      this.posManager := posManager;
      this.moveManager := moveManager;
      this.pathfinder := pathfinder;
      this.grid := grid;
      this.clock := clock;
      this.homeManager := homeManager;
      this.cellSize := cellSize;
      aiUpdateInterval := 0.5;
      aiUpdateTimer := 0.0;
    }

    /** What the decisions read: the clock's hour and stored period, the
        zone table and the cell size. */
    function Ctx(): Context
      reads clock, clock.timeOfDay, grid
    {
      Context(clock.hour, clock.timeOfDay.currentPeriod, grid.zones, cellSize)
    }

    /** The agent's cell, from its stored position. */
    function CellAt(u: nat): Point
      requires cellSize > 0 && u in posManager.positions
      reads posManager
    {
      CellOfPosition(posManager.positions[u], cellSize)
    }

    /** When the plan of `s` from `cell` needs a path, `path` is what the
        zone search answers for that cell and zone. */
    ghost predicate PathOk(s: AIState, cell: Point, path: seq<Point>, found: map<Point, seq<Point>>)
      reads grid
    {
      s.currentState == MovingToZone && FindZone(grid.zones, s.targetZone).Some?
      && !PF.InZone(FindZone(grid.zones, s.targetZone).value, cell) ==>
        PF.ZoneResult(grid.GetTerrain(), cell, FindZone(grid.zones, s.targetZone).value, found, path)
    }

    // ---------------------------------------------------------------
    // Zone helpers

    /** The non-home zone names, collected in table order. */
    method CollectNonHomeZones() returns (names: seq<string>)
      ensures names == NonHomeNames(grid.zones)
    {
      var zones := grid.zones;
      names := [];
      var i := 0;
      while i < |zones|
        invariant 0 <= i <= |zones|
        invariant names == NonHomeNames(zones[..i])
      {
        assert zones[..i + 1][..i] == zones[..i];
        if !Contains(zones[i].0, "Home") {
          names := names + [zones[i].0];
        }
        i := i + 1;
      }
      assert zones[..|zones|] == zones;
    }

    /** The leisure zone names, collected in table order. */
    method CollectLeisureZones() returns (names: seq<string>)
      ensures names == LeisureNames(grid.zones)
    {
      var zones := grid.zones;
      names := [];
      var i := 0;
      while i < |zones|
        invariant 0 <= i <= |zones|
        invariant names == LeisureNames(zones[..i])
      {
        assert zones[..i + 1][..i] == zones[..i];
        var n := zones[i].0;
        if (Contains(n, "Cafe") || Contains(n, "Forest") || Contains(n, "Water") || Contains(n, "Stadium"))
           && !Contains(n, "Home") {
          names := names + [n];
        }
        i := i + 1;
      }
      assert zones[..|zones|] == zones;
    }

    /** `getHomeZone`. */
    method GetHomeZone(npcId: nat) returns (r: string)
      ensures r == HomeZoneFor(homeManager.GetNpcHome(npcId), grid.zones)
    {
      var registered := homeManager.GetNpcHome(npcId);
      if registered != "" {
        return registered;
      }
      var zones := grid.zones;
      var i := 0;
      while i < |zones|
        invariant 0 <= i <= |zones|
        invariant forall j :: 0 <= j < i ==> !Contains(zones[j].0, "Home")
      {
        if Contains(zones[i].0, "Home") {
          assert FirstHomeIndex(zones) == i;
          return zones[i].0;
        }
        i := i + 1;
      }
      if |zones| > 0 {
        return zones[0].0;
      }
      return "";
    }

    /** `getRandomLeisureZone`, with `roll` for `rand()`. */
    method GetRandomLeisureZone(roll: nat) returns (r: string)
      ensures r == LeisureZone(grid.zones, roll)
    {
      var leisure := CollectLeisureZones();
      if |leisure| > 0 {
        return leisure[roll % |leisure|];
      }
      var nonHome := CollectNonHomeZones();
      if |nonHome| > 0 {
        return nonHome[roll % |nonHome|];
      }
      return "";
    }

    /** `shouldReplanActivity`: false for an agent without intent. */
    method ShouldReplanActivity(uid: nat) returns (r: bool)
      ensures r <==> uid in aiManager.states && ShouldReplan(clock.hour, aiManager.states[uid].targetZone)
    {
      var st := aiManager.Get(uid);
      if st.None? {
        return false;
      }
      var hour := clock.hour;
      if IsSleepTime(hour) && !Contains(st.value.targetZone, "Home") {
        return true;
      }
      if IsWorkHours(hour) && st.value.targetZone != "Work" {
        return true;
      }
      if IsMealTime(hour) && st.value.targetZone != "Cafe" {
        return true;
      }
      return false;
    }

    // ---------------------------------------------------------------
    // Per-agent actions

    /** The activity and target zone `planNextAction` settles on. */
    method ChooseTargetZone(uid: nat, roll: nat) returns (activity: string, targetZone: string)
      ensures (activity, targetZone) == ChooseTarget(Ctx(), homeManager.GetNpcHome(uid), roll)
    {
      var hour := clock.hour;
      if IsSleepTime(hour) {
        activity := "Sleeping";
        targetZone := GetHomeZone(uid);
      } else if IsWorkHours(hour) {
        activity := "Working";
        targetZone := "Work";
      } else if IsMealTime(hour) {
        activity := "Eating";
        targetZone := "Cafe";
      } else if clock.timeOfDay.currentPeriod == Evening {
        activity := "Relaxing";
        targetZone := GetRandomLeisureZone(roll);
      } else {
        activity := clock.timeOfDay.SuggestedActivity(hour);
        targetZone := "";
        var nonHome := CollectNonHomeZones();
        if |nonHome| > 0 {
          targetZone := nonHome[roll % |nonHome|];
        }
      }
    }

    /** `planNextAction`: nothing for an agent missing a record. */
    method PlanNextAction(uid: nat, roll: nat)
      modifies aiManager, moveManager
      ensures Active(old(aiManager.states), old(moveManager.movements), posManager.positions, uid) ==>
                var r := PlanNext(old(aiManager.states)[uid], old(moveManager.movements)[uid], Ctx(),
                                  homeManager.GetNpcHome(uid), roll);
                aiManager.states == old(aiManager.states)[uid := r.0]
                && moveManager.movements == old(moveManager.movements)[uid := r.1]
      ensures !Active(old(aiManager.states), old(moveManager.movements), posManager.positions, uid) ==>
                aiManager.states == old(aiManager.states) && moveManager.movements == old(moveManager.movements)
    {
      var st := aiManager.Get(uid);
      var mv := moveManager.Get(uid);
      var pos := posManager.Get(uid);
      if st.None? || mv.None? || pos.None? {
        return;
      }
      var activity, targetZone := ChooseTargetZone(uid, roll);
      var s := st.value.(intendedActivity := activity);
      if targetZone != "" && FindZone(grid.zones, targetZone).Some? {
        s := s.(targetZone := targetZone, currentState := MovingToZone);
        aiManager.states := aiManager.states[uid := s];
        moveManager.movements := moveManager.movements[uid := mv.value.StartPlanning()];
      } else {
        aiManager.states := aiManager.states[uid := s];
      }
    }

    /** `executeMovementPlan`: nothing for an agent missing a record.
        `path` and `found` are the zone search's answer when one was made. */
    method ExecuteMovementPlan(uid: nat, roll: nat) returns (ghost path: seq<Point>, ghost found: map<Point, seq<Point>>)
      requires Valid() && CellsOnGrid()
      modifies aiManager, moveManager
      ensures Active(old(aiManager.states), old(moveManager.movements), posManager.positions, uid) ==>
                var r := ExecutePlan(old(aiManager.states)[uid], old(moveManager.movements)[uid], CellAt(uid),
                                     Ctx(), path, roll);
                aiManager.states == old(aiManager.states)[uid := r.0]
                && moveManager.movements == old(moveManager.movements)[uid := r.1]
                && PathOk(old(aiManager.states)[uid], CellAt(uid), path, found)
      ensures !Active(old(aiManager.states), old(moveManager.movements), posManager.positions, uid) ==>
                aiManager.states == old(aiManager.states) && moveManager.movements == old(moveManager.movements)
    {
      path, found := [], map[];
      var st := aiManager.Get(uid);
      var mv := moveManager.Get(uid);
      var pos := posManager.Get(uid);
      if st.None? || mv.None? || pos.None? {
        return;
      }
      var s := st.value;
      var m := mv.value;
      if s.currentState != MovingToZone {
        return;
      }
      var cell := Point(Trunc(pos.value.x / cellSize as real), Trunc(pos.value.y / cellSize as real));
      assert cell == CellAt(uid);
      var s2, m2;
      s2, m2, path, found := PlanTowardsZone(s, m, cell, roll);
      aiManager.states := aiManager.states[uid := s2];
      moveManager.movements := moveManager.movements[uid := m2];
    }

    /** The part of `executeMovementPlan` after the lookups, on the
        agent's records and cell. */
    method PlanTowardsZone(s: AIState, m: Movement, cell: Point, roll: nat)
      returns (s2: AIState, m2: Movement, ghost path: seq<Point>, ghost found: map<Point, seq<Point>>)
      requires Valid() && grid.GetTerrain().InBounds(cell.x, cell.y)
      requires s.currentState == MovingToZone
      ensures (s2, m2) == ExecutePlan(s, m, cell, Ctx(), path, roll)
      ensures PathOk(s, cell, path, found)
    {
      path, found := [], map[];
      var zone := FindZone(grid.zones, s.targetZone);
      if zone.None? {
        return s.(currentState := AIIdle), m.(phase := Idle), path, found;
      }
      var z := zone.value;
      if z.x <= cell.x < z.x + z.width && z.y <= cell.y < z.y + z.height {
        return s.(currentState := PerformingActivity, activityTimer := 300.0 + (roll % 600) as real),
               m.(phase := Idle), path, found;
      }
      ZoneOnGrid(s.targetZone);
      var p, f := pathfinder.FindPathToZone(cell, s.targetZone);
      path, found := p, f;
      if |p| != 0 && |p| > 1 {
        var nextStep := p[1];
        var targetX := (nextStep.x * cellSize) as real + cellSize as real / 2.0;
        var targetY := (nextStep.y * cellSize) as real + cellSize as real / 2.0;
        s2 := s;
        m2 := m.SetTarget(targetX, targetY);
        m2 := m2.(phase := Moving, phaseTimer := 0.0, isMoving := true);
      } else {
        s2, m2 := s.(currentState := AIIdle), m.(phase := Idle);
      }
    }

    /** A zone the table names lies on the grid. */
    lemma ZoneOnGrid(name: string)
      requires Valid()
      ensures FindZone(grid.zones, name).Some? ==> PF.ZoneInside(grid.GetTerrain(), FindZone(grid.zones, name).value)
    {
      if FindZone(grid.zones, name).Some? {
        var i :| 0 <= i < |grid.zones| && grid.zones[i] == (name, FindZone(grid.zones, name).value);
        assert PF.ZoneInside(grid.GetTerrain(), grid.zones[i].1);
      }
    }

    /** One agent's turn in a due AI tick. The text shown while moving is
        not modelled. */
    method TickOne(uid: nat, roll: nat, ghost ctx: Context, ghost home: string)
      requires Valid() && uid in aiManager.states
      requires ctx == Ctx() && home == homeManager.GetNpcHome(uid)
      modifies aiManager, moveManager
      ensures Active(old(aiManager.states), old(moveManager.movements), posManager.positions, uid) ==>
                var r := AITick(old(aiManager.states)[uid], old(moveManager.movements)[uid], ctx, home, roll);
                aiManager.states == old(aiManager.states)[uid := r.0]
                && moveManager.movements == old(moveManager.movements)[uid := r.1]
      ensures !Active(old(aiManager.states), old(moveManager.movements), posManager.positions, uid) ==>
                aiManager.states == old(aiManager.states) && moveManager.movements == old(moveManager.movements)
    {
      var mv := moveManager.Get(uid);
      var pos := posManager.Get(uid);
      if mv.None? || pos.None? {
        return;
      }
      if mv.value.phase == Idle {
        PlanNextAction(uid, roll);
      }
    }

    /** `updateAI`: accumulate time, and every half second give every agent
        its tick, carrying the remainder over. */
    method UpdateAI(deltaTime: real, roll: nat -> nat)
      requires Valid()
      modifies this, aiManager, moveManager
      ensures old(aiUpdateTimer) + deltaTime < aiUpdateInterval ==>
                aiUpdateTimer == old(aiUpdateTimer) + deltaTime
                && aiManager.states == old(aiManager.states) && moveManager.movements == old(moveManager.movements)
      ensures old(aiUpdateTimer) + deltaTime >= aiUpdateInterval ==>
                var r := TickPass(old(aiManager.states), old(moveManager.movements), posManager.positions, Ctx(),
                                  homeManager.npcToHome, roll);
                aiUpdateTimer == old(aiUpdateTimer) + deltaTime - aiUpdateInterval
                && aiManager.states == r.0 && moveManager.movements == r.1
    {
      aiUpdateTimer := aiUpdateTimer + deltaTime;
      if aiUpdateTimer < aiUpdateInterval {
        return;
      }
      aiUpdateTimer := aiUpdateTimer - aiUpdateInterval;
      TickAll(roll, Ctx(), homeManager.npcToHome);
    }

    /** How far a due tick has come: the agents outside `todo` have had
        their turn. */
    ghost predicate TickProgress(S0: map<nat, AIState>, M0: map<nat, Movement>, ctx: Context, H: map<int, string>,
                                 roll: nat -> nat, todo: set<nat>)
      reads aiManager, moveManager, posManager
    {
      todo <= S0.Keys
      && (aiManager.states, moveManager.movements)
         == PartialPass(S0, M0, posManager.positions, TickStepOf(ctx, H, roll), S0.Keys - todo)
    }

    /** One iteration of the tick loop: agent `uid` has its turn and leaves
        `todo`. */
    method TickNext(uid: nat, roll: nat -> nat, ghost S0: map<nat, AIState>, ghost M0: map<nat, Movement>,
                    ghost ctx: Context, ghost H: map<int, string>, ghost todo: set<nat>)
      requires Valid() && ctx == Ctx() && H == homeManager.npcToHome && uid in todo
      requires TickProgress(S0, M0, ctx, H, roll, todo)
      modifies aiManager, moveManager
      ensures TickProgress(S0, M0, ctx, H, roll, todo - {uid})
    {
      ghost var done := S0.Keys - todo;
      var r := roll(uid);
      ghost var step := TickStepOf(ctx, H, roll);
      PartialPassAt(S0, M0, posManager.positions, step, done, uid);
      TickOne(uid, r, ctx, HomeOf(H, uid));
      PartialPassStep(S0, M0, posManager.positions, step, step, done, uid);
      assert S0.Keys - (todo - {uid}) == done + {uid};
    }

    lemma TickStart(roll: nat -> nat)
      ensures TickProgress(aiManager.states, moveManager.movements, Ctx(), homeManager.npcToHome, roll,
                           aiManager.states.Keys)
    {
      var S0 := aiManager.states;
      PartialPassNone(S0, moveManager.movements, posManager.positions, TickStepOf(Ctx(), homeManager.npcToHome, roll));
      assert S0.Keys - S0.Keys == {};
    }

    lemma TickEnd(S0: map<nat, AIState>, M0: map<nat, Movement>, ctx: Context, H: map<int, string>, roll: nat -> nat)
      requires TickProgress(S0, M0, ctx, H, roll, {})
      ensures (aiManager.states, moveManager.movements) == TickPass(S0, M0, posManager.positions, ctx, H, roll)
    {
      assert S0.Keys - {} == S0.Keys;
    }

    /** Every agent's turn of a due tick, in the intent map's order. */
    method TickAll(roll: nat -> nat, ghost ctx: Context, ghost H: map<int, string>)
      requires Valid() && ctx == Ctx() && H == homeManager.npcToHome
      modifies aiManager, moveManager
      ensures (aiManager.states, moveManager.movements)
              == TickPass(old(aiManager.states), old(moveManager.movements), posManager.positions, ctx, H, roll)
    {
      ghost var S0, M0 := aiManager.states, moveManager.movements;
      var todo := aiManager.states.Keys;
      TickStart(roll);
      while todo != {}
        invariant TickProgress(S0, M0, ctx, H, roll, todo)
        decreases |todo|
      {
        ghost var w := Pick(todo);
        var uid :| uid in todo;
        TickNext(uid, roll, S0, M0, ctx, H, todo);
        todo := todo - {uid};
      }
      TickEnd(S0, M0, ctx, H, roll);
    }

    /** One agent's turn in the arrivals pass. The text shown on arrival
        is not modelled. */
    method ArriveOne(uid: nat, roll: nat, ghost ctx: Context)
        returns (ghost path: seq<Point>, ghost found: map<Point, seq<Point>>)
      requires Valid() && CellsOnGrid() && uid in aiManager.states && ctx == Ctx()
      modifies aiManager, moveManager
      ensures Active(old(aiManager.states), old(moveManager.movements), posManager.positions, uid) ==>
                var r := ArriveStep(old(aiManager.states)[uid], old(moveManager.movements)[uid], CellAt(uid),
                                    ctx, path, roll);
                aiManager.states == old(aiManager.states)[uid := r.0]
                && moveManager.movements == old(moveManager.movements)[uid := r.1]
                && (Arrived(old(aiManager.states)[uid], old(moveManager.movements)[uid]) ==>
                      PathOk(old(aiManager.states)[uid], CellAt(uid), path, found))
      ensures !Active(old(aiManager.states), old(moveManager.movements), posManager.positions, uid) ==>
                aiManager.states == old(aiManager.states) && moveManager.movements == old(moveManager.movements)
    {
      path, found := [], map[];
      var mv := moveManager.Get(uid);
      var pos := posManager.Get(uid);
      if mv.None? || pos.None? {
        return;
      }
      var s := aiManager.states[uid];
      var m := mv.value;
      if s.currentState == MovingToZone && m.phase == Idle && !m.isMoving {
        var cell := Point(Trunc(pos.value.x / cellSize as real), Trunc(pos.value.y / cellSize as real));
        assert cell == CellAt(uid);
        var zone := FindZone(grid.zones, s.targetZone);
        if zone.Some? {
          var z := zone.value;
          if z.x <= cell.x < z.x + z.width && z.y <= cell.y < z.y + z.height {
            aiManager.states := aiManager.states[uid := s.(currentState := PerformingActivity,
                                                           activityTimer := 300.0 + (roll % 600) as real)];
          } else {
            path, found := ExecuteMovementPlan(uid, roll);
          }
        }
      }
    }

    /** The paths recorded for the agents in `done` that arrived are the
        zone search's answers from their cells. */
    ghost predicate ArrivalPathsOk(S0: map<nat, AIState>, M0: map<nat, Movement>, P: map<nat, Position>,
                                   paths: map<nat, seq<Point>>, founds: map<nat, map<Point, seq<Point>>>,
                                   done: set<nat>)
      reads grid
    {
      cellSize > 0
      && forall u :: u in done && Active(S0, M0, P, u) && Arrived(S0[u], M0[u]) ==>
           u in paths && u in founds && PathOk(S0[u], CellOfPosition(P[u], cellSize), paths[u], founds[u])
    }

    /** Recording one more agent's search keeps the recorded paths right. */
    lemma ArrivalPathsStep(S0: map<nat, AIState>, M0: map<nat, Movement>, P: map<nat, Position>,
                           paths: map<nat, seq<Point>>, founds: map<nat, map<Point, seq<Point>>>, done: set<nat>,
                           uid: nat, path: seq<Point>, found: map<Point, seq<Point>>)
      requires ArrivalPathsOk(S0, M0, P, paths, founds, done)
      requires Active(S0, M0, P, uid) && Arrived(S0[uid], M0[uid]) ==>
                 PathOk(S0[uid], CellOfPosition(P[uid], cellSize), path, found)
      ensures ArrivalPathsOk(S0, M0, P, paths[uid := path], founds[uid := found], done + {uid})
    {
    }

    /** How far the arrivals loop has come: the agents outside `todo`
        have had their step, with the paths their searches found. */
    ghost predicate ArriveProgress(S0: map<nat, AIState>, M0: map<nat, Movement>, ctx: Context, roll: nat -> nat,
                                   paths: map<nat, seq<Point>>, founds: map<nat, map<Point, seq<Point>>>,
                                   todo: set<nat>)
      reads aiManager, moveManager, posManager, grid
    {
      cellSize > 0 && ctx.cellSize == cellSize && todo <= S0.Keys
      && (aiManager.states, moveManager.movements)
         == PartialPass(S0, M0, posManager.positions, ArriveStepOf(ctx, paths, roll), S0.Keys - todo)
      && ArrivalPathsOk(S0, M0, posManager.positions, paths, founds, S0.Keys - todo)
    }

    /** One iteration of the arrivals loop: agent `uid` takes its step and
        leaves `todo`. */
    method ArriveNext(uid: nat, roll: nat -> nat, ghost S0: map<nat, AIState>, ghost M0: map<nat, Movement>,
                      ghost ctx: Context, ghost paths: map<nat, seq<Point>>,
                      ghost founds: map<nat, map<Point, seq<Point>>>, ghost todo: set<nat>)
        returns (ghost paths': map<nat, seq<Point>>, ghost founds': map<nat, map<Point, seq<Point>>>)
      requires Valid() && CellsOnGrid() && ctx == Ctx() && uid in todo
      requires ArriveProgress(S0, M0, ctx, roll, paths, founds, todo)
      modifies aiManager, moveManager
      ensures ArriveProgress(S0, M0, ctx, roll, paths', founds', todo - {uid})
    {
      ghost var P := posManager.positions;
      ghost var done := S0.Keys - todo;
      var r := roll(uid);
      PartialPassAt(S0, M0, P, ArriveStepOf(ctx, paths, roll), done, uid);
      assert aiManager.states[uid] == S0[uid];
      assert Active(aiManager.states, moveManager.movements, P, uid) == Active(S0, M0, P, uid);
      ghost var path, found := ArriveOne(uid, r, ctx);
      ghost var step' := ArriveStepOf(ctx, paths[uid := path], roll);
      if Active(S0, M0, P, uid) {
        assert PathOf(paths[uid := path], uid) == path;
        assert step'(uid, S0[uid], M0[uid], P[uid])
               == ArriveStep(S0[uid], M0[uid], CellAt(uid), ctx, path, r);
      }
      ArriveStepOfRecord(ctx, paths, roll, uid, path);
      PartialPassStep(S0, M0, P, ArriveStepOf(ctx, paths, roll), step', done, uid);
      ArrivalPathsStep(S0, M0, P, paths, founds, done, uid, path, found);
      paths', founds' := paths[uid := path], founds[uid := found];
      assert S0.Keys - (todo - {uid}) == done + {uid};
    }

    /** Before the arrivals loop nobody has had a step. */
    lemma ArriveStart(roll: nat -> nat)
      requires cellSize > 0
      ensures ArriveProgress(aiManager.states, moveManager.movements, Ctx(), roll, map[], map[], aiManager.states.Keys)
    {
      var S0 := aiManager.states;
      PartialPassNone(S0, moveManager.movements, posManager.positions, ArriveStepOf(Ctx(), map[], roll));
      assert S0.Keys - S0.Keys == {};
    }

    /** After the loop every agent has had its step: the maps are the
        arrivals pass. */
    lemma ArriveEnd(S0: map<nat, AIState>, M0: map<nat, Movement>, ctx: Context, roll: nat -> nat,
                    paths: map<nat, seq<Point>>, founds: map<nat, map<Point, seq<Point>>>)
      requires ArriveProgress(S0, M0, ctx, roll, paths, founds, {})
      ensures var r := ArrivePass(S0, M0, posManager.positions, ctx, paths, roll);
              aiManager.states == r.0 && moveManager.movements == r.1
      ensures ArrivalPathsOk(S0, M0, posManager.positions, paths, founds, S0.Keys)
    {
      assert S0.Keys - {} == S0.Keys;
    }

    /** `processArrivingEntities`. */
    method ProcessArrivingEntities(roll: nat -> nat)
        returns (ghost paths: map<nat, seq<Point>>, ghost founds: map<nat, map<Point, seq<Point>>>)
      requires Valid() && CellsOnGrid()
      modifies aiManager, moveManager
      ensures var r := ArrivePass(old(aiManager.states), old(moveManager.movements), posManager.positions, Ctx(),
                                  paths, roll);
              aiManager.states == r.0 && moveManager.movements == r.1
      ensures ArrivalPathsOk(old(aiManager.states), old(moveManager.movements), posManager.positions, paths, founds,
                             old(aiManager.states).Keys)
    {
      paths, founds := map[], map[];
      ghost var S0, M0 := aiManager.states, moveManager.movements;
      ghost var ctx := Ctx();
      var todo := aiManager.states.Keys;
      ArriveStart(roll);
      while todo != {}
        invariant ArriveProgress(S0, M0, ctx, roll, paths, founds, todo)
        invariant Valid() && CellsOnGrid() && ctx == Ctx()
        decreases |todo|
      {
        ghost var w := Pick(todo);
        var uid :| uid in todo;
        paths, founds := ArriveNext(uid, roll, S0, M0, ctx, paths, founds, todo);
        todo := todo - {uid};
      }
      ArriveEnd(S0, M0, ctx, roll, paths, founds);
    }

    /** The activity part of an agent's turn in the planning pass. */
    method ActivityOne(uid: nat, roll: nat)
      requires Active(aiManager.states, moveManager.movements, posManager.positions, uid)
      modifies aiManager, moveManager
      ensures var r := ActivityStep(old(aiManager.states)[uid], old(moveManager.movements)[uid], Ctx(),
                                    homeManager.GetNpcHome(uid), roll);
              aiManager.states == old(aiManager.states)[uid := r.0]
              && moveManager.movements == old(moveManager.movements)[uid := r.1]
    {
      var s := aiManager.states[uid];
      if s.currentState != PerformingActivity {
        return;
      }
      s := s.(activityTimer := s.activityTimer - 16.67);
      aiManager.states := aiManager.states[uid := s];
      if IsSleepTime(clock.hour) && Contains(s.targetZone, "Home") {
        return;
      }
      var replan := ShouldReplanActivity(uid);
      if s.activityTimer <= 0.0 || replan {
        PlanNextAction(uid, roll);
      }
    }

    /** One agent's turn in the planning pass. Sleeping at home ends the
        turn, as the source's `continue` does. */
    method PlanOne(uid: nat, zoneRoll: nat, timerRoll: nat, ghost ctx: Context, ghost home: string)
        returns (ghost path: seq<Point>, ghost found: map<Point, seq<Point>>)
      requires Valid() && CellsOnGrid() && uid in aiManager.states
      requires ctx == Ctx() && home == homeManager.GetNpcHome(uid)
      modifies aiManager, moveManager
      ensures Active(old(aiManager.states), old(moveManager.movements), posManager.positions, uid) ==>
                var r := PlanningStep(old(aiManager.states)[uid], old(moveManager.movements)[uid], CellAt(uid),
                                      ctx, home, zoneRoll, path, timerRoll);
                var a := ActivityStep(old(aiManager.states)[uid], old(moveManager.movements)[uid], ctx, home, zoneRoll);
                aiManager.states == old(aiManager.states)[uid := r.0]
                && moveManager.movements == old(moveManager.movements)[uid := r.1]
                && (HandoffDue(a.0, a.1) ==> PathOk(a.0, CellAt(uid), path, found))
      ensures !Active(old(aiManager.states), old(moveManager.movements), posManager.positions, uid) ==>
                aiManager.states == old(aiManager.states) && moveManager.movements == old(moveManager.movements)
    {
      path, found := [], map[];
      var mv := moveManager.Get(uid);
      var pos := posManager.Get(uid);
      if mv.None? || pos.None? {
        return;
      }
      var s := aiManager.states[uid];
      ActivityOne(uid, zoneRoll);
      if s.currentState == PerformingActivity && IsSleepTime(clock.hour) && Contains(s.targetZone, "Home") {
        return;
      }
      path, found := HandoffOne(uid, timerRoll);
    }

    /** The check after the activity step: a MOVING_TO_ZONE agent whose
        planning time is used up gets `executeMovementPlan`. */
    method HandoffOne(uid: nat, timerRoll: nat) returns (ghost path: seq<Point>, ghost found: map<Point, seq<Point>>)
      requires Valid() && CellsOnGrid()
      requires Active(aiManager.states, moveManager.movements, posManager.positions, uid)
      modifies aiManager, moveManager
      ensures var s, m := old(aiManager.states)[uid], old(moveManager.movements)[uid];
              var r := ExecutePlan(s, m, CellAt(uid), Ctx(), path, timerRoll);
              (HandoffDue(s, m) ==>
                 aiManager.states == old(aiManager.states)[uid := r.0]
                 && moveManager.movements == old(moveManager.movements)[uid := r.1]
                 && PathOk(s, CellAt(uid), path, found))
              && (!HandoffDue(s, m) ==>
                    aiManager.states == old(aiManager.states) && moveManager.movements == old(moveManager.movements))
    {
      path, found := [], map[];
      var s2 := aiManager.states[uid];
      var m2 := moveManager.movements[uid];
      if s2.currentState == MovingToZone && m2.phase == Planning {
        if m2.phaseTimer >= m2.planningDuration {
          path, found := ExecuteMovementPlan(uid, timerRoll);
        }
      }
    }

    /** The paths recorded for the agents in `done` whose activity step
        hands over to `executeMovementPlan` are the zone search's answers
        from their cells. */
    ghost predicate PlanningPathsOk(S0: map<nat, AIState>, M0: map<nat, Movement>, P: map<nat, Position>,
                                    ctx: Context, H: map<int, string>, zoneRoll: nat -> nat,
                                    paths: map<nat, seq<Point>>, founds: map<nat, map<Point, seq<Point>>>,
                                    done: set<nat>)
      reads grid
    {
      cellSize > 0
      && forall u :: u in done && Active(S0, M0, P, u) ==>
           var a := ActivityStep(S0[u], M0[u], ctx, HomeOf(H, u), zoneRoll(u));
           HandoffDue(a.0, a.1) ==>
             u in paths && u in founds && PathOk(a.0, CellOfPosition(P[u], cellSize), paths[u], founds[u])
    }

    /** Recording one more agent's search keeps the recorded paths right. */
    lemma PlanningPathsStep(S0: map<nat, AIState>, M0: map<nat, Movement>, P: map<nat, Position>, ctx: Context,
                            H: map<int, string>, zoneRoll: nat -> nat, paths: map<nat, seq<Point>>,
                            founds: map<nat, map<Point, seq<Point>>>, done: set<nat>,
                            uid: nat, path: seq<Point>, found: map<Point, seq<Point>>)
      requires PlanningPathsOk(S0, M0, P, ctx, H, zoneRoll, paths, founds, done)
      requires Active(S0, M0, P, uid) ==>
                 var a := ActivityStep(S0[uid], M0[uid], ctx, HomeOf(H, uid), zoneRoll(uid));
                 HandoffDue(a.0, a.1) ==> PathOk(a.0, CellOfPosition(P[uid], cellSize), path, found)
      ensures PlanningPathsOk(S0, M0, P, ctx, H, zoneRoll, paths[uid := path], founds[uid := found], done + {uid})
    {
    }

    /** How far the planning loop has come: the agents outside `todo`
        have had their turn, with the paths their searches found. */
    ghost predicate PlanningProgress(S0: map<nat, AIState>, M0: map<nat, Movement>, ctx: Context,
                                     H: map<int, string>, zoneRoll: nat -> nat, timerRoll: nat -> nat,
                                     paths: map<nat, seq<Point>>, founds: map<nat, map<Point, seq<Point>>>,
                                     todo: set<nat>)
      reads aiManager, moveManager, posManager, grid
    {
      cellSize > 0 && ctx.cellSize == cellSize && todo <= S0.Keys
      && (aiManager.states, moveManager.movements)
         == PartialPass(S0, M0, posManager.positions, PlanningStepOf(ctx, H, zoneRoll, paths, timerRoll), S0.Keys - todo)
      && PlanningPathsOk(S0, M0, posManager.positions, ctx, H, zoneRoll, paths, founds, S0.Keys - todo)
    }

    /** One iteration of the planning loop: agent `uid` has its turn and
        leaves `todo`. */
    method PlanningNext(uid: nat, zoneRoll: nat -> nat, timerRoll: nat -> nat, ghost S0: map<nat, AIState>,
                        ghost M0: map<nat, Movement>, ghost ctx: Context, ghost H: map<int, string>,
                        ghost paths: map<nat, seq<Point>>, ghost founds: map<nat, map<Point, seq<Point>>>,
                        ghost todo: set<nat>)
        returns (ghost paths': map<nat, seq<Point>>, ghost founds': map<nat, map<Point, seq<Point>>>)
      requires Valid() && CellsOnGrid() && ctx == Ctx() && H == homeManager.npcToHome && uid in todo
      requires PlanningProgress(S0, M0, ctx, H, zoneRoll, timerRoll, paths, founds, todo)
      modifies aiManager, moveManager
      ensures PlanningProgress(S0, M0, ctx, H, zoneRoll, timerRoll, paths', founds', todo - {uid})
    {
      ghost var P := posManager.positions;
      ghost var done := S0.Keys - todo;
      var zr, tr := zoneRoll(uid), timerRoll(uid);
      PartialPassAt(S0, M0, P, PlanningStepOf(ctx, H, zoneRoll, paths, timerRoll), done, uid);
      assert aiManager.states[uid] == S0[uid];
      assert Active(aiManager.states, moveManager.movements, P, uid) == Active(S0, M0, P, uid);
      ghost var path, found := PlanOne(uid, zr, tr, ctx, HomeOf(H, uid));
      ghost var step' := PlanningStepOf(ctx, H, zoneRoll, paths[uid := path], timerRoll);
      if Active(S0, M0, P, uid) {
        assert PathOf(paths[uid := path], uid) == path;
        assert step'(uid, S0[uid], M0[uid], P[uid])
               == PlanningStep(S0[uid], M0[uid], CellAt(uid), ctx, HomeOf(H, uid), zr, path, tr);
      }
      PlanningStepOfRecord(ctx, H, zoneRoll, paths, timerRoll, uid, path);
      PartialPassStep(S0, M0, P, PlanningStepOf(ctx, H, zoneRoll, paths, timerRoll), step', done, uid);
      PlanningPathsStep(S0, M0, P, ctx, H, zoneRoll, paths, founds, done, uid, path, found);
      paths', founds' := paths[uid := path], founds[uid := found];
      assert S0.Keys - (todo - {uid}) == done + {uid};
    }

    lemma PlanningStart(zoneRoll: nat -> nat, timerRoll: nat -> nat)
      requires cellSize > 0
      ensures PlanningProgress(aiManager.states, moveManager.movements, Ctx(), homeManager.npcToHome, zoneRoll,
                               timerRoll, map[], map[], aiManager.states.Keys)
    {
      var S0 := aiManager.states;
      PartialPassNone(S0, moveManager.movements, posManager.positions,
                      PlanningStepOf(Ctx(), homeManager.npcToHome, zoneRoll, map[], timerRoll));
      assert S0.Keys - S0.Keys == {};
    }

    lemma PlanningEnd(S0: map<nat, AIState>, M0: map<nat, Movement>, ctx: Context, H: map<int, string>,
                      zoneRoll: nat -> nat, timerRoll: nat -> nat, paths: map<nat, seq<Point>>,
                      founds: map<nat, map<Point, seq<Point>>>)
      requires PlanningProgress(S0, M0, ctx, H, zoneRoll, timerRoll, paths, founds, {})
      ensures var r := PlanningPass(S0, M0, posManager.positions, ctx, H, zoneRoll, paths, timerRoll);
              aiManager.states == r.0 && moveManager.movements == r.1
      ensures PlanningPathsOk(S0, M0, posManager.positions, ctx, H, zoneRoll, paths, founds, S0.Keys)
    {
      assert S0.Keys - {} == S0.Keys;
    }

    /** `processPlanningEntities`. */
    method ProcessPlanningEntities(zoneRoll: nat -> nat, timerRoll: nat -> nat)
        returns (ghost paths: map<nat, seq<Point>>, ghost founds: map<nat, map<Point, seq<Point>>>)
      requires Valid() && CellsOnGrid()
      modifies aiManager, moveManager
      ensures var r := PlanningPass(old(aiManager.states), old(moveManager.movements), posManager.positions, Ctx(),
                                    homeManager.npcToHome, zoneRoll, paths, timerRoll);
              aiManager.states == r.0 && moveManager.movements == r.1
      ensures PlanningPathsOk(old(aiManager.states), old(moveManager.movements), posManager.positions, Ctx(),
                              homeManager.npcToHome, zoneRoll, paths, founds, old(aiManager.states).Keys)
    {
      paths, founds := map[], map[];
      ghost var S0, M0 := aiManager.states, moveManager.movements;
      ghost var ctx, H := Ctx(), homeManager.npcToHome;
      var todo := aiManager.states.Keys;
      PlanningStart(zoneRoll, timerRoll);
      while todo != {}
        invariant PlanningProgress(S0, M0, ctx, H, zoneRoll, timerRoll, paths, founds, todo)
        invariant Valid() && CellsOnGrid() && ctx == Ctx() && H == homeManager.npcToHome
        decreases |todo|
      {
        ghost var w := Pick(todo);
        var uid :| uid in todo;
        paths, founds := PlanningNext(uid, zoneRoll, timerRoll, S0, M0, ctx, H, paths, founds, todo);
        todo := todo - {uid};
      }
      PlanningEnd(S0, M0, ctx, H, zoneRoll, timerRoll, paths, founds);
    }

    /** `update`: the AI tick, then arrivals, then planning. The paths the
        two passes use are the answers `findPathToZone` gave, as recorded in
        `arriveFound` and `planFound`. */
    method Update(deltaTime: real, rolls: Rolls)
        returns (ghost arrivePaths: map<nat, seq<Point>>, ghost arriveFound: map<nat, map<Point, seq<Point>>>,
                 ghost planPaths: map<nat, seq<Point>>, ghost planFound: map<nat, map<Point, seq<Point>>>)
      requires Valid() && CellsOnGrid()
      modifies this, aiManager, moveManager
      ensures old(aiUpdateTimer) + deltaTime < aiUpdateInterval ==>
                aiUpdateTimer == old(aiUpdateTimer) + deltaTime
      ensures old(aiUpdateTimer) + deltaTime >= aiUpdateInterval ==>
                aiUpdateTimer == old(aiUpdateTimer) + deltaTime - aiUpdateInterval
      ensures var due := old(aiUpdateTimer) + deltaTime >= aiUpdateInterval;
              var t := if due then TickPass(old(aiManager.states), old(moveManager.movements), posManager.positions,
                                            Ctx(), homeManager.npcToHome, rolls.tick)
                       else (old(aiManager.states), old(moveManager.movements));
              var a := ArrivePass(t.0, t.1, posManager.positions, Ctx(), arrivePaths, rolls.arrive);
              var p := PlanningPass(a.0, a.1, posManager.positions, Ctx(), homeManager.npcToHome, rolls.replan,
                                    planPaths, rolls.handoff);
              ArrivalPathsOk(t.0, t.1, posManager.positions, arrivePaths, arriveFound, t.0.Keys)
              && PlanningPathsOk(a.0, a.1, posManager.positions, Ctx(), homeManager.npcToHome, rolls.replan,
                                 planPaths, planFound, a.0.Keys)
              && aiManager.states == p.0 && moveManager.movements == p.1
    {
      UpdateAI(deltaTime, rolls.tick);
      arrivePaths, arriveFound := ProcessArrivingEntities(rolls.arrive);
      planPaths, planFound := ProcessPlanningEntities(rolls.replan, rolls.handoff);
    }
  }
}

# Brenda NPC scheduler — a Dafny model

Brenda is a small 2-D town simulation. A tile grid, loaded from a Tiled map
or a JSON file, holds obstacles, movement costs and named zones. NPCs live
on that grid, and a simulated clock drives their daily routine. A tick
scheduler runs the clock every frame, the AI every half second and the
movement system about every 16 ms. The AI picks a target zone: home at
sleep time, "Work" in work hours, then food, leisure in the evening, or any
zone otherwise. It plans a path to the zone with A* (`Pathfinder`),
performs an activity on arrival and replans when the hour no longer suits
the target. A home manager hands out six home names first-fit. Next to the
scheduler there is a small entity-component-system: entity ids with reuse,
typed component storages, a system list and a world that combines them. A
movement system and a keyboard player controller step entities towards
their targets. Four Python scripts clean the tile list of
`environment.json`: they remove duplicate tiles, drop Grass tiles lying on
Path tiles, generate Grass for every empty cell, and insert the generated
block after a marker comment.

The model follows the program's structure, one module per source
component:

- Pure logic is written as datatypes, functions and lemmas. This covers the
  time-of-day tables, the cell cycle, the tileset lookup, the per-agent AI
  decisions of `Behaviour`, the movement arithmetic and the text handling
  of the scripts.
- Objects whose methods update their fields are classes with `modifies`
  frames:
  - `Clock` and `TimeOfDay`;
  - `TickManager`, `Grid` and `Pathfinder`;
  - `HomeManager`, `EntityManager`, `ComponentRegistry`, `SystemManager`
    and `World`;
  - the position, movement, AI and controller managers;
  - `MovementSystem` and `AISystem`.
- Every loop of the C++ core and every loop statement of the scripts is a
  method with a `while` loop, proved against a specification function.
  Two loops are folds instead: the tile-entry loop inside one tileset
  (`TiledParser.BuildTileset`) and the list comprehension of
  fix_grass_conflicts.py (`GrassConflicts.KeepNonConflicting`). Examples are the A* search over its `gCost`
  and `cameFrom` arrays, the zone scan of `findPathToZone`, the three AI
  passes over the agent map, the movement pass, and the line loops of the
  scripts.

The main properties proved are:

- `findPath` returns a path exactly when one exists, and a cheapest one
  when every passable cell costs at least one.
- The scheduler's list stays sorted by priority and is a permutation of
  the registrations made.
- A home is never given to two NPCs, and at most six are housed.
- Two couplings hold through every pass of a frame: between an agent's AI
  state and its movement record, and between the movement phases.
- Entity ids are reused oldest-first and wrap past the 32-bit limit.
- Each script's output is characterised exactly; for example, deduplication
  keeps the first tile of each cell. The two clean-up scripts are idempotent.

Where the code does something its comments describe differently, or
behaves in a way a reader might not expect, the model follows the code:

- The `Clock` constructor sets 8:00, but the 8-hour start offset in
  `updateTimeComponents` is commented out. The first update therefore
  derives hour 0 (src/Clock.cpp:30-35), and `Clock.NoStartOffset` states
  this.
- At noon the suggested activity is "Working", although noon is also a meal
  time, because work hours are checked first.
- The fallback label of `getSuggestedActivity` comes from the stored
  period, not from the hour.
- `PlayerController` consults only `isMoving`, so a record in the planning
  phase can be given a new target.
- `TiledParser` ignores unnamed objects, and objects less than 32 pixels
  wide or high.

Floats are modelled as mathematical reals. C++ truncating casts, integer
division and `%` are written out explicitly (`Util.CppDiv`, `Util.CppMod`).

The `rand()` calls of the AI become parameters: a `Rolls` value holds one
oracle per call site, indexed by the agent's id. The distance computed
with `sqrt` becomes a `norm` function parameter about which nothing is
assumed. Iteration over an `unordered_map` visits the keys in an arbitrary
order. The zone table is a sequence of (name, zone) pairs with unique
names, kept in first-insertion order (see "## Left out").

## Model

| member | source | states |
|---|---|---|
| Util.Contains | src/AISystem.cpp:118 | true exactly when the pattern occurs at some position of the string (the `find(...) != npos` test) |
| Util.PadTwo | src/Clock.cpp:46-47 | for 0..99, two decimal digits spelling the number, zero-padded |
| Util.NatToString | src/Clock.cpp:45 | decimal digits that spell the number, with no leading zero |
| Util.IntToString | src/Clock.cpp:45 | a leading '-' exactly for negative numbers, then decimal digits spelling the magnitude with no leading zero |
| Util.DecValueSign | src/Clock.cpp:45 | a digit string spells a non-negative number, a positive one when it does not start with '0' |
| Util.DecimalUnique | src/Clock.cpp:45 | the rendering is the only digit string without a leading zero that spells the number |
| Util.CppDiv | src/Clock.cpp:28 | C++ integer division truncating toward zero: agrees with floor division on non-negative operands and is non-negative when the signs agree |
| Util.CppMod | src/Clock.cpp:34-36 | the C++ remainder `a - (a / b) * b` with truncating division |
| Util.CppModBounds | src/Clock.cpp:34-36 | the C++ remainder of a non-negative number lies in [0, b), of a negative one in (-b, 0] |
| Util.TruncBounds | src/Clock.cpp:27 | `static_cast<int>` of a float truncates toward zero: within one of the value, below it for positives and above it for negatives |
| TimeOfDay.CalculatePeriod | src/TimeOfDay.cpp:11-17 | Dawn iff 5 <= h < 8, Morning iff 8 <= h < 12, Afternoon iff 12 <= h < 17, Evening iff 17 <= h < 20, Night otherwise (including hours outside 0..23) |
| TimeOfDay.PeriodName | src/TimeOfDay.cpp:19-28 | the period's name is never empty |
| TimeOfDay.SuggestedActivityFor | src/TimeOfDay.cpp:56-69 | "Sleeping" in sleep hours, else "Working" in work hours, else "Eating" at meal times, else the label of the stored period |
| TimeOfDay.TimeOfDay.constructor | src/TimeOfDay.cpp:3-5 | a new object holds Morning |
| TimeOfDay.TimeOfDay.UpdateFromHour | src/TimeOfDay.cpp:7-9 | the stored period becomes the period of the hour |
| TimeOfDay.TimeOfDay.PeriodString | src/TimeOfDay.cpp:19-28 | one of the five period names, the one of the stored period |
| TimeOfDay.TimeOfDay.SuggestedActivity | src/TimeOfDay.cpp:56-69 | the suggestion for the stored period and the given hour |
| TimeOfDay.TimeOfDay.DayIsNotNight | src/TimeOfDay.cpp:30-39 | `isDay()` holds exactly when `isNight()` does not |
| TimeOfDay.PeriodPartition | src/TimeOfDay.cpp:11-17 | every hour 0..23 gets one of the five periods, Night exactly before 5 and from 20 on |
| TimeOfDay.SleepExcludesWorkAndMeals | src/TimeOfDay.cpp:41-54 | a sleep hour is neither a work hour nor a meal time |
| TimeOfDay.WorkMealOverlap | src/TimeOfDay.cpp:41-54 | work hours and meal times overlap exactly at hour 12 |
| TimeOfDay.NoonSuggestsWorking | src/TimeOfDay.cpp:56-59 | at hour 12 the suggestion is "Working" whatever the stored period |
| TimeOfDay.FallbackUsesStoredPeriod | src/TimeOfDay.cpp:61-67 | the fallback label comes from the stored period: at hour 6 a stored Night gives "Resting" although hour 6 is Dawn |
| TimeOfDay.GoodTimeRanges | src/TimeOfDay.cpp:71-83 | good for work iff 9 <= h < 17; good for sleep iff h < 6 or h >= 22; good for leisure in the hour's own period iff 6 <= h < 9 or 12 <= h < 22; with any stored period, iff that period is Afternoon or Evening or 6 <= h < 9 or 17 <= h < 22 |
| TimeOfDay.GoodTimeOverlaps | src/TimeOfDay.cpp:71-83 | in the hour's own period no hour is good for both sleep and leisure, and the hours good for both work and leisure are exactly 12 <= h < 17 |
| Clock.Clock.constructor | src/Clock.cpp:5-16 | zero seconds, 8:00 on day 1, the given scale, not paused, period Morning |
| Clock.Clock.DefaultTimeScale | src/Clock.h:7 | the default scale is 60 |
| Clock.Clock.Update | src/Clock.cpp:18-23 | paused: nothing changes; otherwise the seconds grow by delta times scale and minute, hour and day are re-derived from them; the period stays that of the hour |
| Clock.Clock.UpdateTimeComponents | src/Clock.cpp:25-41 | minute, hour and day become those derived from the seconds (truncating casts and C++ division), and the period follows the hour |
| Clock.Clock.TimeString | src/Clock.cpp:43-49 | for an hour 0..23 and a minute 0..59, "Day ", the day in decimal, " - ", then HH:MM with two digits each |
| Clock.Clock.SetTimeScale | src/Clock.h:25 | the scale changes and nothing else |
| Clock.Clock.Pause | src/Clock.h:27 | paused afterwards; time fields unchanged |
| Clock.Clock.Resume | src/Clock.h:28 | not paused afterwards; time fields unchanged |
| Clock.DerivedBounds | src/Clock.cpp:27-36 | for non-negative seconds the minute is in 0..59, the hour in 0..23, the day at least 1, and all are floor arithmetic on the minutes |
| Clock.NoStartOffset | src/Clock.cpp:35 | during the first simulated hour the derived hour is 0 and the day 1: no 8 o'clock offset is applied |
| Clock.DayMonotone | src/Clock.cpp:36 | the day never decreases as the seconds grow |
| Clock.FormatTimeShape | src/Clock.cpp:43-49 | the text is "Day ", the day in decimal, " - ", the two-digit hour, ':' and the two-digit minute |
| Clock.FormatTimeExample | src/Clock.cpp:43-49 | day 12 at 7:05 is shown as "Day 12 - 07:05" |
| Clock.FirstUpdateExample | src/Clock.cpp:5-41 | a fresh clock updated by less than a simulated hour shows hour 0 in period Night |
| Ticks.NewRegistration | src/TickManager.h:22-23 | a registration starts with last tick time 0 and keeps callback, interval and priority |
| Ticks.DueIndices | src/TickManager.h:53-54 | the positions of the due registrations, strictly increasing, each in range, holding exactly the due ones |
| Ticks.TickedAll | src/TickManager.h:53-59 | same length; each due registration gets last tick time `now`, the others are unchanged |
| Ticks.DueCallsInOrder | src/TickManager.h:40-59 | a pass calls each registration at most once, in list order, and so in non-decreasing priority on a sorted list |
| Ticks.ZeroIntervalFires | src/TickManager.h:54 | a zero interval fires on every pass that does not move time backwards |
| Ticks.DueDeltaAtLeastInterval | src/TickManager.h:54-56 | the delta a callback receives is at least its interval |
| Ticks.InsertKeepsOrder | src/TickManager.h:37-45 | inserting after the registrations of no higher priority keeps priority order and adds exactly the new registration |
| Ticks.TickManager.constructor | src/TickManager.h:27-28 | no registrations; total time 0 |
| Ticks.TickManager.RegisterSystem | src/TickManager.h:37-45 | the list stays sorted by priority and is a permutation of the old list plus the new registration |
| Ticks.TickManager.Update | src/TickManager.h:50-60 | total time grows by delta; the calls made are exactly the due registrations in order with their elapsed time; the list becomes the ticked list |
| Ticks.TickManager.ForceTick | src/TickManager.h:65-70 | every registration is called once with the given delta and stamped with the unchanged total time |
| Ticks.TickManager.ResetTimers | src/TickManager.h:80-85 | total time and every last tick time become 0; order kept |
| Frame.JobsOf | src/main.cpp:178-188 | one job per fired call, in order, each the work of that call's callback |
| Frame.NewMainScheduler | src/main.cpp:178-188 | after the three registrations the list is clock (0 s, priority 0), AI (0.5 s, 1), movement (0.016 s, 2) |
| Frame.RunFrame | src/main.cpp:328-341 | the jobs are the scheduler's due calls unless paused, then a movement update, arrival and planning; a paused frame leaves the scheduler alone |
| Frame.RunCallbacks | src/main.cpp:178-188 | the callbacks run are exactly the jobs of the fired calls, in order |
| Frame.SortedPermutationUnique | src/TickManager.h:40-44 | two priority-sorted lists with the same elements and distinct priorities are equal, so the sort's result is determined |
| Frame.TickedKeepsShape | src/TickManager.h:53-59 | a pass changes only last tick times, so the three registrations keep their shape |
| Frame.MainDueCalls | src/main.cpp:178-188 | the due calls of the main schedule are the clock's, the AI's and the movement's, each when due and in that order |
| Frame.UnpausedFrame | src/main.cpp:328-341 | an unpaused frame updates the clock first, ends with move, arrive and plan, and moves twice exactly when the movement registration is due |
| Frame.PausedFrame | src/main.cpp:334-341 | a paused frame runs no scheduled system but still moves once and runs arrival and planning |
| Grid.DefaultCell | src/Grid.h:26-30 | a default cell has no obstacle and cost 1 |
| Grid.FindZone | src/Grid.h:299 | absent exactly when no entry has the name; otherwise the zone of an entry with that name |
| Grid.FindZoneUnique | src/Grid.h:299 | with unique names, looking a stored name up finds its own zone |
| Grid.SetZoneFind | src/Grid.h:171-176 | after `zones[name] = zone` the name finds the new zone and every other name finds what it found before |
| Grid.SetZoneNames | src/Grid.h:171-176 | storing adds at most the one name and keeps the names unique |
| Grid.IndexInRange | src/Grid.h:42-48 | an in-bounds (x, y) addresses the row-major vector |
| Grid.IndexInjective | src/Grid.h:42-48 | in-bounds coordinates address the same cell exactly when they are equal |
| Grid.CoordsOfIndex | src/Grid.h:42-48 | the column and row are recovered from `y * width + x` by remainder and quotient |
| Grid.IndexSurjective | src/Grid.h:42-48 | every vector position of a well-formed grid is the index of in-bounds coordinates |
| Grid.NextTile | src/Grid.h:194-226 | a click always changes the obstacle type |
| Grid.CycleSixRestores | src/Grid.h:194-226 | six clicks bring the type back, with the cycle's cost for that type |
| Grid.NextTileCanonical | src/Grid.h:200-225 | every clicked cell carries the cost the cycle assigns to its type |
| Grid.JsonObstacleType | src/Grid.h:142-161 | an obstacle exactly for the five names Wall, Water, Forest, Grass and Path |
| Grid.TileCell | src/Grid.h:160-162 | the entry's type, and the cost from the property table or 1 |
| Grid.ApplyTiles | src/Grid.h:151-165 | the cell vector keeps its length |
| Grid.LastTileAt | src/Grid.h:151-165 | the position of the last entry naming (x, y), or -1 when none does |
| Grid.ApplyTilesLastWins | src/Grid.h:151-165 | the last entry naming an in-bounds cell decides it; unnamed cells keep their default; out-of-bounds entries are ignored |
| Grid.Grid.GetTerrain | src/Grid.h:302-304 | the width, height and cells of the grid |
| Grid.Grid.constructor | src/Grid.h:39-40 | width x height default cells and no zones |
| Grid.Grid.At | src/Grid.h:42-48 | the cell at `y * width + x` |
| Grid.Grid.CycleTileType | src/Grid.h:194-226 | out of bounds nothing changes; otherwise only the clicked cell advances one step in the cycle |
| Grid.Grid.ApplyParsedTiles | src/Grid.h:127-165 | the cells are re-initialised to w x h default cells and then every tile entry is applied in order |
| Grid.Grid.ApplyParsedZones | src/Grid.h:167-178 | every zone entry is stored under its name in order; names stay unique; cells unchanged |
| Grid.ApplyZoneEntriesUnique | src/Grid.h:167-178 | storing the entries keeps the names unique |
| Grid.LastEntryNamed | src/Grid.h:167-178 | the position of the last entry with a name, or -1 |
| Grid.ZoneEntriesLastWins | src/Grid.h:167-178 | the last entry with a name decides that zone; other names keep their zone |
| TiledParser.StringToObstacleType | src/TiledParser.h:236-254 | Wall, Water, Forest, Grass and Path exactly for their capitalised or lower-case names; every other name is no obstacle |
| TiledParser.DefaultCost | src/TiledParser.h:256-265 | never negative; 0 exactly for Path; above 1 exactly for Wall, Water and Forest |
| TiledParser.BuildTileset | src/TiledParser.h:88-128 | the tileset keeps its firstgid, and every typed global id is firstgid plus the local id of a tile entry with a type |
| TiledParser.LoadTilesets | src/TiledParser.h:88-131 | at most one tileset per reference, exactly one each when none is external |
| TiledParser.TilesetForMeaning | src/TiledParser.h:174-183 | no tileset exactly when every firstgid exceeds the gid; otherwise one starting at or below the gid with every later tileset starting above it |
| TiledParser.TilesetForNone | src/TiledParser.h:174-183 | no tileset is found exactly when every firstgid exceeds the gid |
| TiledParser.TilesetForLast | src/TiledParser.h:174-181 | a found tileset starts at or below the gid and no later tileset does |
| TiledParser.FindTileset | src/TiledParser.h:174-181 | the reverse scan returns the tileset the gid belongs to |
| TiledParser.TileCellFor | src/TiledParser.h:186-200 | the type is replaced only when the tileset names one; the cost comes from the tileset, or else is the default cost of the resulting type |
| TiledParser.TileLayerCells | src/TiledParser.h:156-204 | a tile layer leaves the number of cells unchanged |
| TiledParser.TileLayerCellsAt | src/TiledParser.h:163-201 | each in-bounds cell is rewritten from the layer's non-zero gid at that cell when a tileset covers it, and kept otherwise |
| TiledParser.ObjectZones | src/TiledParser.h:210-233 | every zone added has a name and a positive tile width and height; at most one per object |
| TiledParser.NarrowObjectIgnored | src/TiledParser.h:221-227 | an object under 32 pixels wide adds no zone |
| TiledParser.ApplyLayer | src/TiledParser.h:135-149 | a layer keeps the grid's size and the zone names unique; an invisible layer changes nothing |
| TiledParser.ApplyLayers | src/TiledParser.h:134-150 | the layers keep the grid's size and the zone names unique |
| TiledParser.LoadedMap | src/TiledParser.h:75-150 | a successful load leaves a width x height grid with unique zone names |
| TiledParser.InvisibleLayersSkipped | src/TiledParser.h:140 | invisible layers do not contribute |
| TiledParser.ProcessTileLayer | src/TiledParser.h:156-204 | the nested loop writes the cells of the layer function; size and zones unchanged |
| TiledParser.ProcessTileCell | src/TiledParser.h:168-200 | one iteration writes exactly cell (x, y) as the layer function says |
| TiledParser.ProcessObjectGroup | src/TiledParser.h:206-234 | the zones become the old table with every object's zone stored in order; cells unchanged |
| TiledParser.LoadTiledMap | src/TiledParser.h:53-153 | success exactly when the type is "map"; on failure the grid is untouched, on success it holds the loaded map |
| TiledParser.LoadTilesetsLoop | src/TiledParser.h:87-131 | the loop over the references in file order builds the embedded tilesets, skipping external ones |
| TiledParser.LoadTilesetsSnoc | src/TiledParser.h:93-127 | one more reference appends its tileset, unless it is external |
| Paths.Heuristic | src/Pathfinder.cpp:24-27 | the Manhattan distance is never negative |
| Paths.HeuristicProperties | src/Pathfinder.cpp:24-27 | the Manhattan distance is symmetric and zero exactly between equal points |
| Paths.NeighborsAreAdjacent | src/Pathfinder.cpp:55-67 | each of the four moves reaches a different point one step away |
| Paths.AdjacentIsNeighbor | src/Pathfinder.cpp:55-67 | every point one step away is one of the four moves |
| Paths.HeuristicStep | src/Pathfinder.cpp:24-27 | one move changes the distance to the goal by at most one |
| Paths.HeuristicAdmissible | src/Pathfinder.cpp:24-27 | with every passable cell costing at least one, no walk costs less than the Manhattan distance between its ends |
| Pathfinder.IdxPt | src/Pathfinder.cpp:32-37 | the vector index of an in-bounds point is in range and gives the point back |
| Pathfinder.PtIdx | src/Pathfinder.cpp:32-37 | every vector position stands for an in-bounds point |
| Pathfinder.InitInv | src/Pathfinder.cpp:49-53 | the initial vectors and the one-entry open set satisfy the search invariant |
| Pathfinder.PopInv | src/Pathfinder.cpp:59-60 | popping a least entry other than the goal keeps the invariant with that cell still to expand |
| Pathfinder.SkipInv | src/Pathfinder.cpp:69-73 | a neighbour outside the grid or a wall needs no work |
| Pathfinder.KeepInv | src/Pathfinder.cpp:75-78 | a neighbour whose tentative cost does not improve is already relaxed |
| Pathfinder.ImproveInv | src/Pathfinder.cpp:78-83 | recording the parent, the lower cost and pushing the neighbour keeps the invariant |
| Pathfinder.ImproveMeasure | src/Pathfinder.cpp:78-80 | each improvement reaches a new cell or lowers the summed cost, so the search terminates on non-negative costs |
| Pathfinder.DoneInv | src/Pathfinder.cpp:66-84 | after the four neighbours the expanded cell is relaxed and the full invariant holds |
| Pathfinder.OpenOnWalk | src/Pathfinder.cpp:58-85 | while any walk to the goal starts at a reached cell the open set is not empty, and, when every passable cell costs at least one, some entry's priority bounds the walk's cost |
| Pathfinder.GoalCostOptimal | src/Pathfinder.cpp:62-63 | when every passable cell costs at least one and the goal is popped as a least entry its cost is no larger than that of any path |
| Pathfinder.GoalPathOptimal | src/Pathfinder.cpp:62-63 | the path rebuilt when the goal is popped meets the findPath contract |
| Pathfinder.ExhaustedUnreachable | src/Pathfinder.cpp:58-87 | when the open set runs empty no path from start to goal exists |
| Pathfinder.ExhaustedFound | src/Pathfinder.cpp:87 | so the empty answer then meets the findPath contract |
| Pathfinder.MinExists | src/Pathfinder.cpp:59 | a nonempty open set has an entry of least f |
| Pathfinder.ScanStep | src/Pathfinder.cpp:102-106 | visiting a non-wall zone cell records findPath's answer and keeps the first of the fewest |
| Pathfinder.KeepFirstFewest | src/Pathfinder.cpp:104-106 | the keep-or-replace test keeps the result the first nonempty one with fewest cells |
| Pathfinder.ScanSkip | src/Pathfinder.cpp:102 | a wall cell of the zone is not searched |
| Pathfinder.RowDone | src/Pathfinder.cpp:100-101 | a finished row moves the scan to the next one |
| Pathfinder.ScanDone | src/Pathfinder.cpp:100-111 | after the last row every non-wall zone cell has findPath's answer recorded and the result is the first of the fewest |
| Pathfinder.ZoneResultMeaning | src/Pathfinder.cpp:90-112 | an empty answer for a known zone means no non-wall zone cell other than the start is reachable; a nonempty one is a path from the start ending on a non-wall zone cell |
| Pathfinder.Pathfinder.constructor | src/Pathfinder.cpp:22 | the pathfinder reads the given grid |
| Pathfinder.Pathfinder.FindPath | src/Pathfinder.cpp:43-88 | empty for start == end or a wall at the goal; otherwise a path from start to goal exactly when one exists, and a cheapest one when every passable cell costs at least one |
| Pathfinder.Pathfinder.PathAtGoal | src/Pathfinder.cpp:62-64 | the path read back when the goal is popped meets the findPath contract |
| Pathfinder.Pathfinder.ExpandNode | src/Pathfinder.cpp:66-84 | the neighbour loop restores the search invariant and never increases the termination measure |
| Pathfinder.Pathfinder.RelaxNeighbor | src/Pathfinder.cpp:67-83 | one neighbour is skipped, kept or improved, and the invariant extends to it |
| Pathfinder.Pathfinder.ImproveCell | src/Pathfinder.cpp:78-83 | an improvement extends the invariant and strictly lowers the termination measure |
| Pathfinder.Pathfinder.ReconstructStep | src/Pathfinder.cpp:34-37 | each step back goes to a reached adjacent parent, the walk grows by it and its cost stays within the goal's recorded cost |
| Pathfinder.Pathfinder.ReconstructPath | src/Pathfinder.cpp:29-41 | the walk back through cameFrom is a path from the start to the cell costing no more than the cell's recorded cost |
| Pathfinder.Pathfinder.ReconstructEnd | src/Pathfinder.cpp:34 | the walk back stops only at the start |
| Pathfinder.Pathfinder.FindPathToZone | src/Pathfinder.cpp:90-112 | empty for an unknown zone; otherwise findPath is asked for every non-wall zone cell and the result is empty exactly when every answer is, else the first of those with fewest cells |
| Homes.HomePool | src/HomeManager.h:21-26 | six distinct home names, "Home" first |
| Homes.FirstFree | src/HomeManager.h:38-46 | the position of the first pool name nobody lives in, or -1 exactly when every one is taken |
| Homes.HousedBound | src/HomeManager.h:16-18 | while the two maps are mutual inverses over pool names, no more NPCs are housed than the pool has names |
| Homes.AtMostSixHoused | src/HomeManager.h:21-50 | at most six NPCs are ever housed |
| Homes.FreedHomeIsEligible | src/HomeManager.h:82-89 | after a home is freed, first-fit finds a free pool name again |
| Homes.ZoneCentreInside | src/HomeManager.h:102-103 | the centre of a non-empty zone lies inside it |
| Homes.HomeManager.constructor | src/HomeManager.h:21-26 | the pool of six names and no assignment |
| Homes.HomeManager.AssignHome | src/HomeManager.h:31-50 | an NPC with a home keeps it and gets true; otherwise the first free pool name is assigned in both maps and true returned, or false with nothing changed when every home is taken; the maps stay mutual inverses |
| Homes.HomeManager.GetNpcHome | src/HomeManager.h:55-58 | the NPC's home, and "" exactly when it has none |
| Homes.HomeManager.GetHomeResident | src/HomeManager.h:63-66 | the resident, or -1 for a free home; the resident's home is that home |
| Homes.HomeManager.UnassignHome | src/HomeManager.h:82-89 | both directions of the NPC's assignment are removed and nothing else; the maps stay mutual inverses |
| Homes.HomeManager.GetNpcHomeCoordinates | src/HomeManager.h:94-107 | none exactly when the NPC has no home or the zone is missing; otherwise the centre of the home zone |
| Entities.Succ | src/ECS/EntityManager.cpp:15 | the 32-bit increment: one more, or 0 after the all-ones id |
| Entities.EntityManager.constructor | src/ECS/EntityManager.cpp:50-56 | the counter at 1, nothing alive and nothing queued |
| Entities.EntityManager.CreateEntity | src/ECS/EntityManager.cpp:6-26 | the oldest freed id is reused, else the counter is issued and advanced, wrapping from the invalid id to 1 with the counter at 2; the id is valid and becomes alive; before any wrap-around it was not alive and ids stay unique |
| Entities.EntityManager.DestroyEntity | src/ECS/EntityManager.cpp:28-36 | true exactly for a living entity, which is then not alive and queued for reuse; otherwise nothing changes |
| Entities.EntityManager.GetEntityCount | src/ECS/EntityManager.cpp:42-44 | the number of living entities |
| Entities.EntityManager.NoneAliveIffZero | src/ECS/EntityManager.cpp:38-44 | the count is 0 exactly when no entity is alive |
| Entities.EntityManager.Clear | src/ECS/EntityManager.cpp:50-56 | nothing alive, nothing queued, the counter back at 1 |
| Components.Storage.AddComponent | src/ECS/ComponentRegistry.h:30-34 | the entity's component becomes the new one; other entities unchanged |
| Components.Storage.GetComponent | src/ECS/ComponentRegistry.h:36-39 | present exactly when the entity has a component, and then that component |
| Components.Storage.RemoveComponent | src/ECS/ComponentRegistry.h:45-47 | the entity has no component afterwards; other entities unchanged; removing an absent one changes nothing |
| Components.Storage.Clear | src/ECS/ComponentRegistry.h:49-51 | no entity has a component |
| Components.RemoveUndoesAdd | src/ECS/ComponentRegistry.h:30-47 | adding then removing an entity's component equals removing it |
| Components.ComponentRegistry.constructor | src/ECS/ComponentRegistry.h:66 | no storages |
| Components.ComponentRegistry.StorageOf | src/ECS/ComponentRegistry.h:69-82 | the type's storage, or an empty one for an unseen type |
| Components.ComponentRegistry.AddComponent | src/ECS/ComponentRegistry.h:100-105 | the type's storage is created if needed and holds the component; every other (type, entity) pair unchanged |
| Components.ComponentRegistry.GetComponent | src/ECS/ComponentRegistry.h:110-121 | present exactly when the type has a storage holding the entity, and then that component |
| Components.ComponentRegistry.RemoveComponent | src/ECS/ComponentRegistry.h:141-149 | the component is gone; an unseen type creates no storage; every other pair unchanged |
| Components.ComponentRegistry.RemoveAllComponents | src/ECS/ComponentRegistry.cpp:5-9 | the entity is erased from every storage; the set of storages and other entities unchanged |
| Components.ComponentRegistry.GetAllComponents | src/ECS/ComponentRegistry.h:159-167 | exactly the entities holding a component of the type, with those components; empty for an unseen type |
| Components.ComponentRegistry.Clear | src/ECS/ComponentRegistry.cpp:11-15 | every storage is emptied and kept |
| Systems.FirstOfKind | src/ECS/SystemManager.h:46-54 | the position of the earliest system of the kind, and none exactly when no system has that kind |
| Systems.FirstOfKindStable | src/ECS/SystemManager.h:30-54 | adding systems never changes which system an earlier match finds |
| Systems.FirstIsHere | src/ECS/SystemManager.h:48-51 | the first match of a front-to-back scan is the earliest system of the kind |
| Systems.SystemManager.constructor | src/ECS/SystemManager.h:24 | no systems |
| Systems.SystemManager.AddSystem | src/ECS/SystemManager.h:30-36 | the new system is appended and handed back; earlier systems keep their places |
| Systems.SystemManager.GetSystem | src/ECS/SystemManager.h:46-54 | the earliest-added system of the kind, or none exactly when there is none |
| Systems.SystemManager.UpdateSystems | src/ECS/SystemManager.cpp:5-9 | one update call per system, in insertion order, all with the same time step |
| Systems.SystemManager.Clear | src/ECS/SystemManager.cpp:11-13 | no systems |
| EcsWorld.World.constructor | src/ECS/World.h:14-18 | nothing alive, no storages, no systems; the id counter at 1 and no freed ids |
| EcsWorld.World.CreateEntity | src/ECS/World.cpp:5-7 | the new id is alive and is the only entity added; it is the oldest freed id (dropped from the queue, counter kept) when one is queued, else the counter (which then advances), and 1 with the counter at 2 when the counter has reached INVALID_ENTITY; while ids are unique and an id is available, the new id was not alive before and ids stay unique |
| EcsWorld.World.DestroyEntity | src/ECS/World.cpp:9-19 | true exactly for a living entity, which loses every component and then its life; otherwise nothing changes; other entities' components unchanged; a destroyed id joins the back of the free queue, the counter is kept and unique ids stay unique |
| EcsWorld.World.AddComponent | src/ECS/World.h:48-54 | no component and no change for an entity that is not alive; otherwise the stored component, every other (type, entity) pair unchanged |
| EcsWorld.World.GetComponent | src/ECS/World.h:62-65 | present exactly when the registry holds a component of the type for the entity, alive or not |
| EcsWorld.World.RemoveComponent | src/ECS/World.h:83-86 | the component is gone; every other pair unchanged |
| EcsWorld.World.GetAllComponents | src/ECS/World.h:99-102 | exactly the entities with a component of the type |
| EcsWorld.World.Update | src/ECS/World.cpp:29-31 | one update call per system, in order, with the frame's time step |
| EcsWorld.World.GetEntityCount | src/ECS/World.cpp:33-35 | the number of living entities |
| EcsWorld.World.Clear | src/ECS/World.cpp:37-41 | no systems, every storage emptied but kept, nothing alive, the id counter back at 1 and the free queue empty |
| EcsWorld.FreshWorldIds | src/ECS/World.cpp:5-19 | in a new world the first two entities get ids 1 and 2, and after the first is destroyed the next entity gets id 1 again |
| TileText.CoordsSnoc | remove_duplicates.py:20-23 | the cells of a list with one more tile are the old cells plus that tile's cell |
| TileText.StripEnds | insert_grass.py:7 | the stripped text neither starts nor ends with whitespace |
| TileText.StripSlice | insert_grass.py:7 | the stripped text is a slice of the input and everything cut away is whitespace |
| TileText.StripIdempotent | insert_grass.py:7 | stripping twice is stripping once |
| TileText.SplitLines | remove_duplicates.py:38 | at least one piece, none holding a newline |
| TileText.JoinSplit | insert_grass.py:19-33 | joining the split text with newlines gives the text back |
| TileText.SplitJoin | insert_grass.py:19-33 | splitting newline-free lines joined with newlines gives the lines back |
| TileText.TileLines | remove_duplicates.py:51 | one tile line per tile, in order |
| TileText.TileLineNoNewline | remove_duplicates.py:51 | a tile line holds no newline when its type does not |
| TileText.JoinWithCommas | generate_grass.py:45 | joining with ",\n" is joining the comma-terminated rows with "\n" |
| TileText.CommaFileLines | generate_grass.py:45 | a ",\n"-joined file of newline-free lines reads back as those lines, all but the last ending in a comma |
| TileBlock.AppendRows | remove_duplicates.py:49-51 | the output is extended by exactly one row per tile, in order |
| TileBlock.RewriteTilesBlock | remove_duplicates.py:34-62 | the output lines are those of the line-by-line rewrite of the tiles section |
| TileBlock.RewriteFromConcat | remove_duplicates.py:38-62 | the rewrite over two runs of lines is the rewrite of the second from where the first ended |
| TileBlock.CopiesOutside | remove_duplicates.py:58-62 | outside the tiles section, lines with no section opening are copied as they are |
| TileBlock.SkipsInside | remove_duplicates.py:57-59 | inside the tiles section, lines that neither open nor close it are dropped |
| TileBlock.NoSectionUnchanged | remove_duplicates.py:38-62 | a file with no tiles section is written back line for line |
| TileBlock.SectionReplaced | remove_duplicates.py:38-62 | for a file with one tiles section, the lines before and after it, its opening and its closing line stay, and the old tile lines are replaced by the rows of the cleaned tiles |
| TileBlock.RowsShape | remove_duplicates.py:49-51 | one row per tile, in order, with a comma on every row but the last |
| TileDedup.DedupTiles | remove_duplicates.py:16-23 | the kept tiles are the first tile of each cell in file order, and the removed count is the length difference |
| TileDedup.RemoveDuplicateTiles | remove_duplicates.py:16-62 | the kept tiles, the printed count of duplicates (tiles minus distinct cells) and the rewritten lines |
| TileDedup.FirstTilesSnoc | remove_duplicates.py:19-23 | one more tile is kept exactly when its cell has not been seen |
| TileDedup.FirstTilesAreFirstOccurrences | remove_duplicates.py:16-23 | the kept tiles are exactly the tiles no earlier tile shares a cell with, in order |
| TileDedup.FirstTilesDistinct | remove_duplicates.py:16-23 | no two kept tiles share a cell |
| TileDedup.FirstTilesCells | remove_duplicates.py:16-23 | every cell of the input keeps a tile and no other cell appears |
| TileDedup.FirstTilesCount | remove_duplicates.py:27-29 | the number kept is the number of distinct cells |
| TileDedup.DistinctKept | remove_duplicates.py:19-23 | tiles on distinct cells are all kept |
| TileDedup.DedupIdempotent | remove_duplicates.py:16-31 | running the clean-up a second time removes nothing more |
| GrassConflicts.CollectPathCells | fix_grass_conflicts.py:17-20 | exactly the cells of the Path tiles |
| GrassConflicts.FixGrassConflicts | fix_grass_conflicts.py:17-63 | the kept tiles, the printed removed count (the number of conflicting tiles) and the rewritten lines |
| GrassConflicts.PathCellsSnoc | fix_grass_conflicts.py:18-20 | one more tile adds its cell exactly when it is a Path tile |
| GrassConflicts.KeptMembers | fix_grass_conflicts.py:26-27 | a tile survives exactly when it is not a Grass tile on a Path cell |
| GrassConflicts.KeepConcat | fix_grass_conflicts.py:26-27 | the filter keeps file order: it distributes over concatenation |
| GrassConflicts.RemovedCount | fix_grass_conflicts.py:25-29 | the length difference is the number of conflicting tiles |
| GrassConflicts.PathTilesKept | fix_grass_conflicts.py:26-27 | Path tiles are never removed, so the Path cells stay the same |
| GrassConflicts.PathCellsConcat | fix_grass_conflicts.py:17-20 | the Path cells of two lists together are the union of theirs |
| GrassConflicts.NoConflictsLeft | fix_grass_conflicts.py:24-27 | afterwards no Grass tile shares a cell with a Path tile |
| GrassConflicts.FixIdempotent | fix_grass_conflicts.py:24-27 | running the fix a second time removes nothing more |
| GrassConflicts.KeepAll | fix_grass_conflicts.py:26-27 | a list with no conflicting tile is kept whole |
| GrassGen.ExistingCells | generate_grass.py:19-21 | exactly the cells of the tiles |
| GrassGen.MissingCells | generate_grass.py:27-32 | exactly the grid cells no tile occupies, in row-major order |
| GrassGen.MissingInRow | generate_grass.py:30-32 | one row adds exactly that row's unoccupied cells, after all earlier ones |
| GrassGen.GrassTiles | generate_grass.py:38-39 | one Grass tile per missing cell, in order |
| GrassGen.GrassLines | generate_grass.py:37-39 | one Grass tile line per missing cell, in order |
| GrassGen.GenerateGrass | generate_grass.py:19-45 | the missing cells, in row-major order, and the text of the grass file built from them |
| GrassGen.SortedDistinct | generate_grass.py:29-32 | the generated list names no cell twice |
| GrassGen.MissingCompletesGrid | generate_grass.py:27-32 | existing and missing cells together cover the grid and never overlap |
| GrassGen.SortedUnique | generate_grass.py:29-32 | two row-major sorted lists of the same cells are equal, so the list is determined |
| GrassGen.GrassFileRows | generate_grass.py:45 | read back line by line, the grass file holds exactly the rows a tiles section gets for these tiles |
| GrassInsert.FirstMarked | insert_grass.py:23-29 | the first line containing the marker, and none exactly when no line does |
| GrassInsert.InsertAfterMarker | insert_grass.py:19-29 | the lines with the content inserted right after the first marker line, or unchanged without one |
| GrassInsert.InsertGrass | insert_grass.py:7-33 | the new file text: the stripped grass text inserted after the first GRASS marker line |
| GrassInsert.NoMarkerKeepsText | insert_grass.py:23-33 | without a marker line the file is written back exactly as it was |
| GrassInsert.InsertedOnce | insert_grass.py:27-29 | the content sits right after the first marker line, exactly once, and taking it out leaves the lines in order |
| Movements.Movement.SetTarget | src/ECS/components/Movement.h:34-40 | the target becomes (x, y), the record is moving with its timer at 0, speed and durations kept |
| Movements.Movement.StartPlanning | src/ECS/components/Movement.h:45-49 | planning with the timer at 0 and not moving; target, speed and durations kept |
| Movements.NewMovement | src/ECS/components/Movement.h:17-29 | idle, not moving, target (0, 0), timer 0, durations 0.5 s and 0.2 s, and so able to take a target |
| Movements.CanAcceptExactly | src/ECS/components/Movement.h:54-56 | a record takes a new target exactly when it is neither planning nor moving |
| Movements.RemainingValue | src/ECS/MovementManager.cpp:41-59 | away from the target, the fraction of the offset left is one minus this frame's travel over the distance |
| Movements.MoveStepMeaning | src/ECS/MovementManager.cpp:36-61 | within this frame's travel the agent lands exactly on the target and starts arriving with its timer at 0; otherwise the record is unchanged and the offset to the target shrinks by a factor in (0, 1], so the step never overshoots |
| Movements.PhaseStep | src/ECS/MovementManager.cpp:5-33 | a position is there after the frame exactly when it was before |
| Movements.PhaseStepMeaning | src/ECS/MovementManager.cpp:5-33 | the timer advances by the scaled delta; planning and arriving return to idle with the timer reset once their duration is reached; idle changes only the timer; moving without a position changes only the timer; only moving changes the position |
| Movements.PhaseStepNeverStarts | src/ECS/MovementManager.cpp:5-33 | a frame never enters planning or moving, it only leaves them |
| Movements.PositionManager.constructor | src/ECS/PositionManager.h:12 | no positions |
| Movements.PositionManager.Create | src/ECS/PositionManager.h:14-19 | the uid's position becomes (x, y), replacing any earlier one; others unchanged |
| Movements.PositionManager.Get | src/ECS/PositionManager.h:21-24 | none exactly when the uid has no position, otherwise its position |
| Movements.PositionsAfter | src/ECS/MovementManager.cpp:4-61 | a frame keeps the set of agents with a position |
| Movements.MovementsAfter | src/ECS/MovementManager.cpp:4-33 | a frame keeps the set of agents with a movement record |
| Movements.FramePartialAt | src/ECS/MovementManager.cpp:5-33 | before its own step a record and its position are those the frame started with |
| Movements.FramePartialStep | src/ECS/MovementManager.cpp:5-33 | one more step extends the partial frame by exactly that record and its position |
| Movements.FramePartialEnds | src/ECS/MovementManager.cpp:4-34 | with nothing done the state is unchanged; with every record done it is the whole frame |
| Movements.MovementManager.constructor | src/ECS/MovementManager.h:14 | no records |
| Movements.MovementManager.Create | src/ECS/MovementManager.h:16-21 | a fresh idle record with the given speed replaces any earlier one |
| Movements.MovementManager.Get | src/ECS/MovementManager.h:23-26 | none exactly when the uid has no record, otherwise its record |
| Movements.MovementManager.UpdateMovement | src/ECS/MovementManager.cpp:36-61 | without a position nothing changes; otherwise the record and the position become those of the snap-or-step |
| Movements.MovementManager.StepOne | src/ECS/MovementManager.cpp:6-32 | the uid's record and position become those of its phase step; nothing else changes |
| Movements.MovementManager.Update | src/ECS/MovementManager.cpp:4-34 | the records and positions after the loop are the frame of every record, in whatever order the map is walked |
| Movements.MovementManager.FrameNext | src/ECS/MovementManager.cpp:5-33 | one iteration advances the partial frame by one record |
| Movements.MovementManager.GetEntitiesInPhase | src/ECS/MovementManager.h:38-46 | exactly the uids whose record is in the phase, each once |
| Movements.MovementManager.CanEntityMove | src/ECS/MovementManager.h:51-54 | true for an agent without a record, otherwise exactly when the record is idle or arriving |
| MovementSystems.PositionStepMeaning | src/ECS/systems/MovementSystem.h:48-73 | within one pixel the entity lands on its target and starts arriving with its timer at 0; otherwise only the position changes, and the offset shrinks by 1 - step / distance with step = min(speed * deltaTime, distance), a factor in [0, 1) for a forward step, so it never overshoots |
| MovementSystems.StepFraction | src/ECS/systems/MovementSystem.h:66-72 | a positive step of at most the distance leaves a fraction in [0, 1) of the offset |
| MovementSystems.EntityStep | src/ECS/systems/MovementSystem.h:27-40 | an entity keeps exactly the components it had |
| MovementSystems.StillEntitiesSkipped | src/ECS/systems/MovementSystem.h:28-36 | an entity that is not moving, or has no position, is left as it was |
| MovementSystems.MovementSystem.constructor | src/ECS/systems/MovementSystem.h:21 | the system holds the given world |
| MovementSystems.MovementSystem.Update | src/ECS/systems/MovementSystem.h:23-41 | every entity's movement and position components become those of its step; components of other types are unchanged |
| MovementSystems.MovementSystem.UpdateOne | src/ECS/systems/MovementSystem.h:28-73 | the entity's two components become those of its step; every other entity and every other type unchanged |
| Controllers.KeyStep | src/ECS/components/PlayerController.cpp:32-39 | W, S, A and D each ask for a step of exactly one cell; every other key for none |
| Controllers.CellOfCentre | src/ECS/components/PlayerController.cpp:24-50 | the pixel centre of a cell truncates back to that cell |
| Controllers.PlayerTargetCell | src/ECS/components/PlayerController.cpp:12-63 | a target exists only for a record that is not moving, a key-down, a known position and a movement key, and is then a walkable cell one step from the player's cell |
| Controllers.Handled | src/ECS/components/PlayerController.cpp:12-69 | without a target cell the record is unchanged |
| Controllers.HandledMeaning | src/ECS/components/PlayerController.cpp:44-58 | an accepted press heads for the centre of the walkable target cell, moving with a fresh timer, speed and durations kept, and that centre lies in the target cell |
| Controllers.PlanningCanBeRetargeted | src/ECS/components/PlayerController.cpp:13 | only isMoving is consulted: a planning record is treated like an idle one |
| Controllers.WalkableStepAccepted | src/ECS/components/PlayerController.cpp:41-53 | a movement key toward a walkable cell is always accepted |
| Controllers.KeyTarget | src/ECS/components/PlayerController.cpp:28-39 | pressed exactly for a movement key, and then the target is the current cell plus that key's step |
| Controllers.TargetCell | src/ECS/components/PlayerController.cpp:18-47 | the checks' outcome is the target cell of the specification |
| Controllers.HandleEvent | src/ECS/components/PlayerController.cpp:8-71 | the entity's record becomes the handled record; no other record changes |
| Controllers.ControllerManager.constructor | src/ECS/ControllerManager.h:14 | no controllers |
| Controllers.ControllerManager.Create | src/ECS/ControllerManager.h:16-40 | "player" stores a player controller, "guardian" and "citizen" a plain one, replacing any earlier one; any other type stores nothing and returns none; only a player controller has type "player" |
| Controllers.ControllerManager.Get | src/ECS/ControllerManager.h:42-45 | none exactly when the uid has no controller, otherwise its controller |
| Controllers.ControllerManager.HandleEvents | src/ECS/ControllerManager.h:48-56 | every record of an entity with a player controller becomes its handled record, all others are unchanged, and no record is added or removed |
| Behaviour.NewAIState | src/ECS/components/AIState.h:1-17 | idle, with no target zone, no intended activity and both timers at 0 |
| Behaviour.NonHomeNames | src/AISystem.cpp:253-260 | exactly the zone names without "Home" |
| Behaviour.LeisureNames | src/AISystem.cpp:387-400 | exactly the zone names holding "Cafe", "Forest", "Water" or "Stadium" and not "Home" |
| Behaviour.PickName | src/AISystem.cpp:403-423 | "" for an empty list, otherwise one of its names |
| Behaviour.LeisureZoneMeaning | src/AISystem.cpp:385-427 | a leisure zone when there is one, else a non-home zone when there is one, else ""; a home is never chosen |
| Behaviour.FirstHomeIndex | src/AISystem.cpp:368-374 | the earliest zone whose name holds "Home", or -1 exactly when there is none |
| Behaviour.HomeZoneMeaning | src/AISystem.cpp:355-382 | the assigned home when there is one, else the earliest zone named like a home, else the first zone, else "" |
| Behaviour.ReplanAtNoonAndFive | src/AISystem.cpp:430-456 | at noon every target asks for a replan, "Work" included, because noon is both a work hour and a meal time; at 17:00 a "Work" target does not |
| Behaviour.ActivityDuration | src/AISystem.cpp:129 | an activity lasts between 300 and 899 seconds |
| Behaviour.ChooseTargetPriority | src/AISystem.cpp:226-267 | sleep beats work beats meals beats evening: at noon the target is "Work"; with the period in step with the hour, "Relaxing" is chosen exactly at 17:00; at sleep time the home is the target; any other choice is "" or not a home |
| Behaviour.PlanNextMeaning | src/AISystem.cpp:209-287 | the intended activity is always recorded; a known target starts planning toward it, keeping the movement target; otherwise the state and the movement are unchanged |
| Behaviour.ExecutePlanMeaning | src/AISystem.cpp:289-352 | outside MovingToZone nothing changes; a missing zone or no path goes idle; inside the zone the activity starts with its 300-899 s timer; otherwise the agent heads for the centre of the path's second cell, moving with a fresh timer |
| Behaviour.ArriveStepMeaning | src/AISystem.cpp:89-140 | only agents that are MovingToZone, idle and not moving are touched; inside the zone the activity starts, outside it the next step is planned, and a missing zone changes nothing |
| Behaviour.ArrivalActivityMeaning | src/AISystem.cpp:111-121 | "Sleeping" is reported for a home target at sleep time, and otherwise only when it is the intended activity |
| Behaviour.ActivityStepMeaning | src/AISystem.cpp:160-186 | the timer runs down by 16.67; at sleep time at home nothing is replanned; otherwise a replan happens exactly when the timer is out or the target no longer suits the hour |
| Behaviour.NewAgentCoherent | src/ECS/components/Movement.h:17-29 | a new agent satisfies the coupling of its two state machines |
| Behaviour.PlanNextCoherent | src/AISystem.cpp:209-287 | planning keeps the coupling (an agent performing an activity is idle; planning takes positive time) |
| Behaviour.ExecutePlanCoherent | src/AISystem.cpp:289-352 | executing a plan keeps the coupling |
| Behaviour.AITickCoherent | src/AISystem.cpp:46-58 | a due AI tick keeps the coupling |
| Behaviour.ArriveStepCoherent | src/AISystem.cpp:75-142 | the arrivals pass keeps the coupling |
| Behaviour.PlanningStepCoherent | src/AISystem.cpp:144-207 | the planning pass keeps the coupling |
| Behaviour.PhaseStepCoherent | src/ECS/MovementManager.cpp:4-34 | the movement pass keeps the coupling |
| Behaviour.PerformingReplansOnTick | src/AISystem.cpp:55-58 | an agent performing an activity is idle, so every due AI tick replans it |
| Behaviour.PhaseStepLeavesNoDuePlanning | src/ECS/MovementManager.cpp:11-16 | after the movement pass no record is planning with its time run out |
| Behaviour.PlanningHandoffNeverFires | src/AISystem.cpp:188-205 | in the frame order the planning handoff never fires, so the planning pass's result depends on neither the path nor the timer roll |
| Behaviour.MoveStartsOnArrival | src/AISystem.cpp:91-93 | an agent whose planning time runs out in the movement pass counts as arrived, so the arrivals pass plans its next step |
| Behaviour.ArriveStepNeverPlans | src/AISystem.cpp:75-142 | the arrivals pass never leaves an agent planning |
| AiSystems.AIManager.constructor | src/ECS/AIManager.h:8 | no intent records |
| AiSystems.AIManager.Create | src/ECS/AIManager.h:10-12 | a default intent record replaces any earlier one; others unchanged |
| AiSystems.AIManager.Get | src/ECS/AIManager.h:14-19 | none exactly when the uid has no record, otherwise its record |
| AiSystems.TickPassCoherent | src/AISystem.cpp:37-73 | a due AI tick keeps every agent's coupling of intent and movement |
| AiSystems.ArrivePassCoherent | src/AISystem.cpp:75-142 | the arrivals pass keeps every agent's coupling |
| AiSystems.PlanningPassCoherent | src/AISystem.cpp:144-207 | the planning pass keeps every agent's coupling |
| AiSystems.MovementPassCoherent | src/ECS/MovementManager.cpp:4-34 | the movement pass keeps every agent's coupling and leaves no planning phase due |
| AiSystems.ArrivePassNoDuePlanning | src/AISystem.cpp:75-142 | the arrivals pass leaves no planning phase due |
| AiSystems.PlanningPassIgnoresHandoff | src/AISystem.cpp:188-205 | in a frame's order the planning pass never reaches the handoff to executeMovementPlan, so its outcome depends on neither the paths nor the timer rolls that call would use |
| AiSystems.SameStepsSamePass | src/AISystem.cpp:147 | two per-agent turns that agree on every active agent make the same pass |
| AiSystems.TickPassReplansPerformers | src/AISystem.cpp:55-58 | on a due tick every active agent performing an activity replans |
| AiSystems.PartialPassAt | src/AISystem.cpp:46-52 | before its turn an agent's records are those the pass started with |
| AiSystems.PartialPassStep | src/AISystem.cpp:46-72 | one more agent's turn extends the pass by exactly that agent's records |
| AiSystems.PartialPassNone | src/AISystem.cpp:46 | with nobody done a pass has changed nothing |
| AiSystems.ArriveStepOfRecord | src/AISystem.cpp:137 | recording one agent's path changes nobody else's arrival step |
| AiSystems.PlanningStepOfRecord | src/AISystem.cpp:197 | recording one agent's path changes nobody else's planning step |
| AiSystems.AISystem.constructor | src/AISystem.cpp:5-28 | the system holds its collaborators, the AI timer at 0 and the half-second interval |
| AiSystems.AISystem.CollectNonHomeZones | src/AISystem.cpp:253-260 | the names of the non-home zones, in table order |
| AiSystems.AISystem.CollectLeisureZones | src/AISystem.cpp:387-400 | the names of the leisure zones, in table order |
| AiSystems.AISystem.GetHomeZone | src/AISystem.cpp:355-382 | the home zone with its fallbacks |
| AiSystems.AISystem.GetRandomLeisureZone | src/AISystem.cpp:385-427 | the leisure pick with its fallback to non-home zones |
| AiSystems.AISystem.ShouldReplanActivity | src/AISystem.cpp:430-456 | false for an agent without intent; otherwise whether its target no longer suits the hour |
| AiSystems.AISystem.ChooseTargetZone | src/AISystem.cpp:222-267 | the activity and target of the sleep, work, meal, evening, otherwise priority |
| AiSystems.AISystem.PlanNextAction | src/AISystem.cpp:209-287 | an agent with all three records gets the planned intent and movement; nothing changes otherwise |
| AiSystems.AISystem.ExecuteMovementPlan | src/AISystem.cpp:289-352 | an agent with all three records gets the executed plan, with the path the zone search returned; nothing changes otherwise |
| AiSystems.AISystem.PlanTowardsZone | src/AISystem.cpp:298-351 | the outcome of the plan from the agent's cell, and the path is the search's answer when a search was made |
| AiSystems.AISystem.ZoneOnGrid | src/Grid.h:171-176 | every zone the table names lies on the grid |
| AiSystems.AISystem.TickOne | src/AISystem.cpp:48-58 | an agent with all records takes its tick decision; nothing changes otherwise |
| AiSystems.AISystem.UpdateAI | src/AISystem.cpp:37-73 | below the interval only the timer grows; otherwise the interval is taken off, leaving the remainder, and every agent takes its tick |
| AiSystems.AISystem.TickNext | src/AISystem.cpp:46-72 | one loop iteration gives one more agent its tick turn |
| AiSystems.AISystem.TickAll | src/AISystem.cpp:46-72 | after the loop the records are the due tick over all agents, in whatever order the map is walked |
| AiSystems.AISystem.ArriveOne | src/AISystem.cpp:80-140 | an agent with all records takes its arrival step; nothing changes otherwise |
| AiSystems.AISystem.ArriveNext | src/AISystem.cpp:78-141 | one loop iteration gives one more agent its arrival step |
| AiSystems.AISystem.ProcessArrivingEntities | src/AISystem.cpp:75-142 | the records become the arrivals pass, with the paths the searches returned |
| AiSystems.AISystem.ActivityOne | src/AISystem.cpp:160-186 | a performing agent's records become its activity step |
| AiSystems.AISystem.PlanOne | src/AISystem.cpp:149-205 | an agent with all records takes its planning step; nothing changes otherwise |
| AiSystems.AISystem.HandoffOne | src/AISystem.cpp:188-205 | a MovingToZone agent whose planning time is used up executes its plan; others are unchanged |
| AiSystems.AISystem.PlanningNext | src/AISystem.cpp:147-206 | one loop iteration gives one more agent its planning step |
| AiSystems.AISystem.ProcessPlanningEntities | src/AISystem.cpp:144-207 | the records become the planning pass, with the paths the searches returned |
| AiSystems.AISystem.Update | src/AISystem.cpp:30-44 | the AI timer gains the delta, minus the interval when that reaches it; then the AI tick when due, the arrivals pass and the planning pass, each with the paths findPathToZone returned |

## Left out

- Pointers, `unique_ptr` ownership and aliasing: each per-agent record (AI state, movement, position) is a value stored in its manager's map, and every pass reads and writes whole records.
- File I/O, JSON parsing and the regular expressions of the scripts: the scripts are modelled on the file's lines and the tile list already parsed from them, and `Grid::loadFromJson` and `TiledParser` start from the parsed document.
- `Grid::dump`, `Grid::saveToJson`, the renderer, the info boxes, all console output and the status texts shown on screen: these are output only.
- SDL events other than key presses, the window, rendering and frame timing: `Frame.RunFrame` takes the frame's delta and the time scale as parameters, and the scheduler's callbacks are recorded as jobs.
- GeminiClient, Scene, MigrationExample, LegacyManagerAdapter, the description and info-box managers, ECSTest and Entity.h: they are not part of the scheduler or the ECS core.
- `HomeManager::getAllAssignments`, `MovementManager::getAllEntities` and the plain field getters: they only expose stored state, which the model reads directly.
- External tilesets (those with a `source` attribute): they are skipped, as the parser skips them.
- 32-bit overflow: only the wrap of the entity-id counter is modelled; other integers are unbounded.
- Zone iteration order: `Grid::zones` is an `unordered_map`, whose iteration order is the hash order. The model keeps zones in first-insertion order instead, and a later store under the same name keeps its place. Behaviour.HomeZoneMeaning ("the earliest zone named like a home", "the first zone"), AiSystems.AISystem.CollectNonHomeZones and AiSystems.AISystem.CollectLeisureZones (the candidate lists the random roll indexes) are stated for that order, so which zone they pick among several is not the program's.
- Movements.MovementManager.Update: requires every record's step (speed times delta times scale) to be non-negative, as do Movements.MoveStep, Movements.PhaseStep, UpdateMovement, StepOne and FrameNext; the game passes a positive frame time and scale.
- Grid.Grid.constructor: requires a non-negative width and height, as does Grid.Grid.ApplyParsedTiles; the source's vector of `width * height` cells would throw `length_error` otherwise, which is not modelled.
- Pathfinder.Pathfinder.FindPath: the source's `INT_MAX` "unreached" cost is modelled as -1, so overflow of `INT_MAX + cost` is not modelled.
- Pathfinder.Pathfinder.FindPath: requires non-negative costs, because the source can loop forever on negative costs. It requires a start cell inside the grid and a goal with a valid vector index, because the source indexes its vectors with them unchecked. Optimality is proved only when every passable cell costs at least one.
- Pathfinder.Pathfinder.FindPath: the order in which `std::priority_queue` breaks ties between entries of equal priority is modelled as "some entry of least f-cost", so which of several cheapest paths is returned is not fixed.
- Ticks.TickManager.RegisterSystem: `std::sort` is not stable, so the order of equal priorities is left open; the contract states sortedness and permutation.
- AiSystems.AISystem.Update: requires every agent to stand on a grid cell and the cell size to be positive, because the source indexes the cost table by the agent's cell without a check.
- AiSystems.MovementPassCoherent: requires that no record's step is negative (speed times delta times scale), as holds for the game's positive speeds.
- Behaviour.HomeZoneMeaning: the `homeManager` null check is taken as passed, since the system is always built with a home manager.
- The `sqrt` of the distance computations is a `norm` parameter, so results that depend on its value are stated in terms of `norm`.
- `rand()` is a per-call-site oracle (`Rolls`), so the distribution of zone picks and activity durations is not modelled, only their ranges.
- `dynamic_cast` over system and controller objects is modelled by a kind tag on each value.
- `isspace` is modelled for ASCII whitespace only, and strings are sequences of characters with no encoding.
- ControllerManager.cpp defines `handleEvents` and `dump` a second time: `handleEvents` with the same dispatch as ControllerManager.h plus console output, `dump` as in the header. The model follows the dispatch once and leaves out the console output of `handleEvents` and all of `dump`, which only prints.
- TileText.TileLineNoNewline: stated only for type names without a newline; a type name holding a newline would make one tile span several lines of the file.
- TiledParser.LoadTiledMap: requires a non-negative width and height for a document of type "map", because the grid is sized from them.
- Pathfinder.Pathfinder.FindPathToZone: requires the named zone to lie inside the grid, because the source reads the cells of the zone unchecked.
- Controllers.ControllerManager.HandleEvents: requires a positive cell size, because the controller divides pixel positions by it.
- Component templates and type erasure: a component type is a tag (`TypeId`), and the components the movement system reads are one `Component` datatype.

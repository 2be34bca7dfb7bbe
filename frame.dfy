/** The frame order of the main loop: the scheduler is set up with the
    clock (priority 0, every pass), the AI update (priority 1, every 0.5 s)
    and the movement update (priority 2, every 0.016 s); each frame runs the
    scheduler unless the game is paused, then always moves once more and
    runs the arrival and planning phases. The work a frame does is
    recorded as a list of jobs. */
module Frame {
  import opened Ticks

  const ClockCallback: nat := 0
  const AiCallback: nat := 1
  const MovementCallback: nat := 2

  /** One piece of work; `scale` is the movement time scale
      `simClock.getTimeScale() / 60`. */
  datatype Job =
    | ClockJob(delta: real)
    | AiJob(delta: real)
    | MoveJob(delta: real, scale: real)
    | ArriveJob
    | PlanJob

  /** The registrations after setup, in priority order. */
  function MainSchedule(): seq<Registration>
  {
    [NewRegistration(ClockCallback, 0.0, 0),
     NewRegistration(AiCallback, 0.5, 1),
     NewRegistration(MovementCallback, 0.016, 2)]
  }

  /** The three registrations, whatever their last tick times. */
  predicate MainShape(s: seq<Registration>)
  {
    |s| == 3
    && s[0].callback == ClockCallback && s[0].tickInterval == 0.0 && s[0].priority == 0
    && s[1].callback == AiCallback && s[1].tickInterval == 0.5 && s[1].priority == 1
    && s[2].callback == MovementCallback && s[2].tickInterval == 0.016 && s[2].priority == 2
  }

  /** What a scheduler call runs. */
  function JobOf(c: Call, scale: real): Job
  {
    if c.callback == ClockCallback then ClockJob(c.delta)
    else if c.callback == AiCallback then AiJob(c.delta)
    else MoveJob(c.delta, scale)
  }

  function JobsOf(calls: seq<Call>, scale: real): (jobs: seq<Job>)
    ensures |jobs| == |calls| && forall j :: 0 <= j < |calls| ==> jobs[j] == JobOf(calls[j], scale)
  {
    seq(|calls|, j requires 0 <= j < |calls| => JobOf(calls[j], scale))
  }

  /** The jobs of one frame: the scheduler's due calls unless paused, then
      the unconditional movement update, arrival and planning. */
  function FrameJobs(paused: bool, systems: seq<Registration>, now: real, deltaTime: real, scale: real): seq<Job>
  {
    (if paused then [] else JobsOf(DueCalls(systems, now), scale))
      + [MoveJob(deltaTime, scale), ArriveJob, PlanJob]
  }

  /** The setup of the scheduler: three registrations, made in the order
      AI, movement, clock. */
  method NewMainScheduler() returns (tm: TickManager)
    ensures fresh(tm) && tm.Valid() && tm.totalTime == 0.0
    ensures tm.systems == MainSchedule()
  {
    tm := new TickManager();
    tm.RegisterSystem(AiCallback, 0.5, 1);
    tm.RegisterSystem(MovementCallback, 0.016, 2);
    tm.RegisterSystem(ClockCallback, 0.0, 0);
    assert multiset(tm.systems) == multiset(MainSchedule());
    SortedPermutationUnique(tm.systems, MainSchedule());
  }

  /** One frame of the main loop on the scheduler. */
  method RunFrame(tm: TickManager, paused: bool, deltaTime: real, timeScale: real) returns (jobs: seq<Job>)
    requires tm.Valid()
    modifies tm
    ensures tm.Valid()
    ensures jobs == FrameJobs(paused, old(tm.systems), old(tm.totalTime) + deltaTime, deltaTime, timeScale / 60.0)
    ensures paused ==> tm.systems == old(tm.systems) && tm.totalTime == old(tm.totalTime)
    ensures !paused ==> tm.systems == TickedAll(old(tm.systems), tm.totalTime)
                        && tm.totalTime == old(tm.totalTime) + deltaTime
  {
    var scale := timeScale / 60.0;
    jobs := [];
    if !paused {
      var fired := tm.Update(deltaTime);
      jobs := RunCallbacks(fired, scale);
    }
    jobs := jobs + [MoveJob(deltaTime, scale), ArriveJob, PlanJob];
  }

  /** The callbacks of the due calls, run in order. */
  method RunCallbacks(fired: seq<Call>, scale: real) returns (jobs: seq<Job>)
    ensures jobs == JobsOf(fired, scale)
  {
    jobs := [];
    var i := 0;
    while i < |fired|
      invariant 0 <= i <= |fired|
      invariant jobs == JobsOf(fired[..i], scale)
    {
      var c := fired[i];
      var job := if c.callback == ClockCallback then ClockJob(c.delta)
                 else if c.callback == AiCallback then AiJob(c.delta)
                 else MoveJob(c.delta, scale);
      assert fired[..i + 1] == fired[..i] + [c];
      jobs := jobs + [job];
      i := i + 1;
    }
    assert fired[..i] == fired;
  }

  // ---------------------------------------------------------------------
  // The schedule

  predicate DistinctPriorities(s: seq<Registration>)
  {
    forall i, j :: 0 <= i < j < |s| ==> s[i].priority != s[j].priority
  }

  /** Two priority-sorted lists holding the same registrations, with
      distinct priorities, are equal. */
  lemma {:induction false} SortedPermutationUnique(a: seq<Registration>, b: seq<Registration>)
    requires Sorted(a) && Sorted(b) && multiset(a) == multiset(b)
    requires DistinctPriorities(b)
    ensures a == b
    decreases |a|
  {
    assert |a| == |multiset(a)| == |multiset(b)| == |b|;
    if |a| > 0 {
      SameHead(a, b);
      SameTail(a, b);
      assert Sorted(a[1..]) && Sorted(b[1..]) && DistinctPriorities(b[1..]);
      SortedPermutationUnique(a[1..], b[1..]);
      assert a == [a[0]] + a[1..] && b == [b[0]] + b[1..];
    }
  }

  lemma SameHead(a: seq<Registration>, b: seq<Registration>)
    requires Sorted(a) && Sorted(b) && multiset(a) == multiset(b)
    requires DistinctPriorities(b)
    requires |a| > 0 && |b| > 0
    ensures a[0] == b[0]
  {
    assert a[0] in multiset(b) && b[0] in multiset(a);
    var j :| 0 <= j < |b| && b[j] == a[0];
    var i :| 0 <= i < |a| && a[i] == b[0];
    assert b[j].priority <= b[0].priority;
    assert j == 0;
  }

  lemma SameTail(a: seq<Registration>, b: seq<Registration>)
    requires |a| > 0 && |b| > 0 && a[0] == b[0] && multiset(a) == multiset(b)
    ensures multiset(a[1..]) == multiset(b[1..])
  {
    assert a == [a[0]] + a[1..] && b == [b[0]] + b[1..];
    assert multiset(a) == multiset([a[0]]) + multiset(a[1..]);
    assert multiset(b) == multiset([b[0]]) + multiset(b[1..]);
    var h := multiset([a[0]]);
    assert (h + multiset(a[1..])) - h == multiset(a[1..]);
    assert (h + multiset(b[1..])) - h == multiset(b[1..]);
  }

  /** A pass changes only last tick times, so the shape stays. */
  lemma TickedKeepsShape(s: seq<Registration>, now: real)
    requires MainShape(s)
    ensures MainShape(TickedAll(s, now))
  {
  }

  function MoveCount(jobs: seq<Job>): nat
    decreases |jobs|
  {
    if |jobs| == 0 then 0 else (if jobs[0].MoveJob? then 1 else 0) + MoveCount(jobs[1..])
  }

  lemma {:induction false} MoveCountConcat(a: seq<Job>, b: seq<Job>)
    ensures MoveCount(a + b) == MoveCount(a) + MoveCount(b)
    decreases |a|
  {
    if |a| == 0 {
      assert a + b == b;
    } else {
      assert (a + b)[0] == a[0] && (a + b)[1..] == a[1..] + b;
      MoveCountConcat(a[1..], b);
    }
  }

  /** The due calls of a pass over the three registrations. */
  lemma MainDueCalls(s: seq<Registration>, now: real)
    requires MainShape(s)
    ensures DueCalls(s, now) ==
              (if Due(s[0], now) then [Call(ClockCallback, now - s[0].lastTickTime)] else [])
              + (if Due(s[1], now) then [Call(AiCallback, now - s[1].lastTickTime)] else [])
              + (if Due(s[2], now) then [Call(MovementCallback, now - s[2].lastTickTime)] else [])
  {
    assert s[..0] == [];
    DueCallsSnoc(s, now, 0);
    DueCallsSnoc(s, now, 1);
    DueCallsSnoc(s, now, 2);
    assert s[..3] == s;
  }

  /** An unpaused frame runs the clock first (its interval is zero), ends
      with the unconditional move, arrival and planning, and moves twice
      exactly when the movement registration is due. */
  lemma UnpausedFrame(s: seq<Registration>, now: real, deltaTime: real, scale: real)
    requires MainShape(s) && s[0].lastTickTime <= now
    ensures var jobs := FrameJobs(false, s, now, deltaTime, scale);
            |jobs| >= 4 && jobs[0] == ClockJob(now - s[0].lastTickTime)
            && jobs[|jobs| - 3..] == [MoveJob(deltaTime, scale), ArriveJob, PlanJob]
            && MoveCount(jobs) == (if Due(s[2], now) then 2 else 1)
  {
    MainDueCalls(s, now);
    var calls := DueCalls(s, now);
    var tickJobs := JobsOf(calls, scale);
    var tail := [MoveJob(deltaTime, scale), ArriveJob, PlanJob];
    var jobs := tickJobs + tail;
    assert jobs[|jobs| - 3..] == tail;
    MoveCountConcat(tickJobs, tail);
    TailMoves(deltaTime, scale);
    var a := if Due(s[0], now) then [Call(ClockCallback, now - s[0].lastTickTime)] else [];
    var b := if Due(s[1], now) then [Call(AiCallback, now - s[1].lastTickTime)] else [];
    var c := if Due(s[2], now) then [Call(MovementCallback, now - s[2].lastTickTime)] else [];
    assert calls == a + b + c;
    assert JobsOf(calls, scale) == JobsOf(a, scale) + JobsOf(b, scale) + JobsOf(c, scale);
    MoveCountConcat(JobsOf(a, scale) + JobsOf(b, scale), JobsOf(c, scale));
    MoveCountConcat(JobsOf(a, scale), JobsOf(b, scale));
  }

  lemma TailMoves(deltaTime: real, scale: real)
    ensures MoveCount([MoveJob(deltaTime, scale), ArriveJob, PlanJob]) == 1
  {
    var tail := [MoveJob(deltaTime, scale), ArriveJob, PlanJob];
    assert tail[1..] == [ArriveJob, PlanJob] && tail[1..][1..] == [PlanJob];
    assert MoveCount([PlanJob]) == 0;
  }

  /** A paused frame runs no scheduled system, yet still moves once and
      runs arrival and planning. */
  lemma PausedFrame(s: seq<Registration>, now: real, deltaTime: real, scale: real)
    ensures FrameJobs(true, s, now, deltaTime, scale) == [MoveJob(deltaTime, scale), ArriveJob, PlanJob]
    ensures MoveCount(FrameJobs(true, s, now, deltaTime, scale)) == 1
  {
    TailMoves(deltaTime, scale);
    assert [] + [MoveJob(deltaTime, scale), ArriveJob, PlanJob] == [MoveJob(deltaTime, scale), ArriveJob, PlanJob];
  }
}

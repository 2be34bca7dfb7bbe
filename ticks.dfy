/** The cooperative tick scheduler: registrations kept ordered by
    priority, each fired when its interval has elapsed since its last tick.
    Callbacks are identified by ids; firing one is recorded as a `Call`
    in the log a method returns. Float times are reals. */
module Ticks {

  datatype Registration = Registration(callback: nat, tickInterval: real, lastTickTime: real, priority: int)

  /** An invocation of a callback with the delta it was given. */
  datatype Call = Call(callback: nat, delta: real)

  /** `SystemRegistration(cb, interval, prio)`: a new registration has
      never ticked. */
  function NewRegistration(callback: nat, tickInterval: real, priority: int): (r: Registration)
    ensures r.lastTickTime == 0.0 && r.callback == callback
    ensures r.tickInterval == tickInterval && r.priority == priority
  {
    Registration(callback, tickInterval, 0.0, priority)
  }

  /** Lower priorities first. */
  predicate Sorted(s: seq<Registration>)
  {
    forall i, j :: 0 <= i < j < |s| ==> s[i].priority <= s[j].priority
  }

  /** A registration is due when its interval has elapsed at `now`. */
  predicate Due(r: Registration, now: real)
  {
    now - r.lastTickTime >= r.tickInterval
  }

  /** The positions of the due registrations, in list order. */
  function DueIndices(s: seq<Registration>, now: real): (idx: seq<int>)
    ensures forall j :: 0 <= j < |idx| ==> 0 <= idx[j] < |s|
    ensures forall a, b :: 0 <= a < b < |idx| ==> idx[a] < idx[b]
    ensures forall i :: 0 <= i < |s| ==> (Due(s[i], now) <==> i in idx)
    decreases |s|
  {
    if |s| == 0 then []
    else
      var idx := DueIndices(s[..|s| - 1], now);
      assert forall i :: 0 <= i < |s| - 1 ==> s[..|s| - 1][i] == s[i];
      if Due(s[|s| - 1], now) then idx + [|s| - 1] else idx
  }

  /** The calls one pass makes: every due registration, in list order,
      with the time since its last tick. */
  function DueCalls(s: seq<Registration>, now: real): (calls: seq<Call>)
  {
    var idx := DueIndices(s, now);
    seq(|idx|, j requires 0 <= j < |idx| => Call(s[idx[j]].callback, now - s[idx[j]].lastTickTime))
  }

  /** The registration after one pass at `now`. */
  function Ticked(r: Registration, now: real): Registration
  {
    if Due(r, now) then r.(lastTickTime := now) else r
  }

  /** The whole list after one pass at `now`. */
  function TickedAll(s: seq<Registration>, now: real): (r: seq<Registration>)
    ensures |r| == |s|
    ensures forall i :: 0 <= i < |s| ==> r[i] == Ticked(s[i], now)
  {
    seq(|s|, i requires 0 <= i < |s| => Ticked(s[i], now))
  }

  /** One pass fires each registration at most once, in list order, and
      so in non-decreasing priority when the list is sorted. */
  lemma DueCallsInOrder(s: seq<Registration>, now: real)
    ensures |DueCalls(s, now)| <= |s|
    ensures forall a, b :: 0 <= a < b < |DueIndices(s, now)| ==>
              DueIndices(s, now)[a] < DueIndices(s, now)[b]
    ensures Sorted(s) ==> forall a, b :: 0 <= a < b < |DueIndices(s, now)| ==>
              s[DueIndices(s, now)[a]].priority <= s[DueIndices(s, now)[b]].priority
  {
    var idx := DueIndices(s, now);
    DistinctBound(idx, |s|);
  }

  /** Strictly increasing indices below `n` number at most `n`. */
  lemma {:induction false} DistinctBound(idx: seq<int>, n: int)
    requires n >= 0
    requires forall j :: 0 <= j < |idx| ==> 0 <= idx[j] < n
    requires forall a, b :: 0 <= a < b < |idx| ==> idx[a] < idx[b]
    ensures |idx| <= n
    decreases |idx|
  {
    if |idx| > 0 {
      var last := idx[|idx| - 1];
      var init := idx[..|idx| - 1];
      assert forall j :: 0 <= j < |init| ==> init[j] == idx[j] && idx[j] < last;
      DistinctBound(init, last);
      assert |init| == |idx| - 1;
    }
  }

  /** A zero interval fires on every pass that does not move time back. */
  lemma ZeroIntervalFires(r: Registration, before: real, deltaTime: real)
    requires r.tickInterval == 0.0 && r.lastTickTime <= before && deltaTime >= 0.0
    ensures Due(r, before + deltaTime)
  {
  }

  /** A registration that fires gets as delta at least its interval. */
  lemma DueDeltaAtLeastInterval(s: seq<Registration>, now: real, j: int)
    requires 0 <= j < |DueCalls(s, now)|
    ensures DueCalls(s, now)[j].delta >= s[DueIndices(s, now)[j]].tickInterval
  {
  }

  lemma DueIndicesSnoc(s: seq<Registration>, now: real, k: int)
    requires 0 <= k < |s|
    ensures DueIndices(s[..k + 1], now) ==
              DueIndices(s[..k], now) + (if Due(s[k], now) then [k] else [])
  {
    assert s[..k + 1][..k] == s[..k];
  }

  lemma DueCallsSnoc(s: seq<Registration>, now: real, k: int)
    requires 0 <= k < |s|
    ensures DueCalls(s[..k + 1], now) ==
              DueCalls(s[..k], now) + (if Due(s[k], now) then [Call(s[k].callback, now - s[k].lastTickTime)] else [])
  {
    DueIndicesSnoc(s, now, k);
    var idx := DueIndices(s[..k], now);
    var a := DueCalls(s[..k + 1], now);
    var b := DueCalls(s[..k], now);
    assert forall j :: 0 <= j < |b| ==> a[j] == b[j];
  }

  /** Inserting after every registration of no higher priority, before
      the rest, keeps the list sorted and adds exactly that registration. */
  lemma InsertKeepsOrder(s: seq<Registration>, i: int, r: Registration)
    requires Sorted(s) && 0 <= i <= |s|
    requires forall j :: 0 <= j < i ==> s[j].priority <= r.priority
    requires i < |s| ==> s[i].priority > r.priority
    ensures Sorted(s[..i] + [r] + s[i..])
    ensures multiset(s[..i] + [r] + s[i..]) == multiset(s + [r])
  {
    var t := s[..i] + [r] + s[i..];
    assert |t| == |s| + 1;
    assert forall k :: 0 <= k < i ==> t[k] == s[k];
    assert t[i] == r;
    assert forall k :: i < k < |t| ==> t[k] == s[k - 1];
    SortedAfterInsert(s, i, r, t);
    InsertAddsOne(s, i, r);
  }

  lemma InsertAddsOne(s: seq<Registration>, i: int, r: Registration)
    requires 0 <= i <= |s|
    ensures multiset(s[..i] + [r] + s[i..]) == multiset(s + [r])
  {
    var a, b := s[..i], s[i..];
    assert s == a + b;
    calc {
      multiset(a + [r] + b);
      multiset(a + [r]) + multiset(b);
      multiset(a) + multiset([r]) + multiset(b);
      multiset(a + b) + multiset([r]);
      multiset(s + [r]);
    }
  }

  lemma SortedAfterInsert(s: seq<Registration>, i: int, r: Registration, t: seq<Registration>)
    requires Sorted(s) && 0 <= i <= |s| && |t| == |s| + 1
    requires forall j :: 0 <= j < i ==> s[j].priority <= r.priority
    requires i < |s| ==> s[i].priority > r.priority
    requires forall k :: 0 <= k < i ==> t[k] == s[k]
    requires t[i] == r
    requires forall k :: i < k < |t| ==> t[k] == s[k - 1]
    ensures Sorted(t)
  {
    forall a, b | 0 <= a < b < |t| ensures t[a].priority <= t[b].priority {
      if b < i {
        assert t[a].priority <= t[b].priority;
      } else if b == i {
        assert t[a] == s[a];
      } else if a >= i {
        assert s[i].priority <= s[b - 1].priority;
      } else {
        assert s[a].priority <= s[b - 1].priority;
      }
    }
  }

  class TickManager {
    var systems: seq<Registration>
    var totalTime: real

    ghost predicate Valid()
      reads this
    {
      Sorted(systems)
    }

    constructor ()
      ensures Valid() && systems == [] && totalTime == 0.0
    {
      systems := [];
      totalTime := 0.0;
    }

    /** Appends a registration and restores priority order. `std::sort`
        is not stable, so the order of equal priorities is one of several
        the source may produce: here the newcomer goes after every equal
        priority. */
    method RegisterSystem(callback: nat, tickInterval: real, priority: int)
      requires Valid()
      modifies this
      ensures Valid() && totalTime == old(totalTime)
      ensures multiset(systems) == multiset(old(systems) + [NewRegistration(callback, tickInterval, priority)])
    {
      var r := NewRegistration(callback, tickInterval, priority);
      var i := 0;
      while i < |systems| && systems[i].priority <= priority
        invariant 0 <= i <= |systems|
        invariant forall j :: 0 <= j < i ==> systems[j].priority <= priority
      {
        i := i + 1;
      }
      InsertKeepsOrder(systems, i, r);
      systems := systems[..i] + [r] + systems[i..];
    }

    /** Advances time and fires every due registration once, in list
        order; `fired` is the log of the calls made. */
    method Update(deltaTime: real) returns (fired: seq<Call>)
      requires Valid()
      modifies this
      ensures Valid()
      ensures totalTime == old(totalTime) + deltaTime
      ensures fired == DueCalls(old(systems), totalTime)
      ensures systems == TickedAll(old(systems), totalTime)
    {
      totalTime := totalTime + deltaTime;
      ghost var s0 := systems;
      fired := [];
      var k := 0;
      while k < |systems|
        invariant 0 <= k <= |systems| == |s0|
        invariant totalTime == old(totalTime) + deltaTime
        invariant forall i :: 0 <= i < k ==> systems[i] == Ticked(s0[i], totalTime)
        invariant forall i :: k <= i < |s0| ==> systems[i] == s0[i]
        invariant fired == DueCalls(s0[..k], totalTime)
      {
        DueCallsSnoc(s0, totalTime, k);
        var system := systems[k];
        if totalTime - system.lastTickTime >= system.tickInterval {
          var actualDelta := totalTime - system.lastTickTime;
          fired := fired + [Call(system.callback, actualDelta)];
          systems := systems[k := system.(lastTickTime := totalTime)];
        }
        k := k + 1;
      }
      assert s0[..k] == s0;
      assert forall i :: 0 <= i < |s0| ==> systems[i].priority == s0[i].priority;
    }

    /** Fires every registration with the given delta and stamps it with
        the current time, which does not move. */
    method ForceTick(deltaTime: real) returns (fired: seq<Call>)
      requires Valid()
      modifies this
      ensures Valid() && totalTime == old(totalTime)
      ensures |fired| == |systems| == |old(systems)|
      ensures forall i :: 0 <= i < |systems| ==>
                fired[i] == Call(old(systems)[i].callback, deltaTime)
                && systems[i] == old(systems)[i].(lastTickTime := totalTime)
    {
      ghost var s0 := systems;
      fired := [];
      var k := 0;
      while k < |systems|
        invariant 0 <= k <= |systems| == |s0| && |fired| == k
        invariant totalTime == old(totalTime)
        invariant forall i :: 0 <= i < k ==>
                    fired[i] == Call(s0[i].callback, deltaTime) && systems[i] == s0[i].(lastTickTime := totalTime)
        invariant forall i :: k <= i < |s0| ==> systems[i] == s0[i]
      {
        fired := fired + [Call(systems[k].callback, deltaTime)];
        systems := systems[k := systems[k].(lastTickTime := totalTime)];
        k := k + 1;
      }
      assert forall i :: 0 <= i < |s0| ==> systems[i].priority == s0[i].priority;
    }

    function GetTotalTime(): real
      reads this
    {
      totalTime
    }

    /** Sets the clock and every last-tick time back to zero. */
    method ResetTimers()
      requires Valid()
      modifies this
      ensures Valid() && totalTime == 0.0 && |systems| == |old(systems)|
      ensures forall i :: 0 <= i < |systems| ==> systems[i] == old(systems)[i].(lastTickTime := 0.0)
    {
      totalTime := 0.0;
      ghost var s0 := systems;
      var k := 0;
      while k < |systems|
        invariant 0 <= k <= |systems| == |s0|
        invariant totalTime == 0.0
        invariant forall i :: 0 <= i < k ==> systems[i] == s0[i].(lastTickTime := 0.0)
        invariant forall i :: k <= i < |s0| ==> systems[i] == s0[i]
      {
        systems := systems[k := systems[k].(lastTickTime := 0.0)];
        k := k + 1;
      }
      assert forall i :: 0 <= i < |s0| ==> systems[i].priority == s0[i].priority;
    }
  }
}

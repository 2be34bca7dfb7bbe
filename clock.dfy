/** The simulation clock: accumulated simulated seconds and the minute,
    hour and day derived from them, with a pause flag and a time scale. */
module Clock {
  import opened Util
  import opened TimeOfDay

  /** Minutes elapsed: `static_cast<int>(totalSeconds / 60.0f)`. */
  function TotalMinutes(totalSeconds: real): int
  {
    Trunc(totalSeconds / 60.0)
  }

  function TotalHours(totalSeconds: real): int
  {
    CppDiv(TotalMinutes(totalSeconds), 60)
  }

  function DerivedMinute(totalSeconds: real): int
  {
    CppMod(TotalMinutes(totalSeconds), 60)
  }

  /** No 8-hour start offset is added: the hour counts from midnight. */
  function DerivedHour(totalSeconds: real): int
  {
    CppMod(TotalHours(totalSeconds), 24)
  }

  function DerivedDay(totalSeconds: real): int
  {
    1 + CppDiv(TotalHours(totalSeconds), 24)
  }

  /** "Day D - HH:MM". */
  function FormatTime(day: int, hour: int, minute: int): string
  {
    "Day " + IntToString(day) + " - " + PadTwo(hour) + ":" + PadTwo(minute)
  }

  class Clock {
    var totalSeconds: real
    var hour: int
    var minute: int
    var day: int
    const timeOfDay: TimeOfDay
    var timeScale: real
    var paused: bool

    /** The stored period always belongs to the stored hour. */
    ghost predicate Valid()
      reads this, timeOfDay
    {
      timeOfDay.currentPeriod == CalculatePeriod(hour)
    }

    /** The derived fields agree with the accumulated seconds. */
    ghost predicate Synced()
      reads this
    {
      minute == DerivedMinute(totalSeconds)
      && hour == DerivedHour(totalSeconds)
      && day == DerivedDay(totalSeconds)
    }

    /** Starts at 8:00 on day 1, although no seconds have elapsed. */
    constructor (scale: real)
      ensures Valid() && fresh(timeOfDay)
      ensures totalSeconds == 0.0 && hour == 8 && minute == 0 && day == 1
      ensures timeScale == scale && !paused
      ensures timeOfDay.currentPeriod == Morning
    {
      totalSeconds := 0.0;
      hour := 8;
      minute := 0;
      day := 1;
      timeScale := scale;
      paused := false;
      timeOfDay := new TimeOfDay();
      new;
      timeOfDay.UpdateFromHour(hour);
    }

    /** The time scale a default-constructed clock uses. */
    static function DefaultTimeScale(): (s: real)
      ensures s == 60.0
    {
      60.0
    }

    method Update(deltaTime: real)
      requires Valid()
      modifies this, timeOfDay
      ensures Valid()
      ensures timeScale == old(timeScale) && paused == old(paused)
      ensures old(paused) ==> (totalSeconds == old(totalSeconds) && hour == old(hour)
        && minute == old(minute) && day == old(day)
        && timeOfDay.currentPeriod == old(timeOfDay.currentPeriod))
      ensures !old(paused) ==> totalSeconds == old(totalSeconds) + deltaTime * timeScale && Synced()
    {
      if paused {
        return;
      }
      var advanced := deltaTime * timeScale;
      totalSeconds := totalSeconds + advanced;
      UpdateTimeComponents();
    }

    method UpdateTimeComponents()
      modifies this, timeOfDay
      ensures Valid() && Synced()
      ensures totalSeconds == old(totalSeconds) && timeScale == old(timeScale)
        && paused == old(paused)
    {
      var totalMinutes := Trunc(totalSeconds / 60.0);
      var totalHours := CppDiv(totalMinutes, 60);
      minute := CppMod(totalMinutes, 60);
      hour := CppMod(totalHours, 24);
      day := 1 + CppDiv(totalHours, 24);
      timeOfDay.UpdateFromHour(hour);
    }

    function TimeString(): (s: string)
      reads this
      ensures 0 <= hour < 24 && 0 <= minute < 60 ==> |s| >= 13
      ensures 0 <= hour < 24 && 0 <= minute < 60 ==>
        s[..4] == "Day " && s[4..|s| - 8] == IntToString(day) && s[|s| - 8..|s| - 5] == " - "
        && IsTwoDigits(s[|s| - 5..|s| - 3], hour) && s[|s| - 3] == ':' && IsTwoDigits(s[|s| - 2..], minute)
    {
      if 0 <= hour < 24 && 0 <= minute < 60 then
        FormatTimeShape(day, hour, minute);
        FormatTime(day, hour, minute)
      else
        FormatTime(day, hour, minute)
    }

    method SetTimeScale(scale: real)
      modifies this
      ensures timeScale == scale
      ensures totalSeconds == old(totalSeconds) && hour == old(hour) && minute == old(minute)
        && day == old(day) && paused == old(paused)
    {
      timeScale := scale;
    }

    method Pause()
      modifies this
      ensures IsPaused()
      ensures totalSeconds == old(totalSeconds) && hour == old(hour) && minute == old(minute)
        && day == old(day) && timeScale == old(timeScale)
    {
      paused := true;
    }

    method Resume()
      modifies this
      ensures !IsPaused()
      ensures totalSeconds == old(totalSeconds) && hour == old(hour) && minute == old(minute)
        && day == old(day) && timeScale == old(timeScale)
    {
      paused := false;
    }

    predicate IsPaused() reads this { paused }
    function GetHour(): int reads this { hour }
    function GetMinute(): int reads this { minute }
    function GetDay(): int reads this { day }
    function GetTotalSeconds(): real reads this { totalSeconds }
    function GetTimeScale(): real reads this { timeScale }
  }

  /** `s` is two decimal digits spelling `n`. */
  predicate IsTwoDigits(s: string, n: int)
  {
    |s| == 2 && '0' <= s[0] <= '9' && '0' <= s[1] <= '9'
    && (s[0] as int - '0' as int) * 10 + (s[1] as int - '0' as int) == n
  }

  // -----------------------------------------------------------------------
  // Properties of the derived time.

  /** For non-negative seconds the derived fields are the usual floor
      arithmetic and lie in their ranges. */
  lemma DerivedBounds(s: real)
    requires s >= 0.0
    ensures TotalMinutes(s) == (s / 60.0).Floor
    ensures 0 <= DerivedMinute(s) <= 59
    ensures 0 <= DerivedHour(s) <= 23
    ensures DerivedHour(s) == (TotalMinutes(s) / 60) % 24
    ensures DerivedDay(s) == 1 + (TotalMinutes(s) / 60) / 24
    ensures DerivedDay(s) >= 1
  {
  }

  /** Within the first simulated hour the derived hour is 0, not 8. */
  lemma NoStartOffset(s: real)
    requires 0.0 <= s < 3600.0
    ensures DerivedHour(s) == 0 && DerivedDay(s) == 1
  {
    assert 0 <= TotalMinutes(s) < 60;
  }

  /** The day counter never decreases as seconds accumulate. */
  lemma {:induction false} DayMonotone(s: real, t: real)
    requires 0.0 <= s <= t
    ensures DerivedDay(s) <= DerivedDay(t)
  {
    var ms, mt := TotalMinutes(s), TotalMinutes(t);
    assert s / 60.0 <= t / 60.0;
    assert ms <= mt;
    DivMonotone(ms, mt, 60);
    DivMonotone(ms / 60, mt / 60, 24);
  }

  lemma DivMonotone(a: int, b: int, d: int)
    requires 0 <= a <= b && d > 0
    ensures a / d <= b / d
  {
    if a / d > b / d {
      var q, r := a / d, b / d;
      assert a == q * d + a % d && b == r * d + b % d;
      assert q * d >= (r + 1) * d by { MulMonotone(r + 1, q, d); }
      assert false;
    }
  }

  lemma MulMonotone(x: int, y: int, d: int)
    requires x <= y && d > 0
    ensures x * d <= y * d
  {
  }

  lemma FormatTimeShape(day: int, hour: int, minute: int)
    requires 0 <= hour < 24 && 0 <= minute < 60
    ensures |FormatTime(day, hour, minute)| >= 13
    ensures var s := FormatTime(day, hour, minute);
      s[..4] == "Day " && s[4..|s| - 8] == IntToString(day) && s[|s| - 8..|s| - 5] == " - "
      && IsTwoDigits(s[|s| - 5..|s| - 3], hour) && s[|s| - 3] == ':' && IsTwoDigits(s[|s| - 2..], minute)
  {
    var s := FormatTime(day, hour, minute);
    var d := IntToString(day);
    var ph, pm := PadTwo(hour), PadTwo(minute);
    assert IsTwoDigits(ph, hour) && IsTwoDigits(pm, minute);
    assert s == "Day " + d + " - " + ph + ":" + pm;
    TimeLayout(d, ph, pm);
  }

  lemma TimeLayout(d: string, ph: string, pm: string)
    requires |ph| == 2 && |pm| == 2
    ensures var s := "Day " + d + " - " + ph + ":" + pm;
            |s| == |d| + 12 && s[..4] == "Day " && s[4..|s| - 8] == d && s[|s| - 8..|s| - 5] == " - "
            && s[|s| - 5..|s| - 3] == ph && s[|s| - 3] == ':' && s[|s| - 2..] == pm
  {
  }

  /** Day 12 at 7:05 is shown as "Day 12 - 07:05". */
  lemma FormatTimeExample()
    ensures FormatTime(12, 7, 5) == "Day 12 - 07:05"
  {
    assert IntToString(12) == NatToString(1) + ['2'];
    assert PadTwo(7) == "07" && PadTwo(5) == "05";
  }

  /** A fresh clock, updated once by less than a simulated hour, reads hour 0
      of day 1 in the Night period. */
  method FirstUpdateExample(deltaTime: real) returns (hour: int, period: DayPeriod)
    requires deltaTime >= 0.0 && deltaTime * 60.0 < 3600.0
    ensures hour == 0 && period == Night
  {
    var c := new Clock(Clock.DefaultTimeScale());
    c.Update(deltaTime);
    NoStartOffset(c.totalSeconds);
    hour := c.hour;
    period := c.timeOfDay.currentPeriod;
  }
}

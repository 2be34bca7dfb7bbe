/** The calendar vocabulary of the simulation: the five periods of a day,
    the hour predicates the behaviour scheduler consults, and the
    `TimeOfDay` object that remembers the current period. */
module TimeOfDay {

  datatype DayPeriod = Dawn | Morning | Afternoon | Evening | Night

  /** The period an hour belongs to; hours outside 5..19 (including
      negative or >= 24 values) are Night. */
  function CalculatePeriod(hour: int): (p: DayPeriod)
    ensures p == Dawn <==> 5 <= hour < 8
    ensures p == Morning <==> 8 <= hour < 12
    ensures p == Afternoon <==> 12 <= hour < 17
    ensures p == Evening <==> 17 <= hour < 20
    ensures p == Night <==> hour < 5 || hour >= 20
  {
    if 5 <= hour < 8 then Dawn
    else if 8 <= hour < 12 then Morning
    else if 12 <= hour < 17 then Afternoon
    else if 17 <= hour < 20 then Evening
    else Night
  }

  predicate IsWorkHours(hour: int) { 9 <= hour < 17 }

  predicate IsSleepTime(hour: int) { hour >= 22 || hour < 6 }

  /** Breakfast 7-9, lunch 12-13, dinner 18-20 (half-open). */
  predicate IsMealTime(hour: int)
  {
    (7 <= hour < 9) || (12 <= hour < 13) || (18 <= hour < 20)
  }

  predicate IsGoodTimeForWork(hour: int) { IsWorkHours(hour) }

  predicate IsGoodTimeForSleep(hour: int) { IsSleepTime(hour) }

  function PeriodName(p: DayPeriod): (s: string)
    ensures |s| > 0
  {
    match p
    case Dawn => "Dawn"
    case Morning => "Morning"
    case Afternoon => "Afternoon"
    case Evening => "Evening"
    case Night => "Night"
  }

  /** The activity label for an hour. The fallback uses the STORED period
      `period`, not the period of `hour`. */
  function SuggestedActivityFor(period: DayPeriod, hour: int): (a: string)
    ensures IsSleepTime(hour) ==> a == "Sleeping"
    ensures !IsSleepTime(hour) && IsWorkHours(hour) ==> a == "Working"
    ensures !IsSleepTime(hour) && !IsWorkHours(hour) && IsMealTime(hour) ==> a == "Eating"
    ensures !IsSleepTime(hour) && !IsWorkHours(hour) && !IsMealTime(hour) ==>
      a == match period
           case Dawn => "Morning routine"
           case Morning => "Socializing"
           case Afternoon => "Activities"
           case Evening => "Relaxing"
           case Night => "Resting"
  {
    if IsSleepTime(hour) then "Sleeping"
    else if IsWorkHours(hour) then "Working"
    else if IsMealTime(hour) then "Eating"
    else match period
      case Dawn => "Morning routine"
      case Morning => "Socializing"
      case Afternoon => "Activities"
      case Evening => "Relaxing"
      case Night => "Resting"
  }

  predicate IsGoodTimeForLeisureIn(period: DayPeriod, hour: int)
  {
    period == Evening || period == Afternoon || (!IsWorkHours(hour) && !IsSleepTime(hour))
  }

  /** Holds the current period of the day; updated from the clock's hour. */
  class TimeOfDay {
    var currentPeriod: DayPeriod

    constructor ()
      ensures currentPeriod == Morning
    {
      currentPeriod := Morning;
    }

    method UpdateFromHour(hour: int)
      modifies this
      ensures currentPeriod == CalculatePeriod(hour)
    {
      currentPeriod := CalculatePeriod(hour);
    }

    function PeriodString(): (s: string)
      reads this
      ensures s == PeriodName(currentPeriod)
      ensures s in {"Dawn", "Morning", "Afternoon", "Evening", "Night"}
    {
      PeriodName(currentPeriod)
    }

    predicate IsDay()
      reads this
    {
      currentPeriod == Dawn || currentPeriod == Morning
      || currentPeriod == Afternoon || currentPeriod == Evening
    }

    predicate IsNight()
      reads this
    {
      currentPeriod == Night
    }

    function SuggestedActivity(hour: int): (a: string)
      reads this
      ensures a == SuggestedActivityFor(currentPeriod, hour)
    {
      SuggestedActivityFor(currentPeriod, hour)
    }

    predicate IsGoodTimeForLeisure(hour: int)
      reads this
    {
      IsGoodTimeForLeisureIn(currentPeriod, hour)
    }

    lemma DayIsNotNight()
      ensures IsDay() <==> !IsNight()
    {
    }
  }

  // -----------------------------------------------------------------------
  // Properties of the hour predicates.

  /** Every hour in a day belongs to exactly the period its range says. */
  lemma PeriodPartition(hour: int)
    requires 0 <= hour < 24
    ensures CalculatePeriod(hour) == Dawn || CalculatePeriod(hour) == Morning
         || CalculatePeriod(hour) == Afternoon || CalculatePeriod(hour) == Evening
         || CalculatePeriod(hour) == Night
    ensures CalculatePeriod(hour) == Night <==> (hour < 5 || hour >= 20)
  {
  }

  lemma SleepExcludesWorkAndMeals(hour: int)
    ensures IsSleepTime(hour) ==> !IsWorkHours(hour) && !IsMealTime(hour)
  {
  }

  /** Work hours and meal times overlap at hour 12 and nowhere else. */
  lemma WorkMealOverlap(hour: int)
    ensures IsWorkHours(hour) && IsMealTime(hour) <==> hour == 12
  {
  }

  /** At noon the suggested activity is "Working", whatever period is stored. */
  lemma NoonSuggestsWorking(period: DayPeriod)
    ensures SuggestedActivityFor(period, 12) == "Working"
  {
  }

  /** The fallback reads the stored period: at hour 6 with a stored Night
      period the suggestion is "Resting" although hour 6 is Dawn. */
  lemma FallbackUsesStoredPeriod()
    ensures CalculatePeriod(6) == Dawn
    ensures SuggestedActivityFor(Night, 6) == "Resting"
    ensures SuggestedActivityFor(Dawn, 6) == "Morning routine"
  {
  }

  /** The three "good time" predicates as hour ranges. Leisure with the
      period the hour itself belongs to holds at 6-9 (Dawn and Morning before
      work) and 12-22 (Afternoon, Evening and the first Night hours before
      sleep); with a stored period it holds all the time in the Afternoon and
      Evening, else at 6-9 and 17-22. */
  lemma GoodTimeRanges(period: DayPeriod, hour: int)
    ensures IsGoodTimeForWork(hour) <==> 9 <= hour < 17
    ensures IsGoodTimeForSleep(hour) <==> hour < 6 || 22 <= hour
    ensures IsGoodTimeForLeisureIn(CalculatePeriod(hour), hour) <==>
              6 <= hour < 9 || 12 <= hour < 22
    ensures IsGoodTimeForLeisureIn(period, hour) <==>
              period == Afternoon || period == Evening || 6 <= hour < 9 || 17 <= hour < 22
  {
  }

  /** With the hour's own period, no hour is good both for sleep and for
      leisure, and work and leisure overlap exactly in the afternoon hours. */
  lemma GoodTimeOverlaps(hour: int)
    ensures !(IsGoodTimeForSleep(hour) && IsGoodTimeForLeisureIn(CalculatePeriod(hour), hour))
    ensures (IsGoodTimeForWork(hour) && IsGoodTimeForLeisureIn(CalculatePeriod(hour), hour))
              <==> 12 <= hour < 17
  {
  }
}

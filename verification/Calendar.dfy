/** The proleptic Gregorian calendar as `Date` implements it in UTC, for years 0 to 9999, and the Monday of a day. */
module Calendar {

  datatype Stamp = Stamp(year: nat, month: nat, day: nat, hour: nat, minute: nat, second: nat, millisecond: nat)

  const MS_PER_DAY := 86400000

  predicate IsLeap(y: nat) {
    y % 4 == 0 && (y % 100 != 0 || y % 400 == 0)
  }

  function DaysInMonth(y: nat, m: nat): nat {
    if m == 2 then (if IsLeap(y) then 29 else 28) else if m in {4, 6, 9, 11} then 30 else 31
  }

  /** The stamps that `toISOString` gives back unchanged. */
  predicate Valid(s: Stamp) {
    && s.year <= 9999 && 1 <= s.month <= 12 && 1 <= s.day <= DaysInMonth(s.year, s.month)
    && s.hour < 24 && s.minute < 60 && s.second < 60 && s.millisecond < 1000
  }

  /** Days from 0000-01-01 to the first day of year `y`. */
  function DaysBeforeYear(y: nat): nat {
    365 * y + (y + 3) / 4 - (y + 99) / 100 + (y + 399) / 400
  }

  /** Days from the first day of the year to the first day of the month. */
  function DaysBeforeMonth(y: nat, m: nat): nat {
    if m <= 1 then 0 else DaysBeforeMonth(y, m - 1) + DaysInMonth(y, m - 1)
  }

  function DayNumber(y: nat, m: nat, d: nat): int {
    DaysBeforeYear(y) + DaysBeforeMonth(y, m) + d - 1
  }

  /** `getUTCDay`: 0 is Sunday. */
  function WeekDay(dayNumber: int): int {
    (dayNumber + 6) % 7
  }

  function MondayOf(dayNumber: int): int {
    dayNumber - (WeekDay(dayNumber) + 6) % 7
  }

  function DayOf(s: Stamp): int {
    DayNumber(s.year, s.month, s.day)
  }

  function TimeOfDay(s: Stamp): int {
    ((s.hour * 60 + s.minute) * 60 + s.second) * 1000 + s.millisecond
  }

  /** Milliseconds since 0000-01-01T00:00:00.000Z. */
  function Instant(s: Stamp): int {
    DayOf(s) * MS_PER_DAY + TimeOfDay(s)
  }

  lemma Quarters(y: nat)
    ensures (y + 4) / 4 == (y + 3) / 4 + if y % 4 == 0 then 1 else 0
  {
  }

  lemma Centuries(y: nat)
    ensures (y + 100) / 100 == (y + 99) / 100 + if y % 100 == 0 then 1 else 0
  {
  }

  lemma Cycles(y: nat)
    ensures (y + 400) / 400 == (y + 399) / 400 + if y % 400 == 0 then 1 else 0
  {
  }

  lemma CenturyIsQuarter(y: nat)
    requires y % 100 == 0
    ensures y % 4 == 0
  {
    var q := y / 100;
    assert y == 100 * q;
    assert y / 4 == 25 * q;
  }

  lemma CycleIsCentury(y: nat)
    requires y % 400 == 0
    ensures y % 100 == 0
  {
    var q := y / 400;
    assert y == 400 * q;
    assert y / 100 == 4 * q;
  }

  lemma YearLength(y: nat)
    ensures DaysBeforeYear(y + 1) == DaysBeforeYear(y) + (if IsLeap(y) then 366 else 365)
  {
    Quarters(y);
    Centuries(y);
    Cycles(y);
    var quarter, century, cycle := y % 4 == 0, y % 100 == 0, y % 400 == 0;
    assert IsLeap(y) <==> quarter && (!century || cycle);
    assert century ==> quarter by {
      if century {
        CenturyIsQuarter(y);
      }
    }
    assert cycle ==> century by {
      if cycle {
        CycleIsCentury(y);
      }
    }
    hide IsLeap;
  }

  lemma {:induction false} YearsGrow(y: nat, z: nat)
    requires y < z
    ensures DaysBeforeYear(y) + (if IsLeap(y) then 366 else 365) <= DaysBeforeYear(z)
    decreases z
  {
    YearLength(z - 1);
    if y < z - 1 {
      YearsGrow(y, z - 1);
    }
  }

  lemma {:induction false} MonthsGrow(y: nat, m: nat, n: nat)
    requires 1 <= m < n
    ensures DaysBeforeMonth(y, m) + DaysInMonth(y, m) <= DaysBeforeMonth(y, n)
    decreases n
  {
    if m < n - 1 {
      MonthsGrow(y, m, n - 1);
    }
  }

  lemma YearEnd(y: nat)
    ensures DaysBeforeMonth(y, 12) + 31 == if IsLeap(y) then 366 else 365
  {
    assert DaysBeforeMonth(y, 2) == 31;
    assert DaysBeforeMonth(y, 3) == 31 + DaysInMonth(y, 2);
    assert DaysBeforeMonth(y, 5) == DaysBeforeMonth(y, 3) + 61;
    assert DaysBeforeMonth(y, 7) == DaysBeforeMonth(y, 5) + 61;
    assert DaysBeforeMonth(y, 9) == DaysBeforeMonth(y, 7) + 62;
    assert DaysBeforeMonth(y, 11) == DaysBeforeMonth(y, 9) + 61;
  }

  predicate EarlierDate(s: Stamp, t: Stamp) {
    s.year < t.year || (s.year == t.year && (s.month < t.month || (s.month == t.month && s.day < t.day)))
  }

  predicate EarlierTime(s: Stamp, t: Stamp) {
    || s.hour < t.hour
    || (s.hour == t.hour && (|| s.minute < t.minute
        || (s.minute == t.minute && (|| s.second < t.second
            || (s.second == t.second && s.millisecond < t.millisecond)))))
  }

  predicate SameDate(s: Stamp, t: Stamp) {
    s.year == t.year && s.month == t.month && s.day == t.day
  }

  /** Field-by-field order of stamps. */
  predicate Earlier(s: Stamp, t: Stamp) {
    EarlierDate(s, t) || (SameDate(s, t) && EarlierTime(s, t))
  }

  lemma DatesGrow(s: Stamp, t: Stamp)
    requires Valid(s) && Valid(t) && EarlierDate(s, t)
    ensures DayOf(s) < DayOf(t)
  {
    if s.year < t.year {
      YearsGrow(s.year, t.year);
      YearEnd(s.year);
      if s.month < 12 {
        MonthsGrow(s.year, s.month, 12);
      }
    } else if s.month < t.month {
      MonthsGrow(s.year, s.month, t.month);
    }
  }

  /** Stamp order is time order. */
  lemma EarlierIsInstantOrder(s: Stamp, t: Stamp)
    requires Valid(s) && Valid(t)
    ensures Earlier(s, t) <==> Instant(s) < Instant(t)
    ensures s == t <==> Instant(s) == Instant(t)
  {
    if EarlierDate(s, t) {
      DatesGrow(s, t);
    } else if EarlierDate(t, s) {
      DatesGrow(t, s);
    }
    hide DayOf;
    assert 0 <= TimeOfDay(s) < MS_PER_DAY && 0 <= TimeOfDay(t) < MS_PER_DAY;
  }

  /** Later instants never fall on an earlier day or in an earlier week. */
  lemma PeriodsAreMonotone(s: Stamp, t: Stamp)
    requires Valid(s) && Valid(t) && Instant(s) <= Instant(t)
    ensures DayOf(s) <= DayOf(t)
    ensures MondayOf(DayOf(s)) <= MondayOf(DayOf(t))
  {
    hide DayOf;
  }

  // ----- The day count against the calendar -----

  const EPOCH := Stamp(1970, 1, 1, 0, 0, 0, 0)

  /** Days from 1970-01-01 to the day of a stamp. */
  function DaysSinceEpoch(s: Stamp): int {
    DayOf(s) - DayOf(EPOCH)
  }

  /** The date after a date. */
  function Tomorrow(s: Stamp): Stamp {
    if s.day < DaysInMonth(s.year, s.month) then s.(day := s.day + 1)
    else if s.month < 12 then s.(month := s.month + 1, day := 1)
    else s.(year := s.year + 1, month := 1, day := 1)
  }

  /** From any date to the next the count goes up by one: with the epoch at zero that fixes it for every date. */
  lemma EveryDayCountsOne(s: Stamp)
    requires Valid(s)
    ensures DaysSinceEpoch(Tomorrow(s)) == DaysSinceEpoch(s) + 1
    ensures DaysSinceEpoch(EPOCH) == 0
    ensures s.year < 9999 || s.month < 12 || s.day < 31 ==> Valid(Tomorrow(s))
  {
    hide IsLeap;
    YearLength(s.year);
    YearEnd(s.year);
  }

  /** The leap rule: years divisible by four have 29 days in February, but of the full centuries only every fourth. */
  lemma LeapYears(y: nat)
    ensures DaysInMonth(y, 2) == if y % 4 == 0 && !(y % 100 == 0 && y % 400 != 0) then 29 else 28
    ensures DaysBeforeYear(y + 400) == DaysBeforeYear(y) + 146097
  {
    assert (y + 400 + 3) / 4 == (y + 3) / 4 + 100;
    assert (y + 400 + 99) / 100 == (y + 99) / 100 + 4;
    assert (y + 400 + 399) / 400 == (y + 399) / 400 + 1;
  }

  /** The weekday follows from the distance to 1970-01-01, a Thursday, for every date. */
  lemma WeekDayFromDistance(s: Stamp)
    requires Valid(s)
    ensures WeekDay(DayOf(s)) == (4 + DaysSinceEpoch(s)) % 7
  {
    EpochIsDay();
    hide DayOf;
  }

  /**
   The week bucket of a date is the Monday on or before it, at most six days back: a day whose distance to that Thursday
   is four days more than whole weeks.
   */
  lemma MondayIsWeekStart(s: Stamp)
    requires Valid(s)
    ensures WeekDay(MondayOf(DayOf(s))) == 1
    ensures var monday := MondayOf(DayOf(s)) - DayOf(EPOCH);
      monday % 7 == 4 && monday <= DaysSinceEpoch(s) < monday + 7
  {
    EpochIsDay();
    hide DayOf;
  }

  lemma EpochIsDay()
    ensures DayOf(EPOCH) == 719528
  {
    assert DaysBeforeMonth(1970, 1) == 0;
  }

  /** Dates whose weekday is known: two century years on either side of the leap rule, and a Sunday of 2026. */
  lemma KnownWeekDays()
    ensures WeekDay(DayOf(EPOCH)) == 4
    ensures WeekDay(DayNumber(1900, 3, 1)) == 4
    ensures WeekDay(DayNumber(2000, 2, 29)) == 2
    ensures WeekDay(DayNumber(2026, 7, 26)) == 0
    ensures Instant(Stamp(2026, 7, 26, 3, 0, 0, 0)) - Instant(EPOCH) == 1785034800000
  {
    assert DaysBeforeMonth(1900, 3) == 59 && DaysBeforeMonth(2000, 2) == 31;
    assert DaysBeforeMonth(2026, 3) == 59;
    assert DaysBeforeMonth(2026, 5) == 120;
    assert DaysBeforeMonth(2026, 7) == 181;
    EpochIsDay();
  }
}

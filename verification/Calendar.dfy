/** The closed formula for the day number of a Gregorian date, against the calendar walked one day
    at a time. */
module Calendar {
  import opened Options

  /** A calendar date; valid or not. */
  datatype Date = Date(year: int, month: int, day: int)

  const EPOCH: Date := Date(1970, 1, 1)

  // ---- the code -----------------------------------------------------------------------------

  predicate IsLeapYear(year: int) {
    year % 4 == 0 && (year % 100 != 0 || year % 400 == 0)
  }

  /** None for a month that does not exist. */
  function MonthLength(year: int, month: int): Option<int> {
    if month in {1, 3, 5, 7, 8, 10, 12} then Some(31)
    else if month in {4, 6, 9, 11} then Some(30)
    else if month == 2 then Some(if IsLeapYear(year) then 29 else 28)
    else None
  }

  /** `/` rounding toward zero. */
  function Quotient(a: int, b: int): int
    requires b > 0
  {
    if a >= 0 then a / b else -(-a / b)
  }

  function DaysFromCivil(date: Date): Option<int> {
    var adjustedYear := date.year - (if date.month <= 2 then 1 else 0);
    var era := adjustedYear / 400;
    var yearOfEra := adjustedYear - era * 400;
    var shiftedMonth := date.month + (if date.month > 2 then -3 else 9);
    var dayOfYear := Quotient(153 * shiftedMonth + 2, 5) + date.day - 1;
    var dayOfEra := yearOfEra * 365 + Quotient(yearOfEra, 4) - Quotient(yearOfEra, 100) + dayOfYear;
    var days := era * 146_097 + dayOfEra - 719_468;
    var length := MonthLength(date.year, date.month);
    if length.None? || date.day > length.value then None else Some(days)
  }

  // ---- the calendar -------------------------------------------------------------------------

  predicate IsDate(date: Date) {
    MonthLength(date.year, date.month).Some? && 1 <= date.day <= MonthLength(date.year, date.month).value
  }

  function NextDay(date: Date): Date
    requires IsDate(date)
  {
    if date.day < MonthLength(date.year, date.month).value then date.(day := date.day + 1)
    else if date.month < 12 then Date(date.year, date.month + 1, 1)
    else Date(date.year + 1, 1, 1)
  }

  function DayBefore(date: Date): Date
    requires IsDate(date)
  {
    if date.day > 1 then date.(day := date.day - 1)
    else if date.month > 1 then Date(date.year, date.month - 1, MonthLength(date.year, date.month - 1).value)
    else Date(date.year - 1, 12, 31)
  }

  lemma NeighboursAreInverse(date: Date)
    requires IsDate(date)
    ensures IsDate(NextDay(date)) && DayBefore(NextDay(date)) == date
    ensures IsDate(DayBefore(date)) && NextDay(DayBefore(date)) == date
  {
  }

  /** The date `n` days after the first of January 1970, walking day by day. */
  function Walk(n: int): (date: Date)
    ensures IsDate(date)
    decreases if n < 0 then -n else n
  {
    if n == 0 then EPOCH
    else if n > 0 then (NeighboursAreInverse(Walk(n - 1)); NextDay(Walk(n - 1)))
    else (NeighboursAreInverse(Walk(n + 1)); DayBefore(Walk(n + 1)))
  }

  // ---- the formula, straightened ------------------------------------------------------------

  function LeapDays(year: int): int { year / 4 - year / 100 + year / 400 }

  /** Days of the year before a month, counting from March. */
  function DaysBefore(shiftedMonth: int): int { (153 * shiftedMonth + 2) / 5 }

  lemma EraSplits(year: int)
    ensures var era := year / 400; var rest := year - era * 400;
      && 0 <= rest < 400
      && era * 146_097 + rest * 365 + rest / 4 - rest / 100 == 365 * year + LeapDays(year)
  {
    var era, rest := year / 400, year % 400;
    assert year == 400 * era + rest;
    assert year / 4 == 100 * era + rest / 4;
    assert year / 100 == 4 * era + rest / 100;
  }

  function YearOf(date: Date): int { date.year - (if date.month <= 2 then 1 else 0) }

  function MarchMonth(date: Date): int { date.month + (if date.month > 2 then -3 else 9) }

  lemma Straightened(date: Date)
    requires IsDate(date)
    ensures DaysFromCivil(date)
         == Some(365 * YearOf(date) + LeapDays(YearOf(date)) + DaysBefore(MarchMonth(date)) + date.day - 1 - 719_468)
  {
    EraSplits(YearOf(date));
  }

  lemma FourthStep(year: int)
    ensures year / 4 - (year - 1) / 4 == if year % 4 == 0 then 1 else 0
  {
  }

  lemma HundredthStep(year: int)
    ensures year / 100 - (year - 1) / 100 == if year % 100 == 0 then 1 else 0
    ensures year % 100 == 0 ==> year % 4 == 0
  {
    Divided(year, 100, year / 100, year % 100);
    Divided(year - 1, 100, (year - 1) / 100, (year - 1) % 100);
    if year % 100 == 0 { assert year == 4 * (25 * (year / 100)); }
  }

  lemma FourHundredthStep(year: int)
    ensures year / 400 - (year - 1) / 400 == if year % 400 == 0 then 1 else 0
    ensures year % 400 == 0 ==> year % 100 == 0
  {
    Divided(year, 400, year / 400, year % 400);
    Divided(year - 1, 400, (year - 1) / 400, (year - 1) % 400);
    if year % 400 == 0 { assert year == 100 * (4 * (year / 400)); }
  }

  lemma Divided(a: int, b: int, q: int, r: int)
    requires b > 0 && q == a / b && r == a % b
    ensures a == b * q + r && 0 <= r < b
  {
  }

  lemma LeapStep(year: int)
    ensures LeapDays(year) - LeapDays(year - 1) == if IsLeapYear(year) then 1 else 0
  {
    FourthStep(year);
    HundredthStep(year);
    FourHundredthStep(year);
  }

  /** Counted from March, every month but the last is as long as the gap to the next. */
  lemma MonthStep(year: int, month: int)
    requires 1 <= month <= 12 && month != 2
    ensures var next := if month == 12 then 1 else month + 1;
      DaysBefore(MarchMonth(Date(year, next, 1))) - DaysBefore(MarchMonth(Date(year, month, 1))) == MonthLength(year, month).value
  {
  }

  // ---- main results -------------------------------------------------------------------------

  /** Consecutive dates have consecutive numbers. */
  lemma NextDayIsOneMore(date: Date)
    requires IsDate(date)
    ensures IsDate(NextDay(date)) && DaysFromCivil(date).Some?
    ensures DaysFromCivil(NextDay(date)) == Some(DaysFromCivil(date).value + 1)
  {
    hide DaysFromCivil, LeapDays, DaysBefore, IsLeapYear;
    NeighboursAreInverse(date);
    Straightened(date);
    Straightened(NextDay(date));
    if date.month == 2 {
      LeapStep(date.year);
      MarchTable();
    } else {
      MonthStep(date.year, date.month);
    }
  }

  lemma MarchTable()
    ensures DaysBefore(0) == 0 && DaysBefore(11) == 337
  {
  }

  /** The formula is the day count: the n-th day has number n, for every n before and after 1970. */
  lemma {:induction false} WalkIsCounted(n: int)
    ensures DaysFromCivil(Walk(n)) == Some(n)
    decreases if n < 0 then -n else n
  {
    hide DaysFromCivil, NextDay, DayBefore;
    if n > 0 {
      WalkIsCounted(n - 1);
      NextDayIsOneMore(Walk(n - 1));
    } else if n < 0 {
      WalkIsCounted(n + 1);
      NeighboursAreInverse(Walk(n + 1));
      NextDayIsOneMore(DayBefore(Walk(n + 1)));
    } else {
      Straightened(EPOCH);
    }
  }

  /** Day one of a year, as a day number. */
  function YearStart(year: int): int { 365 * (year - 1970) + LeapDays(year - 1) - LeapDays(1969) }

  lemma DayOfYear(date: Date)
    requires IsDate(date)
    ensures var n := DaysBefore(MarchMonth(date)) + date.day - 1;
      if date.month <= 2 then 306 <= n < 365 + (if IsLeapYear(date.year) then 1 else 0) else 0 <= n < 306
  {
    hide IsLeapYear;
  }

  lemma EpochLeapDays()
    ensures LeapDays(1969) == 477
  {
  }

  lemma WithinYear(date: Date)
    requires IsDate(date)
    ensures DaysFromCivil(date).Some? && YearStart(date.year) <= DaysFromCivil(date).value < YearStart(date.year + 1)
  {
    hide DaysFromCivil, IsLeapYear, LeapDays, DaysBefore, MonthLength;
    Straightened(date);
    DayOfYear(date);
    LeapStep(date.year);
    EpochLeapDays();
  }

  lemma {:induction false} YearsAscend(a: int, b: int)
    requires a <= b
    ensures YearStart(b) - YearStart(a) >= 365 * (b - a)
    decreases b - a
  {
    hide LeapDays;
    if a < b {
      YearsAscend(a, b - 1);
      LeapStep(b - 1);
    }
  }

  lemma OnlyEpochIsZero(date: Date)
    requires IsDate(date) && DaysFromCivil(date) == Some(0)
    ensures date == EPOCH
  {
    hide DaysFromCivil, LeapDays, MonthLength;
    WithinYear(date);
    if date.year > 1970 { YearsAscend(1970, date.year); }
    if date.year < 1970 { YearsAscend(date.year + 1, 1970); }
    SameYearZero(date);
  }

  lemma SameYearZero(date: Date)
    requires IsDate(date) && date.year == 1970 && DaysFromCivil(date) == Some(0)
    ensures date == EPOCH
  {
  }

  /** Every valid date is reached by walking its number of days: dates and day numbers correspond
      one to one. */
  lemma {:induction false} CountIsWalked(date: Date)
    requires IsDate(date)
    ensures DaysFromCivil(date).Some? && Walk(DaysFromCivil(date).value) == date
    decreases var n := DaysFromCivil(date); if n.None? then 0 else if n.value < 0 then -n.value else n.value
  {
    hide DaysFromCivil, NextDay, DayBefore, IsDate;
    WithinYear(date);
    var n := DaysFromCivil(date).value;
    NeighboursAreInverse(date);
    if n == 0 {
      OnlyEpochIsZero(date);
    } else if n > 0 {
      NextDayIsOneMore(DayBefore(date));
      CountIsWalked(DayBefore(date));
    } else {
      NextDayIsOneMore(date);
      CountIsWalked(NextDay(date));
    }
  }

  /** Two dates of one number are one date. */
  lemma DatesAreTold(a: Date, b: Date)
    requires IsDate(a) && IsDate(b) && DaysFromCivil(a) == DaysFromCivil(b)
    ensures a == b
  {
    hide DaysFromCivil, IsDate;
    CountIsWalked(a);
    CountIsWalked(b);
  }

  /** The code refuses exactly a month out of range and a day after the month's end; a day before
      the first counts back from it, so for days from the first on it refuses exactly the dates
      that do not exist. */
  lemma RefusedIff(date: Date)
    ensures DaysFromCivil(date) == None
       <==> !(1 <= date.month <= 12) || date.day > MonthLength(date.year, date.month).value
    ensures date.day >= 1 ==> (DaysFromCivil(date) == None <==> !IsDate(date))
    ensures date.day < 1 && 1 <= date.month <= 12 ==>
      DaysFromCivil(date) == Some(DaysFromCivil(date.(day := 1)).value - 1 + date.day)
  {
  }
}

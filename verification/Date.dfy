/**
 The Julian day arithmetic of the Date class, against day-by-day succession in the
 proleptic Gregorian calendar.
 */
module Date {

  datatype Ymd = Ymd(year: int, month: int, day: int)

  const DAYS_PER_WEEK := 7
  const JULIAN_DAY_OF_1970_01_01 := 2440588

  /** C++ integer division, which truncates toward zero. */
  function Quot(a: int, b: int): int
    requires b > 0
  {
    if a >= 0 then a / b else -((-a) / b)
  }

  /** C++ integer remainder, which takes the sign of the dividend. */
  function Rem(a: int, b: int): int
    requires b > 0
  {
    a - b * Quot(a, b)
  }

  // ---------- the calendar ----------

  predicate Leap(y: int) {
    y % 4 == 0 && (y % 100 != 0 || y % 400 == 0)
  }

  function DaysInMonth(y: int, m: int): int {
    if m == 2 then (if Leap(y) then 29 else 28)
    else if m == 4 || m == 6 || m == 9 || m == 11 then 30
    else 31
  }

  predicate Valid(d: Ymd) {
    1 <= d.month <= 12 && 1 <= d.day <= DaysInMonth(d.year, d.month)
  }

  /** The next calendar day. */
  function Next(d: Ymd): Ymd {
    if d.day < DaysInMonth(d.year, d.month) then d.(day := d.day + 1)
    else if d.month < 12 then Ymd(d.year, d.month + 1, 1)
    else Ymd(d.year + 1, 1, 1)
  }

  /** The day `n` days after `d`. */
  function After(d: Ymd, n: nat): Ymd
    decreases n
  {
    if n == 0 then d else After(Next(d), n - 1)
  }

  predicate Before(d: Ymd, e: Ymd) {
    || d.year < e.year
    || (d.year == e.year && (d.month < e.month || (d.month == e.month && d.day < e.day)))
  }

  // ---------- the source's formulas ----------

  /** Date::getJulianDayNumber, over mathematical integers. */
  function JulianDay(d: Ymd): int {
    var a := Quot(14 - d.month, 12);
    var y := d.year + 4800 - a;
    var m := d.month + 12 * a - 3;
    d.day + Quot(153 * m + 2, 5) + y * 365 + Quot(y, 4) - Quot(y, 100) + Quot(y, 400) - 32045
  }

  function FromJulianDay(julianDay: int): int {
    julianDay - JULIAN_DAY_OF_1970_01_01
  }

  function ToJulianDay(sysDays: int): int {
    sysDays + JULIAN_DAY_OF_1970_01_01
  }

  /** Date::weekDay of a Date built from a year, a month and a day. */
  function WeekDay(d: Ymd): int {
    Rem(ToJulianDay(FromJulianDay(JulianDay(d))) + 1, DAYS_PER_WEEK)
  }

  // ---------- succession ----------

  /** The last day of a February at or before year -4800, next to a leap year. */
  predicate BrokenFebruary(d: Ymd) {
    && d.month == 2 && d.day == DaysInMonth(d.year, 2)
    && d.year <= -4800
    && (Leap(d.year) || Leap(d.year - 1))
  }

  /** The dates for which every division in the formula has a non-negative dividend. */
  predicate InEra(d: Ymd) {
    Before(Ymd(-4800, 2, 29), d)
  }

  lemma NextValid(d: Ymd)
    requires Valid(d)
    ensures Valid(Next(d)) && Before(d, Next(d))
    ensures InEra(d) ==> InEra(Next(d))
  {
  }

  /** One more multiple of a divisor up to `n` than up to `n - 1`, exactly when `n` is one. */
  lemma MultiplesUpTo(n: int)
    ensures n / 4 - (n - 1) / 4 == if n % 4 == 0 then 1 else 0
    ensures n / 100 - (n - 1) / 100 == if n % 100 == 0 then 1 else 0
    ensures n / 400 - (n - 1) / 400 == if n % 400 == 0 then 1 else 0
    ensures n % 400 == 0 ==> n % 100 == 0
    ensures n % 100 == 0 ==> n % 4 == 0
  {
  }

  // Negation and a shift by 4800 years do not change which of the three divisors divide.

  lemma SameBy4(n: int)
    ensures ((-n) % 4 == 0 <==> n % 4 == 0) && ((n + 4800) % 4 == 0 <==> n % 4 == 0)
  {
  }

  lemma SameBy100(n: int)
    ensures ((-n) % 100 == 0 <==> n % 100 == 0) && ((n + 4800) % 100 == 0 <==> n % 100 == 0)
  {
  }

  lemma SameBy400(n: int)
    ensures ((-n) % 400 == 0 <==> n % 400 == 0) && ((n + 4800) % 400 == 0 <==> n % 400 == 0)
  {
  }

  lemma LeapAgain(n: int)
    ensures Leap(-n) == Leap(n) && Leap(n + 4800) == Leap(n)
  {
    SameBy4(n);
    SameBy100(n);
    SameBy400(n);
  }

  lemma NoTwoLeapYears(n: int)
    ensures !(Leap(n) && Leap(n - 1))
  {
    assert !(n % 4 == 0 && (n - 1) % 4 == 0);
  }

  function LeapCount(y: int): int {
    Quot(y, 4) - Quot(y, 100) + Quot(y, 400)
  }

  lemma LeapsUpTo(n: int)
    requires n >= 0
    ensures LeapCount(n + 1) - LeapCount(n) == if Leap(n + 1) then 1 else 0
  {
    MultiplesUpTo(n + 1);
  }

  lemma LeapCountOdd(n: int)
    ensures LeapCount(-n) == -LeapCount(n)
  {
  }

  /** How the leap-day count moves from the March-based year `y` to the next one. */
  lemma LeapDays(y: int)
    ensures LeapCount(y + 1) - LeapCount(y) == if Leap(if y >= 0 then y + 1 else y) then 1 else 0
  {
    if y >= 0 {
      LeapsUpTo(y);
    } else {
      LeapsUpTo(-y - 1);
      LeapCountOdd(-y);
      LeapCountOdd(-y - 1);
      LeapAgain(y);
    }
  }

  /** Days before a month in the year that starts in March. */
  function DaysBefore(month: int): int {
    if month == 1 then 306 else if month == 2 then 337
    else if month == 3 then 0 else if month == 4 then 31 else if month == 5 then 61 else if month == 6 then 92
    else if month == 7 then 122 else if month == 8 then 153 else if month == 9 then 184 else if month == 10 then 214
    else if month == 11 then 245 else 275
  }

  lemma JulianDayParts(d: Ymd)
    requires 1 <= d.month <= 12
    ensures var y := d.year + if d.month <= 2 then 4799 else 4800;
            JulianDay(d) == d.day + DaysBefore(d.month) + y * 365 + LeapCount(y) - 32045
  {
  }

  /** How many leap days the March-based year that starts in `year` has seen more than the one before. */
  function LeapMoved(year: int): int {
    LeapCount(year + 4800) - LeapCount(year + 4799)
  }

  lemma LeapMovedIs(year: int)
    ensures LeapMoved(year) == if Leap(if year > -4800 then year else year - 1) then 1 else 0
  {
    LeapDays(year + 4799);
    LeapAgain(year);
    LeapAgain(year - 1);
  }

  lemma FebruaryGap(year: int, day: int)
    ensures JulianDay(Ymd(year, 3, 1)) == JulianDay(Ymd(year, 2, day)) + 29 - day + LeapMoved(year)
  {
    JulianDayParts(Ymd(year, 2, day));
    JulianDayParts(Ymd(year, 3, 1));
  }

  /** The last day of a February is followed by number one more unless that February is broken. */
  lemma FebruaryEnd(year: int)
    ensures var d := Ymd(year, 2, DaysInMonth(year, 2));
            JulianDay(Ymd(year, 3, 1)) == JulianDay(d) + 1 <==> !BrokenFebruary(d)
  {
    FebruaryGap(year, DaysInMonth(year, 2));
    LeapMovedIs(year);
    NoTwoLeapYears(year);
  }

  /** The first of a month has a number larger than the first of the month before by that month's length. */
  lemma MonthGap(year: int, month: int, day: int)
    requires 3 <= month <= 11 || month == 1
    ensures JulianDay(Ymd(year, month + 1, 1)) == JulianDay(Ymd(year, month, day)) + DaysInMonth(year, month) - day + 1
  {
    JulianDayParts(Ymd(year, month, day));
    JulianDayParts(Ymd(year, month + 1, 1));
    assert DaysBefore(month + 1) == DaysBefore(month) + DaysInMonth(year, month);
  }

  lemma YearGap(year: int, day: int)
    ensures JulianDay(Ymd(year + 1, 1, 1)) == JulianDay(Ymd(year, 12, day)) + 32 - day
  {
    JulianDayParts(Ymd(year, 12, day));
    JulianDayParts(Ymd(year + 1, 1, 1));
  }

  /** The last day of any other month is followed by number one more. */
  lemma MonthEnd(year: int, month: int)
    requires 1 <= month <= 12 && month != 2
    ensures var last := Ymd(year, month, DaysInMonth(year, month));
            JulianDay(Next(last)) == JulianDay(last) + 1
  {
    if month == 12 {
      YearGap(year, 31);
    } else {
      MonthGap(year, month, DaysInMonth(year, month));
    }
  }

  /** The day number grows by one from a day to the next, except at the broken Februaries. */
  lemma SuccessionExact(d: Ymd)
    requires Valid(d)
    ensures JulianDay(Next(d)) == JulianDay(d) + 1 <==> !BrokenFebruary(d)
  {
    if d.day < DaysInMonth(d.year, d.month) {
      assert Next(d) == d.(day := d.day + 1);
    } else if d.month == 2 {
      FebruaryEnd(d.year);
    } else {
      MonthEnd(d.year, d.month);
    }
  }

  /** Succession breaks somewhere: 29 February -4800. */
  lemma SuccessionBreaks()
    ensures Valid(Ymd(-4800, 2, 29))
    ensures JulianDay(Next(Ymd(-4800, 2, 29))) != JulianDay(Ymd(-4800, 2, 29)) + 1
  {
    SuccessionExact(Ymd(-4800, 2, 29));
  }

  /** From 1 March -4800 on, one calendar day is one day number, however many days are counted. */
  lemma {:induction false} CountsDays(d: Ymd, n: nat)
    requires Valid(d) && InEra(d)
    ensures Valid(After(d, n)) && InEra(After(d, n))
    ensures JulianDay(After(d, n)) == JulianDay(d) + n
    decreases n
  {
    if n > 0 {
      SuccessionExact(d);
      NextValid(d);
      CountsDays(Next(d), n - 1);
    }
  }

  /** A later date is reached from an earlier one by exactly as many days as the numbers differ. */
  lemma {:induction false} Reaches(d: Ymd, e: Ymd)
    requires Valid(d) && Valid(e) && InEra(d) && Before(d, e)
    ensures JulianDay(d) < JulianDay(e)
    ensures After(d, JulianDay(e) - JulianDay(d)) == e
    decreases e.year - d.year, 12 - d.month, 31 - d.day
  {
    SuccessionExact(d);
    NextValid(d);
    if Next(d) != e {
      Reaches(Next(d), e);
    }
  }

  /** The day number orders dates as the calendar does, and so names each date once. */
  lemma OrderPreserving(d: Ymd, e: Ymd)
    requires Valid(d) && Valid(e) && InEra(d) && InEra(e)
    ensures Before(d, e) <==> JulianDay(d) < JulianDay(e)
    ensures d == e <==> JulianDay(d) == JulianDay(e)
  {
    if Before(d, e) {
      Reaches(d, e);
    } else if Before(e, d) {
      Reaches(e, d);
    }
  }

  /** Every day number from that of 1 March -4800 on is the number of exactly one valid date. */
  lemma EveryNumberIsADate(n: int) returns (d: Ymd)
    requires n >= JulianDay(Ymd(-4800, 3, 1))
    ensures Valid(d) && InEra(d) && JulianDay(d) == n
    ensures forall e :: Valid(e) && InEra(e) && JulianDay(e) == n ==> e == d
  {
    var first := Ymd(-4800, 3, 1);
    d := After(first, n - JulianDay(first));
    CountsDays(first, n - JulianDay(first));
    forall e | Valid(e) && InEra(e) && JulianDay(e) == n ensures e == d {
      OrderPreserving(d, e);
    }
  }

  // ---------- weekdays ----------

  /** C++ remainders by 7: congruent to the dividend, and of its sign. */
  lemma RemainderBySeven(n: int)
    ensures (n - Rem(n, 7)) % 7 == 0
    ensures n >= 0 ==> 0 <= Rem(n, 7) < 7
    ensures n < 0 ==> -7 < Rem(n, 7) <= 0
    ensures Rem(n, 7) == 0 <==> n % 7 == 0
  {
  }

  lemma Congruent(a: int, b: int)
    requires (a - b) % 7 == 0 && 0 <= a < 7 && 0 <= b < 7
    ensures a == b
  {
  }

  lemma AddWeeks(n: int, k: int)
    ensures (n + 7 * k) % 7 == n % 7
  {
  }

  /** A weekday is a number from 0 to 6 exactly from day number -1 on, and before that on Sundays only. */
  lemma WeekDayExact(d: Ymd)
    ensures 0 <= WeekDay(d) < 7 <==> JulianDay(d) >= -1 || (JulianDay(d) + 1) % 7 == 0
  {
    RemainderBySeven(JulianDay(d) + 1);
  }

  /** Everywhere in the era the weekday moves on by one, and by none in seven days, up to multiples of 7. */
  lemma WeekDayMoves(d: Ymd, weeks: nat)
    requires Valid(d) && InEra(d)
    ensures (WeekDay(Next(d)) - WeekDay(d) - 1) % 7 == 0
    ensures (WeekDay(After(d, 7 * weeks)) - WeekDay(d)) % 7 == 0
  {
    DayMoves(d);
    WeeksMove(d, weeks);
  }

  lemma DayMoves(d: Ymd)
    requires Valid(d) && InEra(d)
    ensures (WeekDay(Next(d)) - WeekDay(d) - 1) % 7 == 0
  {
    SuccessionExact(d);
    WeekDaysApart(d, Next(d), 1);
  }

  lemma WeeksMove(d: Ymd, weeks: nat)
    requires Valid(d) && InEra(d)
    ensures (WeekDay(After(d, 7 * weeks)) - WeekDay(d)) % 7 == 0
  {
    var e := After(d, 7 * weeks);
    CountsDays(d, 7 * weeks);
    WeekDaysApart(d, e, 7 * weeks);
    AddWeeks(WeekDay(e) - WeekDay(d) - 7 * weeks, weeks);
  }

  lemma WeekDaysApart(d: Ymd, e: Ymd, days: int)
    requires JulianDay(e) == JulianDay(d) + days
    ensures (WeekDay(e) - WeekDay(d) - days) % 7 == 0
  {
    RemaindersApart(JulianDay(d) + 1, JulianDay(e) + 1);
  }

  lemma RemaindersApart(m: int, n: int)
    ensures (Rem(n, 7) - Rem(m, 7) - (n - m)) % 7 == 0
  {
    RemainderBySeven(m);
    RemainderBySeven(n);
    var a, b := (m - Rem(m, 7)) / 7, (n - Rem(n, 7)) / 7;
    assert m == Rem(m, 7) + 7 * a && n == Rem(n, 7) + 7 * b;
    AddWeeks(0, a - b);
  }

  /** The weekday is a number of days since Sunday, one further each day and the same after any number of weeks. */
  lemma WeekDayAdvances(d: Ymd)
    requires Valid(d) && InEra(d) && JulianDay(d) >= -1
    ensures 0 <= WeekDay(d) < 7
    ensures WeekDay(Next(d)) == (WeekDay(d) + 1) % 7
    ensures forall n: nat :: WeekDay(After(d, 7 * n)) == WeekDay(d)
  {
    WeekDayExact(d);
    OneFurther(d);
    forall n: nat ensures WeekDay(After(d, 7 * n)) == WeekDay(d) {
      SameAfterWeeks(d, n);
    }
  }

  lemma OneFurther(d: Ymd)
    requires Valid(d) && InEra(d) && JulianDay(d) >= -1
    ensures WeekDay(Next(d)) == (WeekDay(d) + 1) % 7
  {
    WeekDayExact(d);
    SuccessionExact(d);
    WeekDayExact(Next(d));
    DayMoves(d);
    NextResidue(WeekDay(d), WeekDay(Next(d)));
  }

  lemma NextResidue(a: int, b: int)
    requires 0 <= a < 7 && 0 <= b < 7 && (b - a - 1) % 7 == 0
    ensures b == (a + 1) % 7
  {
  }

  lemma SameAfterWeeks(d: Ymd, n: nat)
    requires Valid(d) && InEra(d) && JulianDay(d) >= -1
    ensures WeekDay(After(d, 7 * n)) == WeekDay(d)
  {
    CountsDays(d, 7 * n);
    WeeksMove(d, n);
    WeekDayExact(d);
    WeekDayExact(After(d, 7 * n));
    Congruent(WeekDay(After(d, 7 * n)), WeekDay(d));
  }

  /** Before that the weekday is not a weekday: 22 November -4713 is day number -2. */
  lemma WeekDayBreaks()
    ensures var d := Ymd(-4713, 11, 22); Valid(d) && InEra(d) && JulianDay(d) == -2 && WeekDay(d) == -1
  {
  }

  /** The epoch constant: 1 January 1970 has the stated number, and it was a Thursday. */
  lemma Epoch()
    ensures JulianDay(Ymd(1970, 1, 1)) == JULIAN_DAY_OF_1970_01_01
    ensures FromJulianDay(JulianDay(Ymd(1970, 1, 1))) == 0
    ensures WeekDay(Ymd(1970, 1, 1)) == 4
  {
  }
}

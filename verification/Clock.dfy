/** Civil calendar and local time (src/clock.rs). */
module Clock {
  const SECONDS_PER_DAY := 86400

  datatype DstRule = NoDst | Eu

  /** `utcOffsetMinutes` is a signed 16-bit number in the firmware. */
  datatype ClockConfig = ClockConfig(utcOffsetMinutes: int, dst: DstRule)

  datatype Date = Date(year: int, month: int, day: int)

  datatype DateTime = DateTime(year: int, month: int, day: int, hour: int, minute: int, second: int)

  // ---------------------------------------------------------------------
  // The code's functions
  // ---------------------------------------------------------------------

  /** First day of a year counted from 1 March, within its 400-year era. */
  function YearStart(yearOfEra: int): int { yearOfEra * 365 + yearOfEra / 4 - yearOfEra / 100 }

  /** First day of a month counted from March, within its year. */
  function MonthStart(shiftedMonth: int): int { (153 * shiftedMonth + 2) / 5 }

  function YearOfEra(dayOfEra: int): int {
    (dayOfEra - dayOfEra / 1460 + dayOfEra / 36524 - dayOfEra / 146096) / 365
  }

  function MonthOfYearDay(dayOfYear: int): int { (5 * dayOfYear + 2) / 153 }

  function DaysFromCivil(year: int, month: int, day: int): int {
    var y := if month <= 2 then year - 1 else year;
    var shiftedMonth := if month > 2 then month - 3 else month + 9;
    var dayOfYear := MonthStart(shiftedMonth) + day - 1;
    var dayOfEra := YearStart(y % 400) + dayOfYear;
    y / 400 * 146097 + dayOfEra - 719468
  }

  function CivilFromDays(days: int): Date {
    var shifted := days + 719468;
    var dayOfEra := shifted % 146097;
    var yearOfEra := YearOfEra(dayOfEra);
    var dayOfYear := dayOfEra - YearStart(yearOfEra);
    var shiftedMonth := MonthOfYearDay(dayOfYear);
    var day := dayOfYear - MonthStart(shiftedMonth) + 1;
    var month := if shiftedMonth < 10 then shiftedMonth + 3 else shiftedMonth - 9;
    Date(yearOfEra + shifted / 146097 * 400 + (if month <= 2 then 1 else 0), month, day)
  }

  function LastSunday(year: int, month: int): int {
    var (nextYear, nextMonth) := if month == 12 then (year + 1, 1) else (year, month + 1);
    var lastDay := DaysFromCivil(nextYear, nextMonth, 1) - 1;
    lastDay - (lastDay + 4) % 7
  }

  function SummerStart(year: int): int { LastSunday(year, 3) * SECONDS_PER_DAY + 3600 }

  function SummerEnd(year: int): int { LastSunday(year, 10) * SECONDS_PER_DAY + 3600 }

  predicate EuSummerTime(utc: int) {
    var year := CivilFromDays(utc / SECONDS_PER_DAY).year;
    SummerStart(year) <= utc < SummerEnd(year)
  }

  function LocalSeconds(utc: int, config: ClockConfig): int {
    var local := utc + config.utcOffsetMinutes * 60;
    if config.dst == Eu && EuSummerTime(utc) then local + 3600 else local
  }

  function UnixFromLocal(local: int, config: ClockConfig): int {
    var standard := local - config.utcOffsetMinutes * 60;
    if config.dst == Eu && EuSummerTime(standard - 3600) then standard - 3600 else standard
  }

  function SecondsFromCivil(year: int, month: int, day: int, hour: int, minute: int, second: int): int {
    DaysFromCivil(year, month, day) * SECONDS_PER_DAY + hour * 3600 + minute * 60 + second
  }

  function ToDateTime(seconds: int): DateTime {
    var date := CivilFromDays(seconds / SECONDS_PER_DAY);
    var secondsOfDay := seconds % SECONDS_PER_DAY;
    DateTime(date.year, date.month, date.day,
             secondsOfDay / 3600, secondsOfDay % 3600 / 60, secondsOfDay % 60)
  }

  // ---------------------------------------------------------------------
  // The Gregorian calendar, defined independently of the code
  // ---------------------------------------------------------------------

  predicate IsLeap(year: int) {
    year % 4 == 0 && (year % 100 != 0 || year % 400 == 0)
  }

  function DaysInMonth(year: int, month: int): int {
    if month == 2 then (if IsLeap(year) then 29 else 28)
    else if month == 4 || month == 6 || month == 9 || month == 11 then 30
    else 31
  }

  predicate ValidDate(d: Date) {
    1 <= d.month <= 12 && 1 <= d.day <= DaysInMonth(d.year, d.month)
  }

  function NextDate(d: Date): Date {
    if d.day < DaysInMonth(d.year, d.month) then Date(d.year, d.month, d.day + 1)
    else if d.month < 12 then Date(d.year, d.month + 1, 1)
    else Date(d.year + 1, 1, 1)
  }

  // ---------------------------------------------------------------------
  // Years of an era: YearOfEra inverts YearStart
  // ---------------------------------------------------------------------

  /** Length of the year that starts on 1 March of `marchYear`. */
  function YearLength(marchYear: int): int { if IsLeap(marchYear + 1) then 366 else 365 }

  /** The formula on century `c`, four-year cycle `q` and year-of-cycle `r`. */
  lemma EraYearFormula(c: int, q: int, r: int, dayOfYear: int)
    requires 0 <= c <= 3 && 0 <= q <= 24 && 0 <= r <= 3 && 0 <= dayOfYear <= 365
    requires dayOfYear == 365 ==> r == 3 && (q == 24 ==> c == 3)
    ensures var doe := 36524 * c + 1461 * q + 365 * r + dayOfYear;
            0 <= doe < 146097 && YearOfEra(doe) == 100 * c + 4 * q + r
  {
    var inCycle := 365 * r + dayOfYear;
    var inCentury := 1461 * q + inCycle;
    var doe := 36524 * c + inCentury;
    var last := doe == 146096;
    assert doe / 146096 == if last then 1 else 0;
    assert doe / 36524 == if last then 4 else c;
    var over := if 24 * c + q + inCycle >= 1460 then 1 else 0;
    assert doe == 1460 * (25 * c + q) + 24 * c + q + inCycle;
    assert doe / 1460 == 25 * c + q + over;
    var y := 100 * c + 4 * q + r;
    assert 36524 * c + 1461 * q == 365 * (100 * c + 4 * q) + 24 * c + q;
    assert doe - doe / 1460 + doe / 36524 - doe / 146096 == 365 * y + dayOfYear - over;
    assert over == 1 ==> dayOfYear > 0;
    assert dayOfYear == 365 ==> over == 1;
  }

  lemma YearSplit(c: int, q: int, r: int)
    requires 0 <= c <= 3 && 0 <= q <= 24 && 0 <= r <= 3
    ensures var y := 100 * c + 4 * q + r;
            YearStart(y) == 36524 * c + 1461 * q + 365 * r &&
            YearLength(y) == if r == 3 && (q == 24 ==> c == 3) then 366 else 365
  {
    var y := 100 * c + 4 * q + r;
    assert y / 4 == 25 * c + q;
    assert y / 100 == c;
    assert (y + 1) % 4 == 0 <==> r == 3;
    assert (y + 1) % 100 == 0 <==> r == 3 && q == 24;
    assert (y + 1) % 400 == 0 <==> r == 3 && q == 24 && c == 3;
  }

  lemma YearDigits(y: int) returns (c: int, q: int, r: int)
    requires 0 <= y < 400
    ensures 0 <= c <= 3 && 0 <= q <= 24 && 0 <= r <= 3 && y == 100 * c + 4 * q + r
  {
    c, q, r := y / 100, y % 100 / 4, y % 100 % 4;
  }

  lemma EraYearInverse(yearOfEra: int, dayOfYear: int)
    requires 0 <= yearOfEra < 400 && 0 <= dayOfYear < YearLength(yearOfEra)
    ensures var doe := YearStart(yearOfEra) + dayOfYear;
            0 <= doe < 146097 && YearOfEra(doe) == yearOfEra
  {
    hide *;
    var c, q, r := YearDigits(yearOfEra);
    YearSplit(c, q, r);
    EraYearFormula(c, q, r, dayOfYear);
  }

  lemma EraDigits(dayOfEra: int) returns (c: int, q: int, r: int, dayOfYear: int)
    requires 0 <= dayOfEra < 146097
    ensures 0 <= c <= 3 && 0 <= q <= 24 && 0 <= r <= 3 && 0 <= dayOfYear <= 365
    ensures dayOfYear == 365 ==> r == 3 && (q == 24 ==> c == 3)
    ensures dayOfEra == 36524 * c + 1461 * q + 365 * r + dayOfYear
  {
    c := if dayOfEra == 146096 then 3 else dayOfEra / 36524;
    var inCentury := dayOfEra - 36524 * c;
    q := if inCentury == 36524 then 24 else inCentury / 1461;
    var inCycle := inCentury - 1461 * q;
    r := if inCycle == 1460 then 3 else inCycle / 365;
    dayOfYear := inCycle - 365 * r;
  }

  lemma EraYearExists(dayOfEra: int)
    requires 0 <= dayOfEra < 146097
    ensures var y := YearOfEra(dayOfEra);
            0 <= y < 400 && 0 <= dayOfEra - YearStart(y) < YearLength(y)
  {
    hide *;
    var c, q, r, dayOfYear := EraDigits(dayOfEra);
    YearSplit(c, q, r);
    EraYearFormula(c, q, r, dayOfYear);
  }

  // ---------------------------------------------------------------------
  // Months counted from March: MonthOfYearDay inverts MonthStart
  // ---------------------------------------------------------------------

  /** Days of the month `shiftedMonth` months after March; the last one (February) takes what is left. */
  function MonthLength(shiftedMonth: int): int {
    if shiftedMonth == 11 then 29
    else if shiftedMonth == 1 || shiftedMonth == 3 || shiftedMonth == 6 || shiftedMonth == 8 then 30
    else 31
  }

  lemma MonthTable(shiftedMonth: int)
    requires 0 <= shiftedMonth <= 11
    ensures MonthStart(shiftedMonth) + MonthLength(shiftedMonth) ==
            if shiftedMonth == 11 then 366 else MonthStart(shiftedMonth + 1)
    ensures MonthStart(0) == 0 && MonthStart(11) == 337
    ensures shiftedMonth < 11 ==> 0 <= MonthStart(shiftedMonth) && MonthStart(shiftedMonth + 1) <= 337
  {
  }

  lemma MonthInverse(shiftedMonth: int, day: int)
    requires 0 <= shiftedMonth <= 11 && 1 <= day <= MonthLength(shiftedMonth)
    ensures MonthOfYearDay(MonthStart(shiftedMonth) + day - 1) == shiftedMonth
  {
  }

  lemma MonthExists(dayOfYear: int)
    requires 0 <= dayOfYear <= 365
    ensures var m := MonthOfYearDay(dayOfYear);
            0 <= m <= 11 && 1 <= dayOfYear - MonthStart(m) + 1 <= MonthLength(m)
  {
    var m := MonthOfYearDay(dayOfYear);
    MonthTable(m);
  }

  lemma Mod4(y: int, k: int) ensures (y + 4 * k) % 4 == y % 4 { }
  lemma Mod100(y: int, k: int) ensures (y + 100 * k) % 100 == y % 100 { }
  lemma Mod400(y: int, k: int) ensures (y + 400 * k) % 400 == y % 400 { }

  lemma LeapPeriod(year: int, era: int)
    ensures IsLeap(year + 400 * era) == IsLeap(year)
  {
    Mod4(year, 100 * era);
    Mod100(year, 4 * era);
    Mod400(year, era);
  }

  // ---------------------------------------------------------------------
  // Day numbers and dates are mutual inverses
  // ---------------------------------------------------------------------

  /** The year that starts on 1 March and holds the date, and the month within it. */
  function MarchYear(d: Date): int { if d.month <= 2 then d.year - 1 else d.year }

  function MarchMonth(d: Date): int { if d.month > 2 then d.month - 3 else d.month + 9 }

  function MarchDay(d: Date): int { MonthStart(MarchMonth(d)) + d.day - 1 }

  function FromMarch(marchYear: int, shiftedMonth: int, day: int): Date {
    var month := if shiftedMonth < 10 then shiftedMonth + 3 else shiftedMonth - 9;
    Date(marchYear + (if month <= 2 then 1 else 0), month, day)
  }

  lemma DaysByMarchYear(d: Date)
    ensures DaysFromCivil(d.year, d.month, d.day) ==
            MarchYear(d) / 400 * 146097 + YearStart(MarchYear(d) % 400) + MarchDay(d) - 719468
  {
  }

  lemma EraQuotient(value: int, era: int, dayOfEra: int)
    requires 0 <= dayOfEra < 146097 && value == era * 146097 + dayOfEra
    ensures value / 146097 == era && value % 146097 == dayOfEra
  {
  }

  lemma YearQuotient(y: int, era: int, yearOfEra: int)
    requires 0 <= yearOfEra < 400 && y == yearOfEra + era * 400
    ensures y / 400 == era && y % 400 == yearOfEra
  {
  }

  /** What CivilFromDays computes, on an era, a year and a day of that year. */
  lemma CivilFromEra(era: int, yoe: int, doy: int)
    requires 0 <= yoe < 400 && 0 <= doy < YearLength(yoe)
    ensures CivilFromDays(era * 146097 + YearStart(yoe) + doy - 719468) ==
            FromMarch(yoe + era * 400, MonthOfYearDay(doy), doy - MonthStart(MonthOfYearDay(doy)) + 1)
  {
    hide YearStart, YearOfEra, MonthStart, MonthOfYearDay, YearLength;
    EraYearInverse(yoe, doy);
    EraQuotient(era * 146097 + YearStart(yoe) + doy, era, YearStart(yoe) + doy);
  }

  /** A date is valid exactly when its month and day fit its March year. */
  lemma MarchDateValid(era: int, yoe: int, m: int, day: int)
    requires 0 <= m <= 11 && 1 <= day
    ensures ValidDate(FromMarch(yoe + era * 400, m, day)) <==>
            day <= MonthLength(m) && MonthStart(m) + day - 1 < YearLength(yoe)
  {
    hide IsLeap, MonthStart;
    LeapPeriod(yoe + 1, era);
    MonthTable(m);
  }

  lemma MarchFields(marchYear: int, m: int, day: int)
    requires 0 <= m <= 11
    ensures var d := FromMarch(marchYear, m, day);
            MarchYear(d) == marchYear && MarchMonth(d) == m && d.day == day && MarchDay(d) == MonthStart(m) + day - 1
  {
  }

  lemma YearLengthBound(marchYear: int)
    ensures 365 <= YearLength(marchYear) <= 366
  {
  }

  lemma MarchDayRange(m: int, day: int)
    requires 0 <= m <= 11 && 1 <= day <= MonthLength(m)
    ensures 0 <= MonthStart(m) + day - 1
  {
  }

  lemma {:induction false} DateOfDay(days: int)
    ensures ValidDate(CivilFromDays(days))
    ensures var d := CivilFromDays(days); DaysFromCivil(d.year, d.month, d.day) == days
  {
    hide *;
    var era, doe := (days + 719468) / 146097, (days + 719468) % 146097;
    EraYearExists(doe);
    var yoe := YearOfEra(doe);
    var doy := doe - YearStart(yoe);
    YearLengthBound(yoe);
    MonthExists(doy);
    CivilFromEra(era, yoe, doy);
    var m := MonthOfYearDay(doy);
    var day := doy - MonthStart(m) + 1;
    MarchDateValid(era, yoe, m, day);
    MarchFields(yoe + era * 400, m, day);
    DaysByMarchYear(FromMarch(yoe + era * 400, m, day));
    YearQuotient(yoe + era * 400, era, yoe);
  }

  lemma MarchForm(d: Date)
    requires ValidDate(d)
    ensures 1 <= d.day && 0 <= MarchMonth(d) <= 11 && FromMarch(MarchYear(d), MarchMonth(d), d.day) == d
  {
  }

  lemma DayOfDate(d: Date)
    requires ValidDate(d)
    ensures CivilFromDays(DaysFromCivil(d.year, d.month, d.day)) == d
  {
    hide *;
    MarchForm(d);
    var era, yoe, m := MarchYear(d) / 400, MarchYear(d) % 400, MarchMonth(d);
    assert MarchYear(d) == yoe + era * 400;
    MarchDateValid(era, yoe, m, d.day);
    MarchFields(MarchYear(d), m, d.day);
    MarchDayRange(m, d.day);
    MonthInverse(m, d.day);
    DaysByMarchYear(d);
    CivilFromEra(era, yoe, MarchDay(d));
  }

  lemma YearStartNext(c: int, q: int, r: int)
    requires 0 <= c <= 3 && 0 <= q <= 24 && 0 <= r <= 3
    ensures var y := 100 * c + 4 * q + r;
            YearStart(y) + YearLength(y) == if y == 399 then 146097 else YearStart(y + 1)
  {
    YearSplit(c, q, r);
    if r < 3 { YearSplit(c, q, r + 1); }
    else if q < 24 { YearSplit(c, q + 1, 0); }
    else if c < 3 { YearSplit(c + 1, 0, 0); }
  }

  /** A March year ends the day before the next one starts, across eras too. */
  lemma YearStartStep(y: int)
    ensures (y + 1) / 400 * 146097 + YearStart((y + 1) % 400) ==
            y / 400 * 146097 + YearStart(y % 400) + YearLength(y % 400)
  {
    FirstYearStart();
    hide *;
    var era, yoe := y / 400, y % 400;
    var c, q, r := YearDigits(yoe);
    YearStartNext(c, q, r);
    if yoe == 399 { YearQuotient(y + 1, era + 1, 0); } else { YearQuotient(y + 1, era, yoe + 1); }
  }

  lemma FirstYearStart()
    ensures YearStart(0) == 0
  {
  }

  lemma NextMarch(d: Date)
    requires ValidDate(d)
    ensures var n := NextDate(d);
            ValidDate(n) &&
            if d.month == 2 && d.day == DaysInMonth(d.year, 2)
            then MarchYear(n) == MarchYear(d) + 1 && MarchMonth(n) == 0 && n.day == 1 && MarchMonth(d) == 11 && d.day == (if IsLeap(MarchYear(d) + 1) then 29 else 28)
            else MarchYear(n) == MarchYear(d) &&
                 (if d.day < DaysInMonth(d.year, d.month)
                  then MarchMonth(n) == MarchMonth(d) && n.day == d.day + 1
                  else MarchMonth(d) < 11 && MarchMonth(n) == MarchMonth(d) + 1 && n.day == 1 && d.day == MonthLength(MarchMonth(d)))
  {
  }

  lemma NextDateIsOneLater(d: Date)
    requires ValidDate(d)
    ensures ValidDate(NextDate(d))
    ensures var n := NextDate(d);
            DaysFromCivil(n.year, n.month, n.day) == DaysFromCivil(d.year, d.month, d.day) + 1
  {
    hide IsLeap, DaysFromCivil, YearStart, DaysInMonth, NextDate, MarchYear, MonthStart;
    NextMarch(d);
    var y := MarchYear(d);
    DaysByMarchYear(d);
    DaysByMarchYear(NextDate(d));
    MonthTable(MarchMonth(d));
    MonthTable(0);
    if d.month == 2 && d.day == DaysInMonth(d.year, 2) {
      YearStartStep(y);
      LeapPeriod(y % 400 + 1, y / 400);
      assert y % 400 + 1 + 400 * (y / 400) == y + 1;
    }
  }

  /** Consecutive day numbers are consecutive calendar dates. */
  lemma NextDayIsNextDate(days: int)
    ensures CivilFromDays(days + 1) == NextDate(CivilFromDays(days))
  {
    hide *;
    DateOfDay(days);
    NextDateIsOneLater(CivilFromDays(days));
    DayOfDate(NextDate(CivilFromDays(days)));
  }

  // ---------------------------------------------------------------------
  // Months and years as spans of day numbers
  // ---------------------------------------------------------------------

  function FirstOf(year: int, month: int): int { DaysFromCivil(year, month, 1) }

  function AfterMonth(year: int, month: int): int {
    if month < 12 then FirstOf(year, month + 1) else FirstOf(year + 1, 1)
  }

  lemma MonthSpan(year: int, month: int)
    requires 1 <= month <= 12
    ensures AfterMonth(year, month) == FirstOf(year, month) + DaysInMonth(year, month)
  {
    NextDateIsOneLater(Date(year, month, DaysInMonth(year, month)));
  }

  lemma DaysLinear(year: int, month: int, day: int)
    ensures DaysFromCivil(year, month, day) == FirstOf(year, month) + day - 1
  {
  }

  /** A day number inside a month's span has that year and month. */
  lemma DateInMonth(year: int, month: int, days: int)
    requires 1 <= month <= 12 && FirstOf(year, month) <= days < AfterMonth(year, month)
    ensures CivilFromDays(days) == Date(year, month, days - FirstOf(year, month) + 1)
  {
    hide CivilFromDays, DaysFromCivil, DaysInMonth;
    MonthSpan(year, month);
    DaysLinear(year, month, days - FirstOf(year, month) + 1);
    DayOfDate(Date(year, month, days - FirstOf(year, month) + 1));
  }

  lemma {:induction false} DateInYear(year: int, month: int, days: int)
    requires 1 <= month <= 12 && FirstOf(year, month) <= days < FirstOf(year + 1, 1)
    ensures CivilFromDays(days).year == year
    decreases 12 - month
  {
    if days < AfterMonth(year, month) {
      DateInMonth(year, month, days);
    } else {
      DateInYear(year, month + 1, days);
    }
  }

  lemma {:induction false} YearsAscend(year: int, later: int)
    requires year <= later
    ensures FirstOf(year, 1) <= FirstOf(later, 1)
    decreases later - year
  {
    if year < later {
      YearsAscend(year + 1, later);
      MonthsAscend(year, 1);
    }
  }

  lemma {:induction false} MonthsAscend(year: int, month: int)
    requires 1 <= month <= 12
    ensures FirstOf(year, month) < FirstOf(year + 1, 1)
    decreases 12 - month
  {
    hide DaysFromCivil, IsLeap;
    MonthSpan(year, month);
    if month < 12 { MonthsAscend(year, month + 1); }
  }

  // ---------------------------------------------------------------------
  // EU summer time
  // ---------------------------------------------------------------------

  /** Sunday is weekday 0; the epoch has weekday 4. */
  function Weekday(days: int): int { (days + 4) % 7 }

  lemma LastSundayIsLast(year: int, month: int)
    requires 1 <= month <= 12
    ensures var s := LastSunday(year, month);
            Weekday(s) == 0 &&
            CivilFromDays(s).year == year && CivilFromDays(s).month == month &&
            forall later :: s < later < AfterMonth(year, month) ==> Weekday(later) != 0
  {
    hide DaysFromCivil, CivilFromDays, IsLeap, LastSunday;
    var s := LastSunday(year, month);
    LastSundayWithin(year, month);
    DateInMonth(year, month, s);
    SundayBackFrom(AfterMonth(year, month) - 1);
  }

  lemma SundayBackFrom(lastDay: int)
    ensures var s := lastDay - (lastDay + 4) % 7;
            Weekday(s) == 0 && forall later :: s < later <= lastDay ==> Weekday(later) != 0
  {
    var s := lastDay - (lastDay + 4) % 7;
    forall later | s < later <= lastDay ensures Weekday(later) != 0 {
      assert (later + 4) % 7 == later - s;
    }
  }

  lemma LastSundayWithin(year: int, month: int)
    requires 1 <= month <= 12
    ensures FirstOf(year, month) <= LastSunday(year, month) < AfterMonth(year, month)
    ensures LastSunday(year, month) == AfterMonth(year, month) - 1 - Weekday(AfterMonth(year, month) - 1)
  {
    hide DaysFromCivil, IsLeap;
    MonthSpan(year, month);
  }

  function YearOf(utc: int): int { CivilFromDays(utc / SECONDS_PER_DAY).year }

  /** From the start of summer time until an hour after its end the UTC year does not change. */
  lemma SummerInYear(year: int, utc: int)
    requires SummerStart(year) - 3600 <= utc < SummerEnd(year) + 3600
    ensures YearOf(utc) == year
  {
    hide DaysFromCivil, CivilFromDays, IsLeap, LastSunday;
    LastSundayWithin(year, 3);
    LastSundayWithin(year, 10);
    MonthsAscend(year, 11);
    DateInYear(year, 3, utc / SECONDS_PER_DAY);
  }

  lemma SummerIsNotEmpty(year: int)
    ensures SummerStart(year) + 3600 < SummerEnd(year)
  {
    LastSundayWithin(year, 3);
    LastSundayWithin(year, 10);
    forall month | 3 < month < 10 ensures FirstOf(year, month) < FirstOf(year, month + 1) {
      MonthSpan(year, month);
    }
  }

  /** Days are counted from 1 January 1970, and the last day of March 2024 was a Sunday. */
  lemma KnownDays()
    ensures DaysFromCivil(1970, 1, 1) == 0 && CivilFromDays(0) == Date(1970, 1, 1)
    ensures Weekday(DaysFromCivil(2024, 3, 31)) == 0
  {
    hide CivilFromDays;
    DayOfDate(Date(1970, 1, 1));
    var y, m := YearStart(24), MonthStart(0);
    assert y == 8766 && m == 0;
    assert DaysFromCivil(2024, 3, 31) == 19813;
  }

  /** In a month of 31 days no Sunday is left after this day, and a Sunday is one hour old. */
  predicate PastLastSunday(t: DateTime, weekday: int) { t.day + 7 - weekday > 31 && (weekday == 0 ==> t.hour >= 1) }

  lemma {:induction false} MonthOrder(year: int, month: int, later: int)
    requires 1 <= month <= later <= 12
    ensures FirstOf(year, month) <= FirstOf(year, later)
    decreases later - month
  {
    hide DaysFromCivil, IsLeap;
    if month < later {
      MonthSpan(year, month);
      MonthOrder(year, month + 1, later);
    }
  }

  /** Which days of a month that ends with `last` have its last Sunday behind them. */
  lemma SundayBehind(days: int, last: int)
    requires days <= last
    ensures var s := last - Weekday(last);
            && (days + 7 - Weekday(days) > last <==> s <= days)
            && (s <= days ==> (s == days <==> Weekday(days) == 0))
  {
    assert (last - Weekday(last) + 4) % 7 == 0;
    assert (days - Weekday(days) + 4) % 7 == 0;
    SundaysApart(last - Weekday(last) + 4, days - Weekday(days) + 4);
  }

  lemma SundaysApart(a: int, b: int)
    requires a % 7 == 0 && b % 7 == 0
    ensures a == b || a >= b + 7 || a <= b - 7
  {
    if a > b { assert (a - b) % 7 == 0; }
    if a < b { assert (b - a) % 7 == 0; }
  }

  /** In March and October summer time starts and ends an hour into the last Sunday. */
  lemma SundayHour(year: int, month: int, utc: int)
    requires month == 3 || month == 10
    requires var d := CivilFromDays(utc / SECONDS_PER_DAY); d.year == year && d.month == month
    ensures LastSunday(year, month) * SECONDS_PER_DAY + 3600 <= utc <==> PastLastSunday(ToDateTime(utc), Weekday(utc / SECONDS_PER_DAY))
  {
    hide DaysFromCivil, CivilFromDays, LastSunday, Weekday, IsLeap;
    var days := utc / SECONDS_PER_DAY;
    var d := CivilFromDays(days);
    DateOfDay(days);
    DaysLinear(year, month, d.day);
    LastSundayWithin(year, month);
    MonthSpan(year, month);
    SundayBehind(days, FirstOf(year, month) + 30);
    assert utc == days * SECONDS_PER_DAY + utc % SECONDS_PER_DAY;
  }

  /** Summer time is April to September, March from one o'clock on its last Sunday, and October until then, in UTC. */
  lemma SummerMonths(utc: int)
    ensures var t, weekday := ToDateTime(utc), Weekday(utc / SECONDS_PER_DAY);
            EuSummerTime(utc) <==>
              if t.month == 3 then PastLastSunday(t, weekday)
              else if t.month == 10 then !PastLastSunday(t, weekday) else 3 < t.month < 10
  {
    hide DaysFromCivil, CivilFromDays, LastSunday, Weekday, PastLastSunday, ValidDate, IsLeap;
    var days := utc / SECONDS_PER_DAY;
    var d := CivilFromDays(days);
    DateOfDay(days);
    ValidMonth(d);
    MonthSpan(d.year, d.month);
    DaysLinear(d.year, d.month, d.day);
    LastSundayWithin(d.year, 3);
    LastSundayWithin(d.year, 10);
    if d.month == 3 { SundayHour(d.year, 3, utc); } else if d.month < 3 { MonthOrder(d.year, d.month + 1, 3); } else { MonthOrder(d.year, 4, d.month); }
    if d.month == 10 { SundayHour(d.year, 10, utc); } else if d.month < 10 { MonthOrder(d.year, d.month + 1, 10); } else { MonthOrder(d.year, 11, d.month); }
    assert utc == days * SECONDS_PER_DAY + utc % SECONDS_PER_DAY;
  }

  lemma ValidMonth(d: Date)
    requires ValidDate(d)
    ensures 1 <= d.month <= 12 && 1 <= d.day <= DaysInMonth(d.year, d.month)
  {
  }

  /** The local clock is ahead of UTC by its minutes of offset, and by an hour more in summer, into the next day or back into the last. */
  lemma LocalShown(utc: int, config: ClockConfig)
    ensures var t := ToDateTime(LocalSeconds(utc, config));
            var minutes := utc % SECONDS_PER_DAY / 60 + config.utcOffsetMinutes + (if config.dst == Eu && EuSummerTime(utc) then 60 else 0);
            && t.hour * 60 + t.minute == minutes % 1440 && t.minute < 60 && t.second == utc % 60
            && Date(t.year, t.month, t.day) == CivilFromDays(utc / SECONDS_PER_DAY + minutes / 1440)
  {
    hide EuSummerTime, CivilFromDays, ToDateTime;
    var day, minute, second := utc / SECONDS_PER_DAY, utc % SECONDS_PER_DAY / 60, utc % 60;
    var minutes := minute + config.utcOffsetMinutes + (if config.dst == Eu && EuSummerTime(utc) then 60 else 0);
    MinuteOfDay(utc);
    SplitSeconds(day, minutes, second);
    assert LocalSeconds(utc, config) == day * SECONDS_PER_DAY + minutes * 60 + second;
    ShownFields(LocalSeconds(utc, config), minutes % 1440, second);
  }

  lemma MinuteOfDay(utc: int)
    ensures utc == utc / SECONDS_PER_DAY * SECONDS_PER_DAY + utc % SECONDS_PER_DAY / 60 * 60 + utc % 60
  {
    var day, rest := utc / SECONDS_PER_DAY, utc % SECONDS_PER_DAY;
    assert utc == 60 * (day * 1440 + rest / 60) + rest % 60;
    Remainder(utc, day * 1440 + rest / 60, rest % 60);
  }

  lemma Remainder(n: int, count: int, rest: int)
    requires n == 60 * count + rest && 0 <= rest < 60
    ensures n % 60 == rest
  {
  }

  lemma SplitSeconds(day: int, minutes: int, second: int)
    requires 0 <= second < 60
    ensures var x := day * SECONDS_PER_DAY + minutes * 60 + second;
            x / SECONDS_PER_DAY == day + minutes / 1440 && x % SECONDS_PER_DAY == minutes % 1440 * 60 + second
  {
  }

  lemma ShownFields(seconds: int, minute: int, second: int)
    requires 0 <= minute < 1440 && 0 <= second < 60 && seconds % SECONDS_PER_DAY == minute * 60 + second
    ensures var t := ToDateTime(seconds);
            && t.hour * 60 + t.minute == minute && t.minute < 60 && t.second == second
            && Date(t.year, t.month, t.day) == CivilFromDays(seconds / SECONDS_PER_DAY)
  {
    hide CivilFromDays;
  }

  /** The hour after summer time ends, whose local times were already used once. */
  predicate AutumnHour(utc: int) {
    SummerEnd(YearOf(utc)) <= utc < SummerEnd(YearOf(utc)) + 3600
  }

  /** The standard-time hour that summer time skips. */
  predicate SpringHour(standard: int) {
    SummerStart(YearOf(standard)) <= standard < SummerStart(YearOf(standard)) + 3600
  }

  lemma AutumnHourIsRepeated(utc: int)
    ensures AutumnHour(utc) <==> EuSummerTime(utc - 3600) && !EuSummerTime(utc)
  {
    var y := YearOf(utc);
    if AutumnHour(utc) {
      SummerIsNotEmpty(y);
      SummerInYear(y, utc - 3600);
    }
    if EuSummerTime(utc - 3600) {
      SummerInYear(YearOf(utc - 3600), utc);
    }
  }

  lemma SpringHourIsSkipped(standard: int)
    ensures SpringHour(standard) <==> EuSummerTime(standard) && !EuSummerTime(standard - 3600)
  {
    var y := YearOf(standard);
    if SpringHour(standard) {
      SummerIsNotEmpty(y);
      SummerInYear(y, standard - 3600);
    }
    if EuSummerTime(standard) {
      SummerInYear(y, standard - 3600);
    }
  }

  /** UTC to local and back loses exactly one hour, and only in the repeated autumn hour. */
  lemma UnixRoundTrip(utc: int, config: ClockConfig)
    ensures UnixFromLocal(LocalSeconds(utc, config), config) ==
            if config.dst == Eu && AutumnHour(utc) then utc - 3600 else utc
  {
    hide EuSummerTime, AutumnHour;
    AutumnHourIsRepeated(utc);
  }

  /** Local to UTC and back is exact except in the hour the clock skips. */
  lemma LocalRoundTrip(local: int, config: ClockConfig)
    ensures LocalSeconds(UnixFromLocal(local, config), config) ==
            if config.dst == Eu && SpringHour(local - config.utcOffsetMinutes * 60) then local + 3600 else local
  {
    hide EuSummerTime, SpringHour;
    SpringHourIsSkipped(local - config.utcOffsetMinutes * 60);
  }

  /** Splitting local seconds into fields and putting them together again is exact, and the fields are in range. */
  lemma FieldsRoundTrip(seconds: int)
    ensures var t := ToDateTime(seconds);
            SecondsFromCivil(t.year, t.month, t.day, t.hour, t.minute, t.second) == seconds &&
            ValidDate(Date(t.year, t.month, t.day)) &&
            0 <= t.hour < 24 && 0 <= t.minute < 60 && 0 <= t.second < 60
  {
    hide CivilFromDays, DaysFromCivil, ValidDate;
    DateOfDay(seconds / SECONDS_PER_DAY);
  }
}

/**
 FAT timestamps as SETSTAT stores them and STAT reports them
 (src/sftp.rs, `fat_time` and `Attrs::of`).
 */
module FatTime {
  import opened Clock

  const U32_MAX := 0xFFFF_FFFF

  /** Raw directory-entry words: `date` is year/month/day, `time` is hour/minute/half seconds. */
  datatype FatDateTime = FatDateTime(date: nat, time: nat)

  datatype FatTimeResult = Fits(stamp: FatDateTime) | OutsideFatRange

  function Pack(t: DateTime): FatDateTime
    requires 1980 <= t.year && 0 <= t.month && 0 <= t.day && 0 <= t.hour && 0 <= t.minute && 0 <= t.second
  {
    FatDateTime((t.year - 1980) * 512 + t.month * 32 + t.day, t.hour * 2048 + t.minute * 32 + t.second / 2)
  }

  function FatTimeOf(unix: nat, config: ClockConfig): FatTimeResult {
    var t := ToDateTime(LocalSeconds(unix, config));
    FieldsRoundTrip(LocalSeconds(unix, config));
    if 1980 <= t.year <= 2107 then Fits(Pack(t)) else OutsideFatRange
  }

  function AtLeastOne(n: nat): nat { if n == 0 then 1 else n }

  function ClampU32(n: int): nat { if n < 0 then 0 else if n > U32_MAX then U32_MAX else n }

  /** Date fields of a raw date word; a zero month or day reads as one. */
  function UnpackedDate(date: nat): Date {
    Date(date / 512 % 128 + 1980, AtLeastOne(date / 32 % 16), AtLeastOne(date % 32))
  }

  function UnpackedLocal(stamp: FatDateTime): int {
    var d := UnpackedDate(stamp.date);
    SecondsFromCivil(d.year, d.month, d.day,
                     stamp.time / 2048 % 32, stamp.time / 32 % 64, stamp.time % 32 * 2)
  }

  function ReportedMtime(stamp: FatDateTime, config: ClockConfig): nat {
    ClampU32(UnixFromLocal(UnpackedLocal(stamp), config))
  }

  function ReportedAtime(date: nat, config: ClockConfig): nat {
    var d := UnpackedDate(date);
    ClampU32(UnixFromLocal(SecondsFromCivil(d.year, d.month, d.day, 0, 0, 0), config))
  }

  /** The offset is an i16 number of minutes. */
  predicate OffsetInRange(config: ClockConfig) { -32768 <= config.utcOffsetMinutes <= 32767 }

  lemma UnpackDate(year: int, month: int, day: int)
    requires 1980 <= year <= 2107 && 1 <= month <= 12 && 1 <= day <= 31
    ensures var d := (year - 1980) * 512 + month * 32 + day;
            d / 512 % 128 + 1980 == year && d / 32 % 16 == month && d % 32 == day
  {
    var d := (year - 1980) * 512 + month * 32 + day;
    assert d / 512 == year - 1980;
    assert d / 32 == (year - 1980) * 16 + month;
  }

  lemma UnpackTime(hour: int, minute: int, second: int)
    requires 0 <= hour < 24 && 0 <= minute < 60 && 0 <= second < 60
    ensures var t := hour * 2048 + minute * 32 + second / 2;
            t / 2048 % 32 == hour && t / 32 % 64 == minute && t % 32 * 2 == second - second % 2
  {
    var t := hour * 2048 + minute * 32 + second / 2;
    assert t / 2048 == hour;
    assert t / 32 == hour * 64 + minute;
  }

  /** Both ends of summer time fall on an even second. */
  lemma SummerIgnoresParity(utc: int)
    ensures EuSummerTime(utc) == EuSummerTime(utc - utc % 2)
    ensures AutumnHour(utc) == AutumnHour(utc - utc % 2)
  {
    hide CivilFromDays, LastSunday;
    SameDay(utc);
    var y := YearOf(utc);
    EvenBound(LastSunday(y, 3), 3600, utc);
    EvenBound(LastSunday(y, 10), 3600, utc);
    EvenBound(LastSunday(y, 10), 7200, utc);
  }

  lemma SameDay(utc: int)
    ensures utc / SECONDS_PER_DAY == (utc - utc % 2) / SECONDS_PER_DAY
  {
    assert utc / SECONDS_PER_DAY == utc / 2 / 43200;
  }

  lemma EvenBound(sunday: int, second: int, utc: int)
    requires second % 2 == 0
    ensures sunday * SECONDS_PER_DAY + second <= utc <==> sunday * SECONDS_PER_DAY + second <= utc - utc % 2
  {
    assert (sunday * SECONDS_PER_DAY + second) % 2 == 0;
  }

  lemma Day1980()
    ensures FirstOf(1980, 1) == 3652
  {
  }

  lemma EarlyYears(unix: nat, config: ClockConfig)
    requires OffsetInRange(config) && FatTimeOf(unix, config).Fits?
    ensures LocalSeconds(unix, config) / SECONDS_PER_DAY >= 3652
  {
    Day1980();
    hide LocalSeconds, CivilFromDays, DaysFromCivil, ValidDate;
    var days := LocalSeconds(unix, config) / SECONDS_PER_DAY;
    DateOfDay(days);
    var d := CivilFromDays(days);
    YearsAscend(1980, d.year);
    FirstOfYearIsFirst(d);
  }

  lemma ValidFields(d: Date)
    requires ValidDate(d)
    ensures 1 <= d.month <= 12 && 1 <= d.day
    ensures forall m :: 28 <= DaysInMonth(d.year, m) <= 31
  {
  }

  lemma FirstOfYearIsFirst(d: Date)
    requires ValidDate(d)
    ensures FirstOf(d.year, 1) <= DaysFromCivil(d.year, d.month, d.day)
  {
    hide DaysInMonth, ValidDate;
    ValidFields(d);
    DaysLinear(d.year, d.month, d.day);
    hide DaysFromCivil;
    var m := 1;
    while m < d.month
      invariant 1 <= m <= d.month && FirstOf(d.year, 1) <= FirstOf(d.year, m)
    {
      MonthSpan(d.year, m);
      m := m + 1;
    }
  }

  /** No u32 instant within an hour of the largest one is in summer time. */
  lemma LastInstantsAreWinter(unix: nat)
    requires U32_MAX - 3600 < unix <= U32_MAX
    ensures !EuSummerTime(unix)
  {
    DateInYear(2106, 1, unix / SECONDS_PER_DAY);
    LastSundayWithin(2106, 3);
  }

  /**
   The modification time reported after setting `unix` is `unix` rounded down to
   an even second, an hour early exactly in the hour after summer time ends.
   */
  lemma MtimeRoundTrip(unix: nat, config: ClockConfig)
    requires unix <= U32_MAX && OffsetInRange(config) && FatTimeOf(unix, config).Fits?
    ensures ReportedMtime(FatTimeOf(unix, config).stamp, config) ==
            unix - unix % 2 - (if config.dst == Eu && AutumnHour(unix) then 3600 else 0)
  {
    hide EuSummerTime, AutumnHour, DaysFromCivil, CivilFromDays;
    var even := unix - unix % 2;
    SummerIgnoresParity(unix);
    LocalParity(unix, config);
    StampIsEvenLocal(unix, config);
    UnixRoundTrip(even, config);
    EarlyYears(unix, config);
  }

  lemma LocalParity(unix: nat, config: ClockConfig)
    ensures var local := LocalSeconds(unix, config);
            LocalSeconds(unix - unix % 2, config) == local - local % 2
  {
    hide EuSummerTime, AutumnHour;
    SummerIgnoresParity(unix);
  }

  predicate FieldsInRange(t: DateTime) {
    && 1980 <= t.year <= 2107 && 1 <= t.month <= 12 && 1 <= t.day <= 31
    && 0 <= t.hour < 24 && 0 <= t.minute < 60 && 0 <= t.second < 60
  }

  lemma UnpackPacked(t: DateTime)
    requires FieldsInRange(t)
    ensures UnpackedDate(Pack(t).date) == Date(t.year, t.month, t.day)
    ensures UnpackedLocal(Pack(t)) == SecondsFromCivil(t.year, t.month, t.day, t.hour, t.minute, t.second) - t.second % 2
  {
    UnpackPackedDate(t);
    hide DaysFromCivil, UnpackedDate;
    UnpackTime(t.hour, t.minute, t.second);
  }

  lemma UnpackPackedDate(t: DateTime)
    requires FieldsInRange(t)
    ensures UnpackedDate(Pack(t).date) == Date(t.year, t.month, t.day)
  {
    UnpackDate(t.year, t.month, t.day);
  }

  lemma LocalFields(local: int)
    requires 1980 <= ToDateTime(local).year <= 2107
    ensures var t := ToDateTime(local);
            FieldsInRange(t) &&
            SecondsFromCivil(t.year, t.month, t.day, t.hour, t.minute, t.second) == local &&
            SecondsFromCivil(t.year, t.month, t.day, 0, 0, 0) == local / SECONDS_PER_DAY * SECONDS_PER_DAY &&
            t.second % 2 == local % 2
  {
    hide DaysFromCivil, CivilFromDays, DaysInMonth;
    FieldsRoundTrip(local);
    DateOfDay(local / SECONDS_PER_DAY);
    MonthHasAtMost31(ToDateTime(local).year, ToDateTime(local).month);
    SecondParity(local);
  }

  /** The stored stamp stands for the local time rounded down to an even second. */
  lemma StampIsEvenLocal(unix: nat, config: ClockConfig)
    requires FatTimeOf(unix, config).Fits?
    ensures var local := LocalSeconds(unix, config);
            UnpackedLocal(FatTimeOf(unix, config).stamp) == local - local % 2
  {
    hide LocalSeconds, ToDateTime, SecondsFromCivil, Pack, UnpackedLocal;
    var local := LocalSeconds(unix, config);
    LocalFields(local);
    UnpackPacked(ToDateTime(local));
  }

  lemma SecondParity(local: int)
    ensures local % SECONDS_PER_DAY % 60 % 2 == local % 2
  {
  }

  /** The access time reported after setting `unix` falls on the same local date. */
  lemma AtimeKeepsLocalDate(unix: nat, config: ClockConfig)
    requires unix <= U32_MAX && OffsetInRange(config) && FatTimeOf(unix, config).Fits?
    ensures LocalSeconds(ReportedAtime(FatTimeOf(unix, config).stamp.date, config), config) / SECONDS_PER_DAY ==
            LocalSeconds(unix, config) / SECONDS_PER_DAY
  {
    hide EuSummerTime, SpringHour, DaysFromCivil, CivilFromDays;
    StampDateIsMidnight(unix, config);
    EarlyYears(unix, config);
    var local := LocalSeconds(unix, config);
    var midnight := local / SECONDS_PER_DAY * SECONDS_PER_DAY;
    MidnightBounds(local);
    LocalRoundTrip(midnight, config);
    if unix > U32_MAX - 3600 { LastInstantsAreWinter(unix); }
    assert 0 <= UnixFromLocal(midnight, config) <= U32_MAX;
  }

  lemma MidnightBounds(local: int)
    ensures var midnight := local / SECONDS_PER_DAY * SECONDS_PER_DAY;
            midnight <= local < midnight + SECONDS_PER_DAY &&
            midnight / SECONDS_PER_DAY == local / SECONDS_PER_DAY == (midnight + 3600) / SECONDS_PER_DAY
  {
  }

  /** The stored date word stands for the start of the local day. */
  lemma StampDateIsMidnight(unix: nat, config: ClockConfig)
    requires FatTimeOf(unix, config).Fits?
    ensures var d := UnpackedDate(FatTimeOf(unix, config).stamp.date);
            SecondsFromCivil(d.year, d.month, d.day, 0, 0, 0) ==
            LocalSeconds(unix, config) / SECONDS_PER_DAY * SECONDS_PER_DAY
  {
    hide LocalSeconds, ToDateTime, SecondsFromCivil, Pack, UnpackedDate;
    var local := LocalSeconds(unix, config);
    LocalFields(local);
    UnpackPacked(ToDateTime(local));
  }

  lemma MonthHasAtMost31(year: int, month: int)
    ensures DaysInMonth(year, month) <= 31
  {
  }

  /** Setting fails exactly when the local year is one FAT cannot hold. */
  lemma FatRangeExact(unix: nat, config: ClockConfig)
    ensures FatTimeOf(unix, config).Fits? <==>
            FirstOf(1980, 1) * SECONDS_PER_DAY <= LocalSeconds(unix, config) < FirstOf(2108, 1) * SECONDS_PER_DAY
  {
    var days := LocalSeconds(unix, config) / SECONDS_PER_DAY;
    DateOfDay(days);
    var d := CivilFromDays(days);
    FirstOfYearIsFirst(d);
    DayBeforeNextYear(d);
    if d.year < 1980 { YearsAscend(d.year + 1, 1980); } else { YearsAscend(1980, d.year); }
    if d.year < 2108 { YearsAscend(d.year + 1, 2108); } else { YearsAscend(2108, d.year); }
  }

  lemma DayBeforeNextYear(d: Date)
    requires ValidDate(d)
    ensures DaysFromCivil(d.year, d.month, d.day) < FirstOf(d.year + 1, 1)
  {
    MonthSpan(d.year, d.month);
    if d.month < 12 { MonthsAscend(d.year, d.month + 1); }
  }
}

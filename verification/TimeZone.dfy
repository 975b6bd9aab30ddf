/**
 UTC break-down and UTC/local conversion of muduo/base/TimeZone.cc.
 */
module TimeZone {
  import opened Calendar

  const SECONDS_PER_DAY: int := 86400
  /** kJulianDayOf1970_01_01. */
  const EPOCH_DAY: int := 2440588

  lemma EpochDay()
    ensures EPOCH_DAY == JulianDayNumber(Date(1970, 1, 1))
  {
  }

  datatype DateTime = DateTime(year: int, month: int, day: int, hour: int, minute: int, second: int)

  // ---- UTC seconds and broken-down times ----

  /** Seconds whose day number Date::yearMonthDay can break within 32 bits. */
  predicate Representable(t: int) {
    DayFits(t / SECONDS_PER_DAY + EPOCH_DAY)
  }

  /** The calendar date and clock reading of second t, with flooring division. */
  function Broken(t: int): DateTime {
    ClockTime(YearMonthDay(t / SECONDS_PER_DAY + EPOCH_DAY), t % SECONDS_PER_DAY)
  }

  /** fillHMS next to a date. */
  function ClockTime(date: Date, s: int): DateTime {
    DateTime(date.year, date.month, date.day, s / 60 / 60, s / 60 % 60, s % 60)
  }

  function FromUtcTime(dt: DateTime): int {
    SecondsSinceEpoch(JulianDayNumber(Date(dt.year, dt.month, dt.day)), dt.hour * 3600 + dt.minute * 60 + dt.second)
  }

  function SecondsSinceEpoch(julianDayNumber: int, secondsInDay: int): int {
    (julianDayNumber - EPOCH_DAY) * SECONDS_PER_DAY + secondsInDay
  }

  /** No intermediate of fromUtcTime leaves the 32 bits of its type. */
  predicate FieldsFit(dt: DateTime) {
    && DayNumberFits(Date(dt.year, dt.month, dt.day))
    && In32(JulianDayNumber(Date(dt.year, dt.month, dt.day)) - EPOCH_DAY)
    && In32(dt.hour) && In32(dt.minute) && In32(dt.second) && In32(dt.hour * 3600) && In32(dt.minute * 60)
    && In32(dt.hour * 3600 + dt.minute * 60) && In32(dt.hour * 3600 + dt.minute * 60 + dt.second)
  }

  /** fromUtcTime as the compiler runs it: 32-bit fields and day number, 64-bit seconds. */
  function FromUtcTime32(dt: DateTime): (t: int)
    requires FieldsFit(dt)
    ensures t == FromUtcTime(dt)
  {
    var j := DayNumber32(dt.year as int32, dt.month as int32, dt.day as int32);
    var secondsInDay := dt.hour as int32 * 3600 + dt.minute as int32 * 60 + dt.second as int32;
    var days := j - EPOCH_DAY as int32;
    days as int * SECONDS_PER_DAY + secondsInDay as int
  }

  predicate ValidDateTime(dt: DateTime) {
    && ValidDate(Date(dt.year, dt.month, dt.day)) && SinceOrigin(Date(dt.year, dt.month, dt.day))
    && 0 <= dt.hour < 24 && 0 <= dt.minute < 60 && 0 <= dt.second < 60
  }

  lemma ClockReading(s: int)
    requires 0 <= s < SECONDS_PER_DAY
    ensures s / 60 / 60 * 3600 + s / 60 % 60 * 60 + s % 60 == s
    ensures 0 <= s / 60 / 60 < 24
  {
  }

  lemma ClockUnique(h: int, m: int, s: int)
    requires 0 <= h < 24 && 0 <= m < 60 && 0 <= s < 60
    ensures var all := h * 3600 + m * 60 + s;
            0 <= all < SECONDS_PER_DAY && all / 60 / 60 == h && all / 60 % 60 == m && all % 60 == s
  {
    var all := h * 3600 + m * 60 + s;
    assert all / 60 == h * 60 + m;
  }

  lemma DaySplit(days: int, s: int)
    requires 0 <= s < SECONDS_PER_DAY
    ensures (days * SECONDS_PER_DAY + s) / SECONDS_PER_DAY == days
    ensures (days * SECONDS_PER_DAY + s) % SECONDS_PER_DAY == s
  {
  }

  /** Breaking any second from the origin on and rebuilding it gives that second. */
  lemma RebuildBroken(t: int)
    requires t / SECONDS_PER_DAY + EPOCH_DAY >= FIRST_DAY
    ensures ValidDateTime(Broken(t)) && FromUtcTime(Broken(t)) == t
  {
    NumberOfBrokenDay(t / SECONDS_PER_DAY + EPOCH_DAY);
    RebuildReading(YearMonthDay(t / SECONDS_PER_DAY + EPOCH_DAY), t / SECONDS_PER_DAY + EPOCH_DAY, t % SECONDS_PER_DAY);
  }

  lemma RebuildReading(date: Date, j: int, s: int)
    requires 0 <= s < SECONDS_PER_DAY && j == JulianDayNumber(date)
    ensures FromUtcTime(ClockTime(date, s)) == SecondsSinceEpoch(j, s)
    ensures var dt := ClockTime(date, s); 0 <= dt.hour < 24
  {
    ClockReading(s);
  }

  /** Every valid date and time is recovered from its second. */
  lemma BreakRebuilt(dt: DateTime)
    requires ValidDateTime(dt)
    ensures Broken(FromUtcTime(dt)) == dt
  {
    var date, s := Date(dt.year, dt.month, dt.day), dt.hour * 3600 + dt.minute * 60 + dt.second;
    DateOfItsNumber(date);
    ClockUnique(dt.hour, dt.minute, dt.second);
    RebuiltAt(dt, date, JulianDayNumber(date), s);
  }

  lemma RebuiltAt(dt: DateTime, date: Date, j: int, s: int)
    requires 0 <= s < SECONDS_PER_DAY && YearMonthDay(j) == date && ClockTime(date, s) == dt
    requires FromUtcTime(dt) == SecondsSinceEpoch(j, s)
    ensures Broken(FromUtcTime(dt)) == dt
  {
    BreakAt(j, s);
  }

  lemma BreakAt(j: int, s: int)
    requires 0 <= s < SECONDS_PER_DAY
    ensures Broken(SecondsSinceEpoch(j, s)) == ClockTime(YearMonthDay(j), s)
  {
    DaySplit(j - EPOCH_DAY, s);
  }

  /** C++ quotient and remainder by a day, corrected for seconds before 1970, are the flooring ones. */
  method SplitDay(t: int) returns (days: int32, seconds: int32)
    requires Representable(t)
    ensures days as int == t / SECONDS_PER_DAY && seconds as int == t % SECONDS_PER_DAY
  {
    seconds := Rem(t, SECONDS_PER_DAY) as int32;
    days := Quot(t, SECONDS_PER_DAY) as int32;
    if seconds < 0 {
      seconds := seconds + 86400;
      days := days - 1;
    }
  }

  method BreakTime(t: int) returns (dt: DateTime)
    requires Representable(t)
    ensures dt == Broken(t)
    ensures ValidDateTime(dt) && FromUtcTime(dt) == t
  {
    var days, seconds := SplitDay(t);
    RebuildBroken(t);
    var minutes := seconds / 60;
    var ymd := YearMonthDay32(days + EPOCH_DAY as int32);
    dt := DateTime(ymd.year, ymd.month, ymd.day,
                   (minutes / 60) as int, (minutes % 60) as int, (seconds % 60) as int);
  }

  /** What BreakTime makes, fromUtcTime can take. */
  lemma BrokenFits(t: int)
    requires Representable(t)
    ensures FieldsFit(Broken(t))
  {
    RebuildBroken(t);
    var j := t / SECONDS_PER_DAY + EPOCH_DAY;
    NumberOfBrokenDay(j);
    DateFieldsFit(Broken(t), j);
  }

  lemma DateFieldsFit(dt: DateTime, j: int)
    requires ValidDateTime(dt) && DayFits(j) && JulianDayNumber(Date(dt.year, dt.month, dt.day)) == j
    ensures FieldsFit(dt)
  {
    YearBound(Date(dt.year, dt.month, dt.day));
    OrdinaryDateFits(Date(dt.year, dt.month, dt.day));
  }
}

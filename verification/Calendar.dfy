/**
 Julian-day arithmetic of muduo/base/Date.cc, against the Gregorian calendar itself.
 */
module Calendar {

  datatype Date = Date(year: int, month: int, day: int)

  /** C++ integer division: the quotient is truncated toward zero. */
  function Quot(a: int, b: int): int
    requires b > 0
  {
    if a >= 0 then a / b else -((-a) / b)
  }

  function Rem(a: int, b: int): int
    requires b > 0
  {
    a - b * Quot(a, b)
  }

  function JulianDayNumber(date: Date): int {
    var a := Quot(14 - date.month, 12);
    var y := date.year + 4800 - a;
    var m := date.month + 12 * a - 3;
    date.day + Quot(153 * m + 2, 5) + y * 365 + Quot(y, 4) - Quot(y, 100) + Quot(y, 400) - 32045
  }

  function YearMonthDay(julianDayNumber: int): Date {
    var (year, e) := CenturyYear(julianDayNumber + 32044);
    MonthAndDay(year, e)
  }

  /** The first half of getYearMonthDay: the year of day a and the day within it. */
  function CenturyYear(a: int): (int, int) {
    var b := Quot(4 * a + 3, 146097);
    var c := a - Quot(b * 146097, 4);
    var d := Quot(4 * c + 3, 1461);
    (b * 100 + d, c - Quot(1461 * d, 4))
  }

  /** The second half: month and day from day e of a year that starts in March. */
  function MonthAndDay(year: int, e: int): Date {
    var m := Quot(5 * e + 2, 153);
    Date(year - 4800 + Quot(m, 10), m + 3 - 12 * Quot(m, 10), e - Quot(153 * m + 2, 5) + 1)
  }

  // ---- the Gregorian calendar, independently of the formulas ----

  predicate LeapYear(y: int) {
    y % 4 == 0 && (y % 100 != 0 || y % 400 == 0)
  }

  function DaysInMonth(y: int, m: int): int {
    if m == 2 then (if LeapYear(y) then 29 else 28)
    else if m == 4 || m == 6 || m == 9 || m == 11 then 30
    else 31
  }

  predicate ValidDate(date: Date) {
    1 <= date.month <= 12 && 1 <= date.day <= DaysInMonth(date.year, date.month)
  }

  function NextDay(date: Date): Date {
    if date.day < DaysInMonth(date.year, date.month) then date.(day := date.day + 1)
    else if date.month < 12 then Date(date.year, date.month + 1, 1)
    else Date(date.year + 1, 1, 1)
  }

  /** On or after 1 March 4801 BC, the day the formulas count from (day number -32044). */
  predicate SinceOrigin(date: Date) {
    date.year > -4800 || (date.year == -4800 && date.month >= 3)
  }

  const FIRST_DAY: int := -32044

  // ---- the formulas in terms of years that start in March ----

  /** Days from the origin to 1 March of the y-th year after it. */
  function YearStart(y: nat): nat {
    365 * y + y / 4 + y / 400 - y / 100
  }

  /** Days from 1 March to the first of the m-th month after it. */
  function MonthStart(m: nat): nat {
    (153 * m + 2) / 5
  }

  lemma YearLength(y: nat)
    ensures YearStart(y + 1) == YearStart(y) + (if LeapYear(y + 1) then 366 else 365)
  {
    assert (y + 1) / 4 == y / 4 + (if (y + 1) % 4 == 0 then 1 else 0);
    assert (y + 1) / 100 == y / 100 + (if (y + 1) % 100 == 0 then 1 else 0);
    assert (y + 1) / 400 == y / 400 + (if (y + 1) % 400 == 0 then 1 else 0);
    Multiples(y + 1);
  }

  lemma Multiples(y: nat)
    ensures y % 400 == 0 ==> y % 100 == 0
    ensures y % 100 == 0 ==> y % 4 == 0
  {
    if y % 400 == 0 {
      assert y == 100 * (4 * (y / 400));
    }
    if y % 100 == 0 {
      assert y == 4 * (25 * (y / 100));
    }
  }

  /** The calendar repeats every 400 years, and the origin is 12 such cycles before year 0. */
  lemma LeapYearShift(y: int)
    ensures LeapYear(y) == LeapYear(y + 4800)
  {
    Shift4(y);
    Shift100(y);
    Shift400(y);
  }

  lemma Shift4(y: int)
    ensures (y + 4800) % 4 == y % 4
  {
    assert y + 4800 == 4 * (y / 4 + 1200) + y % 4;
  }

  lemma Shift100(y: int)
    ensures (y + 4800) % 100 == y % 100
  {
    assert y + 4800 == 100 * (y / 100 + 48) + y % 100;
  }

  lemma Shift400(y: int)
    ensures (y + 4800) % 400 == y % 400
  {
    assert y + 4800 == 400 * (y / 400 + 12) + y % 400;
  }

  function MarchYear(date: Date): int {
    date.year + 4800 - (if date.month <= 2 then 1 else 0)
  }

  function MarchMonth(date: Date): int {
    if date.month <= 2 then date.month + 9 else date.month - 3
  }

  lemma JulianDayNumberMarch(date: Date)
    requires ValidDate(date) && SinceOrigin(date)
    ensures 0 <= MarchYear(date) && 0 <= MarchMonth(date) <= 11
    ensures JulianDayNumber(date) == YearStart(MarchYear(date)) + MonthStart(MarchMonth(date)) + date.day - 1 + FIRST_DAY
  {
  }

  /** The length of month m of year y is what separates it from the next month or year start. */
  lemma MonthLength(date: Date)
    requires ValidDate(date) && SinceOrigin(date)
    ensures var y, m := MarchYear(date), MarchMonth(date);
            0 <= y && 0 <= m &&
            DaysInMonth(date.year, date.month) ==
              if m < 11 then MonthStart(m + 1) - MonthStart(m) else YearStart(y + 1) - YearStart(y) - MonthStart(m)
  {
    if date.month <= 2 {
      YearLength(MarchYear(date));
      LeapYearShift(date.year);
      assert MonthStart(11) == 337 && MonthStart(10) == 306;
    }
  }

  /** Consecutive days of the calendar have consecutive numbers: across months, leap days and centuries. */
  lemma ConsecutiveDays(date: Date)
    requires ValidDate(date) && SinceOrigin(date)
    ensures ValidDate(NextDay(date)) && SinceOrigin(NextDay(date))
    ensures JulianDayNumber(NextDay(date)) == JulianDayNumber(date) + 1
  {
    NextDayMarch(date);
    JulianDayNumberMarch(date);
    JulianDayNumberMarch(NextDay(date));
  }

  lemma NextDayMarch(date: Date)
    requires ValidDate(date) && SinceOrigin(date)
    ensures ValidDate(NextDay(date)) && SinceOrigin(NextDay(date))
    ensures var next := NextDay(date);
            && 0 <= MarchYear(date) && 0 <= MarchMonth(date) && 0 <= MarchYear(next) && 0 <= MarchMonth(next)
            && YearStart(MarchYear(next)) + MonthStart(MarchMonth(next)) + next.day ==
               YearStart(MarchYear(date)) + MonthStart(MarchMonth(date)) + date.day + 1
  {
    NextMonthAndYear(date);
    var next, y, m := NextDay(date), MarchYear(date), MarchMonth(date);
    if next.month == date.month {
    } else if m < 11 {
      MonthLength(date);
    } else {
      MonthLength(date);
      assert MonthStart(0) == 0;
    }
  }

  /** The next day is in the same month, or the first of the next one, counted from March. */
  lemma NextMonthAndYear(date: Date)
    requires ValidDate(date) && SinceOrigin(date)
    ensures ValidDate(NextDay(date)) && SinceOrigin(NextDay(date))
    ensures 0 <= MarchYear(date) && 0 <= MarchMonth(date) <= 11
    ensures var next, y, m := NextDay(date), MarchYear(date), MarchMonth(date);
            if next.month == date.month then next == date.(day := date.day + 1)
            else && date.day == DaysInMonth(date.year, date.month) && next.day == 1
                 && MarchYear(next) == (if m < 11 then y else y + 1) && MarchMonth(next) == (if m < 11 then m + 1 else 0)
  {
  }

  // ---- the inverse formula ----

  /** A century b holds its d-th year: YearStart split as the inverse formula splits it. */
  lemma CenturySplit(b: nat, d: nat)
    requires d <= 99
    ensures YearStart(100 * b + d) == (146097 * b) / 4 + (1461 * d) / 4
  {
    var y := 100 * b + d;
    assert y / 100 == b && y / 4 == 25 * b + d / 4 && y / 400 == b / 4;
    assert (146097 * b) / 4 == 36524 * b + b / 4;
    assert (1461 * d) / 4 == 365 * d + d / 4;
  }

  /** The quotients b and d of the inverse formula name the year that contains day a. */
  lemma YearOfDay(a: nat) returns (y: nat, e: nat)
    ensures CenturyYear(a) == (y, e) && YearStart(y) + e == a < YearStart(y + 1)
  {
    var b := (4 * a + 3) / 146097;
    var c := a - (b * 146097) / 4;
    assert 0 <= c < 36525;
    var d := (4 * c + 3) / 1461;
    assert d <= 99;
    CenturySplit(b, d);
    if d < 99 {
      CenturySplit(b, d + 1);
    } else {
      CenturySplit(b + 1, 0);
      assert 100 * b + d + 1 == 100 * (b + 1) + 0;
    }
    y, e := 100 * b + d, c - (1461 * d) / 4;
    assert CenturyYear(a) == (100 * b + d, c - (1461 * d) / 4);
  }

  /** The quotient m of the inverse formula names the month that contains day e of its year. */
  lemma MonthOfDay(e: nat)
    requires e < 366
    ensures var m := (5 * e + 2) / 153;
            m <= 11 && MonthStart(m) <= e && (m < 11 ==> e < MonthStart(m + 1))
  {
  }

  function FromMarch(y: int, m: int, day: int): Date {
    if m < 10 then Date(y - 4800, m + 3, day) else Date(y - 4799, m - 9, day)
  }

  lemma FromMarchValid(y: nat, m: nat, day: int)
    requires m <= 11 && 1 <= day
    requires day <= if m < 11 then MonthStart(m + 1) - MonthStart(m) else YearStart(y + 1) - YearStart(y) - MonthStart(m)
    ensures ValidDate(FromMarch(y, m, day)) && SinceOrigin(FromMarch(y, m, day))
    ensures JulianDayNumber(FromMarch(y, m, day)) == YearStart(y) + MonthStart(m) + day - 1 + FIRST_DAY
  {
    var first := FromMarch(y, m, 1);
    assert MarchYear(first) == y && MarchMonth(first) == m;
    MonthLength(first);
    JulianDayNumberMarch(FromMarch(y, m, day));
  }

  lemma MonthAndDayNumber(y: nat, e: nat)
    requires YearStart(y) + e < YearStart(y + 1)
    ensures ValidDate(MonthAndDay(y, e)) && SinceOrigin(MonthAndDay(y, e))
    ensures JulianDayNumber(MonthAndDay(y, e)) == YearStart(y) + e + FIRST_DAY
  {
    var m, day := MonthOfYear(y, e);
    FromMarchValid(y, m, day);
  }

  lemma MonthOfYear(y: nat, e: nat) returns (m: nat, day: int)
    requires YearStart(y) + e < YearStart(y + 1)
    ensures m <= 11 && 1 <= day && MonthStart(m) + day - 1 == e && MonthAndDay(y, e) == FromMarch(y, m, day)
    ensures day <= if m < 11 then MonthStart(m + 1) - MonthStart(m) else YearStart(y + 1) - YearStart(y) - MonthStart(m)
  {
    YearLength(y);
    MonthOfDay(e);
    m := (5 * e + 2) / 153;
    day := e - MonthStart(m) + 1;
    MonthAndDayMarch(y, e, m);
  }

  lemma MonthAndDayMarch(y: nat, e: nat, m: nat)
    requires m == (5 * e + 2) / 153 && m <= 11
    ensures MonthAndDay(y, e) == FromMarch(y, m, e - MonthStart(m) + 1)
  {
  }

  /** Every day number from the origin on is the number of the valid date it is broken into. */
  lemma NumberOfBrokenDay(j: int)
    requires j >= FIRST_DAY
    ensures ValidDate(YearMonthDay(j)) && SinceOrigin(YearMonthDay(j))
    ensures JulianDayNumber(YearMonthDay(j)) == j
  {
    var y, e := YearAndDay(j);
    MonthAndDayNumber(y, e);
  }

  /** The year from the origin and the day in it, which the rest of the formula starts from. */
  lemma YearAndDay(j: int) returns (y: nat, e: nat)
    requires j >= FIRST_DAY
    ensures YearStart(y) + e + FIRST_DAY == j && YearStart(y) + e < YearStart(y + 1)
    ensures YearMonthDay(j) == MonthAndDay(y, e)
  {
    y, e := YearOfDay(j - FIRST_DAY);
    YearMonthDayParts(j, y, e);
  }

  lemma YearMonthDayParts(j: int, y: int, e: int)
    requires CenturyYear(j - FIRST_DAY) == (y, e)
    ensures YearMonthDay(j) == MonthAndDay(y, e)
  {
    assert j - FIRST_DAY == j + 32044;
  }

  /** The origin is exact: truncating division gives day 0 or less to every earlier number. */
  lemma BrokenDayValidExactlyFromOrigin(j: int)
    ensures ValidDate(YearMonthDay(j)) <==> j >= FIRST_DAY
  {
    if j >= FIRST_DAY {
      NumberOfBrokenDay(j);
    } else {
      BeforeOriginInvalid(j);
    }
  }

  lemma BeforeOriginInvalid(j: int)
    requires j < FIRST_DAY
    ensures YearMonthDay(j).day <= 0
  {
    var y, e := YearAndNegativeDay(j);
    NegativeDay(y, e);
  }

  lemma YearAndNegativeDay(j: int) returns (y: int, e: int)
    requires j < FIRST_DAY
    ensures e < 0 && YearMonthDay(j) == MonthAndDay(y, e)
  {
    BeforeOriginNegative(j - FIRST_DAY);
    y, e := CenturyYear(j - FIRST_DAY).0, CenturyYear(j - FIRST_DAY).1;
    YearMonthDayParts(j, y, e);
  }

  lemma BeforeOriginNegative(a: int)
    requires a < 0
    ensures CenturyYear(a).1 < 0
  {
    var b := Quot(4 * a + 3, 146097);
    var c := a - Quot(b * 146097, 4);
    CenturyBefore(a, b, c);
    NegativeRemainder(c, 1461);
    assert CenturyYear(a).1 == c - Quot(1461 * Quot(4 * c + 3, 1461), 4);
  }

  lemma CenturyBefore(a: int, b: int, c: int)
    requires a < 0 && b == Quot(4 * a + 3, 146097) && c == a - Quot(b * 146097, 4)
    ensures c < 0
  {
    NegativeRemainder(a, 146097);
  }

  /** Truncating division by n/4 leaves a negative remainder of a negative number. */
  lemma NegativeRemainder(a: int, n: int)
    requires a < 0 && (n == 146097 || n == 1461)
    ensures a - Quot(n * Quot(4 * a + 3, n), 4) < 0
  {
    var q := Quot(4 * a + 3, n);
    if 4 * a + 3 < 0 {
      assert -q * n <= -(4 * a + 3);
    }
  }

  lemma NegativeDay(y: int, e: int)
    requires e < 0
    ensures MonthAndDay(y, e).day <= 0
  {
  }

  lemma {:induction false} YearStartGrows(y: nat, z: nat)
    requires y < z
    ensures YearStart(y + 1) <= YearStart(z)
    decreases z
  {
    if y + 1 < z {
      YearStartGrows(y, z - 1);
      YearLength(z - 1);
    }
  }

  lemma JulianDayNumberInjective(p: Date, q: Date)
    requires ValidDate(p) && SinceOrigin(p) && ValidDate(q) && SinceOrigin(q)
    requires JulianDayNumber(p) == JulianDayNumber(q)
    ensures p == q
  {
    SameYear(p, q);
    JulianDayNumberMarch(p);
    JulianDayNumberMarch(q);
    MonthLength(p);
    MonthLength(q);
    SameMonth(MarchMonth(p), p.day, MarchMonth(q), q.day);
  }

  lemma SameYear(p: Date, q: Date)
    requires ValidDate(p) && SinceOrigin(p) && ValidDate(q) && SinceOrigin(q)
    requires JulianDayNumber(p) == JulianDayNumber(q)
    ensures MarchYear(p) == MarchYear(q)
  {
    if MarchYear(p) < MarchYear(q) {
      EarlierYear(p, q);
    } else if MarchYear(q) < MarchYear(p) {
      EarlierYear(q, p);
    }
  }

  lemma EarlierYear(p: Date, q: Date)
    requires ValidDate(p) && SinceOrigin(p) && ValidDate(q) && SinceOrigin(q) && MarchYear(p) < MarchYear(q)
    ensures JulianDayNumber(p) < JulianDayNumber(q)
  {
    JulianDayNumberMarch(p);
    JulianDayNumberMarch(q);
    DayWithinYear(p);
    YearStartGrows(MarchYear(p), MarchYear(q));
  }

  lemma SameMonth(m: nat, d: int, n: nat, e: int)
    requires m <= 11 && n <= 11 && 1 <= d && 1 <= e && MonthStart(m) + d == MonthStart(n) + e
    requires m < 11 ==> d <= MonthStart(m + 1) - MonthStart(m)
    requires n < 11 ==> e <= MonthStart(n + 1) - MonthStart(n)
    ensures m == n && d == e
  {
    if m < n {
      MonthStartGrows(m, n);
    } else if n < m {
      MonthStartGrows(n, m);
    }
  }

  lemma MonthStartGrows(m: nat, n: nat)
    requires m < n
    ensures MonthStart(m + 1) <= MonthStart(n)
  {
  }

  lemma DayWithinYear(date: Date)
    requires ValidDate(date) && SinceOrigin(date)
    ensures var y, m := MarchYear(date), MarchMonth(date);
            0 <= y && 0 <= m && MonthStart(m) + date.day - 1 < YearStart(y + 1) - YearStart(y)
  {
    MonthLength(date);
    YearLength(MarchYear(date));
  }

  /** Every valid date from the origin on is recovered from its day number. */
  lemma DateOfItsNumber(date: Date)
    requires ValidDate(date) && SinceOrigin(date)
    ensures JulianDayNumber(date) >= FIRST_DAY
    ensures YearMonthDay(JulianDayNumber(date)) == date
  {
    JulianDayNumberMarch(date);
    NumberOfBrokenDay(JulianDayNumber(date));
    JulianDayNumberInjective(YearMonthDay(JulianDayNumber(date)), date);
  }

  // ---- the same computations in 32-bit integers ----

  /** Every operation on this type is checked to stay within 32 bits. */
  newtype int32 = x: int | -0x8000_0000 <= x < 0x8000_0000

  predicate DayFits(j: int) {
    FIRST_DAY <= j && 4 * (j - FIRST_DAY) + 3 < 0x8000_0000
  }

  lemma CenturyQuotients(a: nat)
    requires 4 * a + 3 < 0x8000_0000
    ensures var b := (4 * a + 3) / 146097; var c := a - (b * 146097) / 4; var d := (4 * c + 3) / 1461;
            && 0 <= b < 14700 && 0 <= c < 36525 && 0 <= d <= 99 && 0 <= c - (1461 * d) / 4 < 366
            && CenturyYear(a) == (100 * b + d, c - (1461 * d) / 4)
  {
  }

  function CenturyYear32(a: int32): (r: (int32, int32))
    requires 0 <= a && 4 * (a as int) + 3 < 0x8000_0000
    ensures (r.0 as int, r.1 as int) == CenturyYear(a as int)
    ensures 0 <= r.0 < 1_500_000 && 0 <= r.1 < 366
  {
    CenturyQuotients(a as int);
    var b := (4 * a + 3) / 146097;
    var c := a - (b * 146097) / 4;
    var d := (4 * c + 3) / 1461;
    (b * 100 + d, c - (1461 * d) / 4)
  }

  function MonthAndDay32(year: int32, e: int32): (date: Date)
    requires 0 <= year < 1_500_000 && 0 <= e < 366
    ensures date == MonthAndDay(year as int, e as int)
  {
    var m := (5 * e + 2) / 153;
    Date((year - 4800 + m / 10) as int, (m + 3 - 12 * (m / 10)) as int, (e - (153 * m + 2) / 5 + 1) as int)
  }

  /** getYearMonthDay as the compiler runs it: no intermediate leaves 32 bits, and the date is the one of day j. */
  function YearMonthDay32(j: int32): (date: Date)
    requires DayFits(j as int)
    ensures date == YearMonthDay(j as int)
    ensures ValidDate(date) && JulianDayNumber(date) == j as int
  {
    NumberOfBrokenDay(j as int);
    var r := CenturyYear32(j + 32044);
    MonthAndDay32(r.0, r.1)
  }

  /** getJulianDayNumber in 32 bits, on every date whose number getYearMonthDay can break. */
  function JulianDayNumber32(year: int32, month: int32, day: int32): (j: int32)
    requires var date := Date(year as int, month as int, day as int);
             ValidDate(date) && SinceOrigin(date) && DayFits(JulianDayNumber(date))
    ensures YearMonthDay(j as int) == Date(year as int, month as int, day as int)
  {
    var date := Date(year as int, month as int, day as int);
    DateOfItsNumber(date);
    YearBound(date);
    OrdinaryDateFits(date);
    DayNumber32(year, month, day)
  }

  predicate In32(x: int) {
    -0x8000_0000 <= x < 0x8000_0000
  }

  /** No intermediate of getJulianDayNumber leaves 32 bits: where it does, C++ gives the call no meaning. */
  predicate DayNumberFits(date: Date) {
    var a := Quot(14 - date.month, 12);
    var y := date.year + 4800 - a;
    var m := date.month + 12 * a - 3;
    && In32(date.year) && In32(date.month) && In32(date.day)
    && In32(14 - date.month) && In32(date.year + 4800) && In32(y) && In32(12 * a) && In32(date.month + 12 * a) && In32(m)
    && In32(153 * m) && In32(153 * m + 2) && SumFits(date.day, Quot(153 * m + 2, 5), y)
  }

  predicate SumFits(day: int, days: int, y: int) {
    && In32(day + days) && In32(y * 365) && In32(day + days + y * 365)
    && In32(day + days + y * 365 + Quot(y, 4))
    && In32(day + days + y * 365 + Quot(y, 4) - Quot(y, 100))
    && In32(day + days + y * 365 + Quot(y, 4) - Quot(y, 100) + Quot(y, 400))
    && In32(day + days + y * 365 + Quot(y, 4) - Quot(y, 100) + Quot(y, 400) - 32045)
  }

  /** Truncating division on 32 bits. */
  function Quot32(a: int32, b: int32): (q: int32)
    requires b > 0 && a > -0x8000_0000
    ensures q as int == Quot(a as int, b as int)
  {
    QuotientNoLarger(if a >= 0 then a as int else -(a as int), b as int);
    Quot(a as int, b as int) as int32
  }

  lemma QuotientNoLarger(x: nat, b: nat)
    requires b > 0
    ensures 0 <= x / b <= x
  {
    assert x == b * (x / b) + x % b;
    ProductNoSmaller(b, x / b);
  }

  lemma {:induction false} ProductNoSmaller(b: nat, q: nat)
    requires b > 0
    ensures q <= b * q
  {
    if b > 1 {
      ProductNoSmaller(b - 1, q);
      assert b * q == (b - 1) * q + q;
    }
  }

  function Sum32(day: int32, days: int32, y: int32): (j: int32)
    requires SumFits(day as int, days as int, y as int)
    ensures j as int ==
            day as int + days as int + y as int * 365 + Quot(y as int, 4) - Quot(y as int, 100) + Quot(y as int, 400) - 32045
  {
    day + days + y * 365 + Quot32(y, 4) - Quot32(y, 100) + Quot32(y, 400) - 32045
  }

  /** getJulianDayNumber as the compiler runs it, on any three numbers that it has a meaning for. */
  function DayNumber32(year: int32, month: int32, day: int32): (j: int32)
    requires DayNumberFits(Date(year as int, month as int, day as int))
    ensures j as int == JulianDayNumber(Date(year as int, month as int, day as int))
  {
    var a := Quot32(14 - month, 12);
    var y := year + 4800 - a;
    var m := month + 12 * a - 3;
    Sum32(day, Quot32(153 * m + 2, 5), y)
  }

  lemma OrdinaryDateFits(date: Date)
    requires ValidDate(date) && 0 <= MarchYear(date) < 1_500_000
    ensures DayNumberFits(date)
  {
    assert Quot(14 - date.month, 12) == if date.month <= 2 then 1 else 0;
  }

  lemma YearBound(date: Date)
    requires ValidDate(date) && SinceOrigin(date) && DayFits(JulianDayNumber(date))
    ensures 0 <= MarchYear(date) < 1_500_000
  {
    JulianDayNumberMarch(date);
  }
}

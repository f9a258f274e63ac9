/** FILETIME to (year, month, day): the directory part of an object's path. */
module Calendar {
  import opened Prelude

  const DELTA: int := 116_444_736_000_000_000
  const DIVISOR: int := 86_400_000_000_000
  const TICKS_PER_DAY: int := 864_000_000_000

  datatype Date = Date(year: int, month: int, day: int)

  // ------------------------------------------------------------- the conversion

  function YearOfEra(doe: nat): nat
    requires doe < 146_097
  {
    (doe - doe / 1460 + doe / 36_524 - doe / 146_096) / 365
  }

  /** The date of day `doy` of the year that starts in March of year `y`. */
  function DateInYear(y: int, doy: int): Date {
    var mp := (5 * doy + 2) / 153;
    var d := doy - (153 * mp + 2) / 5 + 1;
    var m := if mp < 10 then mp + 3 else mp - 9;
    Date(if m <= 2 then y + 1 else y, m, d)
  }

  /** The date of a day within a 400-year era. */
  function CivilInEra(era: int, doe: nat): Date
    requires doe < 146_097
  {
    var yoe := YearOfEra(doe);
    DateInYear(yoe + era * 400, doe - (365 * yoe + yoe / 4 - yoe / 100))
  }

  function CivilFromDays(days: int): Date {
    var z := days + 719_468;
    CivilInEra(z / 146_097, z % 146_097)
  }

  function YmdFromFiletime(ticks: i64): Date {
    CivilFromDays((ticks - DELTA) / DIVISOR)
  }

  // --------------------------------------------- the proleptic Gregorian calendar

  predicate Leap(y: int) {
    y % 4 == 0 && (y % 100 != 0 || y % 400 == 0)
  }

  function DaysInMonth(y: int, m: int): int {
    if m == 2 then if Leap(y) then 29 else 28
    else if m == 4 || m == 6 || m == 9 || m == 11 then 30
    else 31
  }

  predicate ValidDate(x: Date) {
    1 <= x.month <= 12 && 1 <= x.day <= DaysInMonth(x.year, x.month)
  }

  function NextDay(x: Date): Date {
    if x.day < DaysInMonth(x.year, x.month) then x.(day := x.day + 1)
    else if x.month < 12 then Date(x.year, x.month + 1, 1)
    else Date(x.year + 1, 1, 1)
  }

  predicate Earlier(a: Date, b: Date) {
    || a.year < b.year
    || (a.year == b.year && a.month < b.month)
    || (a.year == b.year && a.month == b.month && a.day < b.day)
  }

  /** Days from 1 January of year 1 to 1 January of year `y`. */
  function DaysBeforeYear(y: int): int {
    365 * (y - 1) + (y - 1) / 4 - (y - 1) / 100 + (y - 1) / 400
  }

  function DaysBeforeMonth(y: int, m: int): int {
    (if m <= 1 then 0
     else if m == 2 then 31
     else if m == 3 then 59
     else if m == 4 then 90
     else if m == 5 then 120
     else if m == 6 then 151
     else if m == 7 then 181
     else if m == 8 then 212
     else if m == 9 then 243
     else if m == 10 then 273
     else if m == 11 then 304
     else if m == 12 then 334
     else 365) + if m > 2 && Leap(y) then 1 else 0
  }

  /** Days since 1 January 1970. */
  function DayCount(x: Date): int {
    DaysBeforeYear(x.year) + DaysBeforeMonth(x.year, x.month) + x.day - 1 - 719_162
  }

  // ------------------------------------------------------------- the arithmetic

  /** A day of the era as century, four-year cycle, year and day of that year. */
  lemma EraSplit(doe: nat) returns (c: int, q: int, t: int, s: int)
    requires doe < 146_097
    ensures 0 <= c <= 3 && 0 <= q <= 24 && 0 <= t <= 3
    ensures doe == 36_524 * c + 1461 * q + s
    ensures 365 * t <= s <= 365 * t + 365 && s <= 1460
    ensures s == 365 * t + 365 ==> t == 3 && (q < 24 || c == 3)
    ensures doe / 36_524 - doe / 146_096 == c
  {
    c := if doe == 146_096 then 3 else doe / 36_524;
    var r := doe - 36_524 * c;
    assert 0 <= r <= 36_524 && (r == 36_524 ==> c == 3);
    q := r / 1461;
    s := r % 1461;
    assert r == 1461 * q + s && q <= 24;
    t := if s < 365 then 0 else if s < 730 then 1 else if s < 1095 then 2 else 3;
  }

  lemma YearOf(c: int, q: int, t: int)
    requires 0 <= c <= 3 && 0 <= q <= 24 && 0 <= t <= 3
    ensures var k := 100 * c + 4 * q + t;
      k / 4 == 25 * c + q && k / 100 == c
  {
  }

  lemma YearOfEraIs(doe: nat, c: int, q: int, t: int, s: int)
    requires doe < 146_097 && 0 <= c <= 3 && 0 <= q <= 24 && 0 <= t <= 3
    requires doe == 36_524 * c + 1461 * q + s && 365 * t <= s <= 365 * t + 365 && s <= 1460
    requires s == 365 * t + 365 ==> t == 3
    requires doe / 36_524 - doe / 146_096 == c
    ensures YearOfEra(doe) == 100 * c + 4 * q + t
  {
  }

  /** The 400-year era, counted in years that start in March: the day falls in
      year k of the era, which has a 366th day only before a leap February. */
  lemma YearOfEraCorrect(doe: nat)
    requires doe < 146_097
    ensures var k := YearOfEra(doe);
      var doy := doe - (365 * k + k / 4 - k / 100);
      && k < 400 && 0 <= doy <= 365
      && (doy == 365 ==> k == 399 || ((k + 1) % 4 == 0 && (k + 1) % 100 != 0))
  {
    var c, q, t, s := EraSplit(doe);
    var k := 100 * c + 4 * q + t;
    YearOf(c, q, t);
    YearOfEraIs(doe, c, q, t, s);
    assert doe - (365 * k + k / 4 - k / 100) == s - 365 * t;
    if s == 365 * t + 365 {
      assert k + 1 == 4 * (25 * c + q + 1);
      assert q < 24 ==> (k + 1) % 100 == 4 * (q + 1);
    }
  }

  /** Days from 1 March to the first of month `m`, counting on past December. */
  function FromMarch(m: int): int {
    if m == 3 then 0 else if m == 4 then 31 else if m == 5 then 61 else if m == 6 then 92
    else if m == 7 then 122 else if m == 8 then 153 else if m == 9 then 184 else if m == 10 then 214
    else if m == 11 then 245 else if m == 12 then 275 else if m == 1 then 306 else 337
  }

  lemma DateInYearCorrect(y: int, doy: int)
    requires 0 <= doy <= 365
    ensures var x := DateInYear(y, doy);
      && 1 <= x.month <= 12 && x.year == (if x.month <= 2 then y + 1 else y)
      && x.day >= 1 && doy == FromMarch(x.month) + x.day - 1
      && (x.month == 2 ==> x.day <= 29 && (x.day == 29 <==> doy == 365))
      && (x.month == 4 || x.month == 6 || x.month == 9 || x.month == 11 ==> x.day <= 30) && x.day <= 31
  {
  }

  lemma EraDivisions(era: int, n: int)
    ensures (n + 400 * era) / 4 == n / 4 + 100 * era && (n + 400 * era) % 4 == n % 4
    ensures (n + 400 * era) / 100 == n / 100 + 4 * era && (n + 400 * era) % 100 == n % 100
    ensures (n + 400 * era) / 400 == n / 400 + era && (n + 400 * era) % 400 == n % 400
  {
  }

  lemma YearStart(era: int, k: int)
    requires 0 <= k < 400
    ensures DaysBeforeYear(k + 400 * era + 1) == 365 * k + k / 4 - k / 100 + 146_097 * era
  {
    EraDivisions(era, k);
  }

  /** March of year y to the following February, in days since 1 January of year 1. */
  lemma MonthStart(y: int, m: int)
    requires 1 <= m <= 12
    ensures var year := if m <= 2 then y + 1 else y;
      DaysBeforeYear(year) + DaysBeforeMonth(year, m) == DaysBeforeYear(y + 1) - 306 + FromMarch(m)
  {
    LeapYearLength(y);
  }

  lemma Step4(y: int)
    ensures y / 4 - (y - 1) / 4 == if y % 4 == 0 then 1 else 0
  {
  }

  lemma Step100(y: int)
    ensures y / 100 - (y - 1) / 100 == if y % 100 == 0 then 1 else 0
  {
  }

  lemma Step400(y: int)
    ensures y / 400 - (y - 1) / 400 == if y % 400 == 0 then 1 else 0
  {
  }

  lemma MultipleOf100(y: int)
    ensures y % 100 == 0 ==> y % 4 == 0
  {
  }

  lemma MultipleOf400(y: int)
    ensures y % 400 == 0 ==> y % 100 == 0
  {
  }

  lemma LeapYearLength(y: int)
    ensures DaysBeforeYear(y + 1) - DaysBeforeYear(y) == if Leap(y) then 366 else 365
  {
    Step4(y);
    Step100(y);
    Step400(y);
    MultipleOf100(y);
    MultipleOf400(y);
  }

  // ------------------------------------------------------------------ the results

  lemma DayOfEra(era: int, k: int, doy: int)
    requires 0 <= k < 400 && 0 <= doy <= 365
    ensures DayCount(DateInYear(k + era * 400, doy)) == 365 * k + k / 4 - k / 100 + 146_097 * era + doy - 719_468
  {
    var y := k + era * 400;
    DateInYearCorrect(y, doy);
    YearStart(era, k);
    MonthStart(y, DateInYear(y, doy).month);
  }

  /** The 29th of February comes up only in leap years. */
  lemma LeapDay(era: int, k: int)
    requires 0 <= k < 400 && (k == 399 || ((k + 1) % 4 == 0 && (k + 1) % 100 != 0))
    ensures Leap(k + era * 400 + 1)
  {
    EraDivisions(era, k + 1);
  }

  lemma DateOfEra(era: int, k: int, doy: int)
    requires 0 <= k < 400 && 0 <= doy <= 365
    requires doy == 365 ==> k == 399 || ((k + 1) % 4 == 0 && (k + 1) % 100 != 0)
    ensures ValidDate(DateInYear(k + era * 400, doy))
  {
    DateInYearCorrect(k + era * 400, doy);
    if doy == 365 {
      LeapDay(era, k);
    }
  }

  lemma InEraIsInverse(era: int, doe: nat)
    requires doe < 146_097
    ensures var x := CivilInEra(era, doe);
      ValidDate(x) && DayCount(x) == 146_097 * era + doe - 719_468
  {
    YearOfEraCorrect(doe);
    var k := YearOfEra(doe);
    var x := CivilInEra(era, doe);
    assert x == DateInYear(k + era * 400, doe - (365 * k + k / 4 - k / 100));
    Settle(x, era, doe, k, doe - (365 * k + k / 4 - k / 100));
  }

  lemma Settle(x: Date, era: int, doe: nat, k: int, doy: int)
    requires 0 <= k < 400 && 0 <= doy <= 365 && doe == 365 * k + k / 4 - k / 100 + doy
    requires doy == 365 ==> k == 399 || ((k + 1) % 4 == 0 && (k + 1) % 100 != 0)
    requires x == DateInYear(k + era * 400, doy)
    ensures ValidDate(x) && DayCount(x) == 146_097 * era + doe - 719_468
  {
    DateOfEra(era, k, doy);
    DayOfEra(era, k, doy);
  }

  /** Every day number yields a real date, and that date's number is the day. */
  lemma CivilIsInverse(days: int)
    ensures ValidDate(CivilFromDays(days)) && DayCount(CivilFromDays(days)) == days
  {
    var z := days + 719_468;
    InEraIsInverse(z / 146_097, z % 146_097);
  }

  lemma {:induction false} YearsApart(y: int, n: nat)
    ensures DaysBeforeYear(y + n) >= DaysBeforeYear(y) + 365 * n
  {
    if n > 0 {
      YearsApart(y, n - 1);
      LeapYearLength(y + n - 1);
    }
  }

  lemma DayInYear(x: Date)
    requires ValidDate(x)
    ensures 0 <= DaysBeforeMonth(x.year, x.month) + x.day - 1 < 365 + if Leap(x.year) then 1 else 0
  {
  }

  /** Day counts follow the order of dates. */
  lemma DayCountMonotone(a: Date, b: Date)
    requires ValidDate(a) && ValidDate(b) && Earlier(a, b)
    ensures DayCount(a) < DayCount(b)
  {
    if a.year < b.year {
      DayInYear(a);
      DayInYear(b);
      LeapYearLength(a.year);
      YearsApart(a.year + 1, b.year - a.year - 1);
    }
  }

  /** The conversion is strictly increasing: no two days share a date, and later
      days have later dates. */
  lemma CivilIsIncreasing(m: int, n: int)
    requires m < n
    ensures Earlier(CivilFromDays(m), CivilFromDays(n))
  {
    CivilIsInverse(m);
    CivilIsInverse(n);
    var a, b := CivilFromDays(m), CivilFromDays(n);
    if !Earlier(a, b) && a != b {
      DayCountMonotone(b, a);
    }
  }

  /** Every real date is reached, from its own day count. */
  lemma CivilIsOnto(x: Date)
    requires ValidDate(x)
    ensures CivilFromDays(DayCount(x)) == x
  {
    var y := CivilFromDays(DayCount(x));
    CivilIsInverse(DayCount(x));
    if Earlier(x, y) {
      DayCountMonotone(x, y);
    } else if Earlier(y, x) {
      DayCountMonotone(y, x);
    }
  }

  lemma NextDayCount(x: Date)
    requires ValidDate(x)
    ensures ValidDate(NextDay(x)) && DayCount(NextDay(x)) == DayCount(x) + 1
  {
    LeapYearLength(x.year);
  }

  lemma DateOfDay(x: Date, n: int)
    requires ValidDate(x) && DayCount(x) == n
    ensures CivilFromDays(n) == x
  {
    CivilIsOnto(x);
  }

  /** Day 0 is 1 January 1970 ... */
  lemma CivilEpoch()
    ensures CivilFromDays(0) == Date(1970, 1, 1)
  {
    DateOfDay(Date(1970, 1, 1), 0);
  }

  /** ... and each following day is the calendar's next. */
  lemma CivilFollowsTheCalendar(days: int)
    ensures CivilFromDays(days + 1) == NextDay(CivilFromDays(days))
  {
    var x := CivilFromDays(days);
    CivilIsInverse(days);
    NextDayCount(x);
    CivilIsOnto(NextDay(x));
    assert DayCount(NextDay(x)) == days + 1;
  }

  lemma CivilInjective(m: int, n: int)
    ensures CivilFromDays(m) == CivilFromDays(n) <==> m == n
  {
    CivilIsInverse(m);
    CivilIsInverse(n);
  }

  lemma CoarseDay(t: int)
    ensures t / DIVISOR == (t / TICKS_PER_DAY) / 100
  {
  }

  /** The divisor counts nanoseconds, not 100 ns ticks, in a day: the date is that
      of the timestamp's own day only on the two days around the epoch. */
  lemma YmdIsTheDayOnlyAtTheEpoch(ticks: i64)
    ensures var day := (ticks - 116_444_736_000_000_000) / 864_000_000_000;
      YmdFromFiletime(ticks) == CivilFromDays(day) <==> day == 0 || day == -1
    ensures YmdFromFiletime(ticks) == CivilFromDays((ticks - 116_444_736_000_000_000) / 86_400_000_000_000)
  {
    var day := (ticks - DELTA) / TICKS_PER_DAY;
    CoarseDay(ticks - DELTA);
    CivilInjective(day / 100, day);
  }
}

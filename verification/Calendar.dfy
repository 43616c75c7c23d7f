/** Day numbers and proleptic Gregorian dates, as `gyt log` prints them. */
module Calendar {
  import opened Bytes

  datatype Date = Date(year: int, month: int, day: int)

  // The calendar itself, counted year by year and month by month.

  predicate Leap(y: int) { y % 4 == 0 && (y % 100 != 0 || y % 400 == 0) }

  function YearLength(y: int): int { if Leap(y) then 366 else 365 }

  function MonthLength(y: int, m: int): int {
    if m == 2 then (if Leap(y) then 29 else 28)
    else if m == 4 || m == 6 || m == 9 || m == 11 then 30
    else 31
  }

  /** Days from 1970-01-01 to the first of January of a year. */
  function YearStart(y: int): int
    decreases if y >= 1970 then y - 1970 else 1970 - y
  {
    if y == 1970 then 0
    else if y > 1970 then YearStart(y - 1) + YearLength(y - 1)
    else YearStart(y + 1) - YearLength(y)
  }

  /** Days of a year before the first of a month. */
  function MonthStart(y: int, m: int): int
    decreases m
  {
    if m <= 1 then 0 else MonthStart(y, m - 1) + MonthLength(y, m - 1)
  }

  predicate Valid(t: Date) {
    1 <= t.month <= 12 && 1 <= t.day <= MonthLength(t.year, t.month)
  }

  function DayNumber(t: Date): int { YearStart(t.year) + MonthStart(t.year, t.month) + t.day - 1 }

  predicate Earlier(s: Date, t: Date) {
    s.year < t.year
    || (s.year == t.year && (s.month < t.month || (s.month == t.month && s.day < t.day)))
  }

  // The arithmetic of the log command.

  /** Integer division that truncates toward zero. */
  function TruncDiv(a: int, b: int): int
    requires b > 0
  {
    if a >= 0 then a / b else -((-a) / b)
  }

  function Era(z: int): int { TruncDiv(if z >= 0 then z else z - 146_096, 146_097) }

  function DayOfEra(z: int): int { z - Era(z) * 146_097 }

  function YearOfEra(doe: int): int { (doe - doe / 1460 + doe / 36_524 - doe / 146_096) / 365 }

  function EraDays(y: int): int { 365 * y + y / 4 - y / 100 }

  function MonthIndex(doy: int): int { (5 * doy + 2) / 153 }

  function MonthOffset(mp: int): int { (153 * mp + 2) / 5 }

  /** The date that lies a number of days after the first of March of year y. */
  function FromMarch(y: int, doy: int): Date {
    var mp := MonthIndex(doy);
    var d := doy - MonthOffset(mp) + 1;
    var m := if mp < 10 then mp + 3 else mp - 9;
    Date(if m <= 2 then y + 1 else y, m, d)
  }

  /** The date of a day counted from 1970-01-01, by era, year of era and day of year from March. */
  function CivilFromDays(days: int): Date {
    var z := days + 719_468;
    var doe := DayOfEra(z);
    var yoe := YearOfEra(doe);
    var doy := doe - EraDays(yoe);
    FromMarch(yoe + Era(z) * 400, doy)
  }

  lemma {:induction false} EraIsFloor(z: int)
    ensures Era(z) == z / 146_097
    ensures 0 <= DayOfEra(z) <= 146_096
  {
  }

  /** A day in century k of its era has a year of era in that century. */
  lemma {:induction false} CenturyOf(doe: int, k: int)
    requires 0 <= k <= 3 && 36_524 * k <= doe < 36_524 * (k + 1)
    ensures 100 * k <= YearOfEra(doe) <= 100 * k + 99
    ensures 365 * YearOfEra(doe) <= doe - doe / 1460 + k <= 365 * YearOfEra(doe) + 364
    ensures doe / 1460 >= 25 * k
  {
    assert doe / 36_524 == k;
    assert doe / 146_096 == 0;
    assert 25 * k <= doe / 1460 <= 25 * (k + 1);
  }

  lemma {:induction false} BegunInCentury(doe: int, k: int)
    requires 0 <= k <= 3 && 36_524 * k <= doe < 36_524 * (k + 1)
    ensures EraDays(YearOfEra(doe)) <= doe
  {
    CenturyOf(doe, k);
    var yoe := YearOfEra(doe);
    assert yoe / 100 == k;
    assert 1460 * (yoe / 4) <= doe;
    assert yoe / 4 <= doe / 1460;
  }

  lemma {:induction false} NotOverInCentury(doe: int, k: int)
    requires 0 <= k <= 3 && 36_524 * k <= doe < 36_524 * (k + 1)
    ensures doe < EraDays(YearOfEra(doe) + 1)
  {
    CenturyOf(doe, k);
    var yoe := YearOfEra(doe);
    if yoe == 100 * k + 99 {
      assert EraDays(100 * (k + 1)) == 36_524 * (k + 1);
    } else {
      assert (yoe + 1) / 100 == k;
      assert 4 * (doe / 1460) <= yoe + 1;
      assert doe / 1460 <= (yoe + 1) / 4;
    }
  }

  /** The day lies in the year of era computed for it; the last day of an era closes its year 399. */
  lemma {:induction false} YearOfDay(doe: int)
    requires 0 <= doe <= 146_096
    ensures 0 <= YearOfEra(doe) <= 399
    ensures EraDays(YearOfEra(doe)) <= doe
    ensures doe < EraDays(YearOfEra(doe) + 1) + (if YearOfEra(doe) == 399 then 1 else 0)
  {
    if doe == 146_096 {
      assert YearOfEra(doe) == 399;
    } else {
      var k := doe / 36_524;
      CenturyOf(doe, k);
      BegunInCentury(doe, k);
      NotOverInCentury(doe, k);
    }
  }

  lemma {:induction false} DivStep(y: int, n: int)
    requires n == 4 || n == 100 || n == 400
    ensures y / n == (y - 1) / n + (if y % n == 0 then 1 else 0)
  {
  }

  lemma {:induction false} LeapByCounting(y: int)
    ensures y / 4 - y / 100 + y / 400
         == (y - 1) / 4 - (y - 1) / 100 + (y - 1) / 400 + YearLength(y) - 365
  {
    DivStep(y, 4);
    DivStep(y, 100);
    DivStep(y, 400);
  }

  function LeapDays(y: int): int { y / 4 - y / 100 + y / 400 }

  /** The closed form of a year's first day. */
  lemma {:induction false} YearStartClosed(y: int)
    ensures YearStart(y) == 365 * (y - 1970) + LeapDays(y - 1) - 477
    decreases if y >= 1970 then y - 1970 else 1970 - y
  {
    if y > 1970 {
      YearStartClosed(y - 1);
      LeapByCounting(y - 1);
    } else if y < 1970 {
      YearStartClosed(y + 1);
      LeapByCounting(y);
    }
  }

  lemma {:induction false} ShiftDiv(a: int, n: int, k: int)
    requires n == 4 || n == 100 || n == 400
    ensures (a + n * k) / n == a / n + k
    ensures (a + n * k) % n == a % n
  {
  }

  lemma {:induction false} LeapDaysByEra(era: int, yoe: int)
    requires 0 <= yoe <= 399
    ensures LeapDays(yoe + era * 400) == yoe / 4 - yoe / 100 + 97 * era
  {
    ShiftDiv(yoe, 4, 100 * era);
    ShiftDiv(yoe, 100, 4 * era);
    ShiftDiv(yoe, 400, era);
  }

  lemma {:induction false} LeapByEra(era: int, y: int)
    ensures Leap(y + era * 400) <==> Leap(y)
  {
    ShiftDiv(y, 4, 100 * era);
    ShiftDiv(y, 100, 4 * era);
    ShiftDiv(y, 400, era);
  }

  /** Where the first of March of a year lies, in the era's own terms. */
  lemma {:induction false} MarchFirst(era: int, yoe: int)
    requires 0 <= yoe <= 399
    ensures YearStart(yoe + era * 400 + 1) - 306 == era * 146_097 + EraDays(yoe) - 719_468
  {
    YearStartClosed(yoe + era * 400 + 1);
    LeapDaysByEra(era, yoe);
  }

  lemma {:induction false} NextYear(y: int)
    ensures YearStart(y + 1) == YearStart(y) + YearLength(y)
  {
  }

  lemma {:induction false} MonthStarts(y: int, m: int)
    requires 1 <= m <= 12
    ensures m <= 2 ==> MonthStart(y, m) == (if m == 1 then 0 else 31)
    ensures m >= 3 ==> MonthStart(y, m) == MonthOffset(m - 3) + YearLength(y) - 306
  {
    if m > 1 {
      MonthStarts(y, m - 1);
    }
  }

  lemma {:induction false} MonthCovers(doy: int)
    requires 0 <= doy <= 365
    ensures 0 <= MonthIndex(doy) <= 11
    ensures MonthOffset(MonthIndex(doy)) <= doy
    ensures MonthIndex(doy) < 11 ==> doy < MonthOffset(MonthIndex(doy) + 1)
  {
  }

  lemma {:induction false} MonthSpan(y: int, mp: int)
    requires 0 <= mp <= 10
    ensures mp < 10 ==> MonthOffset(mp + 1) - MonthOffset(mp) == MonthLength(y, mp + 3)
    ensures mp == 10 ==> MonthOffset(mp + 1) - MonthOffset(mp) == MonthLength(y + 1, 1)
  {
  }

  lemma {:induction false} DayOfYear(doe: int)
    requires 0 <= doe <= 146_096
    ensures var doy := doe - EraDays(YearOfEra(doe));
            0 <= doy <= 365 && (doy == 365 ==> Leap(YearOfEra(doe) + 1))
  {
    YearOfDay(doe);
    LastOfFebruary(YearOfEra(doe));
  }

  lemma {:induction false} LastOfFebruary(yoe: int)
    requires 0 <= yoe <= 399
    ensures EraDays(yoe + 1) + (if yoe == 399 then 1 else 0)
         == EraDays(yoe) + YearLength(yoe + 1)
  {
    DivStep(yoe + 1, 4);
    DivStep(yoe + 1, 100);
  }

  /** Every intermediate value lies in the range the program's comments give for it. */
  lemma {:induction false} Ranges(days: int)
    ensures var doe := DayOfEra(days + 719_468);
            var doy := doe - EraDays(YearOfEra(doe));
            && 0 <= doe <= 146_096
            && 0 <= YearOfEra(doe) <= 399
            && 0 <= doy <= 365
            && 0 <= MonthIndex(doy) <= 11
            && 1 <= CivilFromDays(days).day <= 31
  {
    EraIsFloor(days + 719_468);
    var doe := DayOfEra(days + 719_468);
    YearOfDay(doe);
    DayOfYear(doe);
    MonthCovers(doe - EraDays(YearOfEra(doe)));
    CivilIsRight(days);
  }

  /** Counting on from the first of March gives a real date, that many days later. */
  lemma {:induction false} FromMarchIsRight(y: int, doy: int)
    requires 0 <= doy <= 365
    requires doy == 365 ==> Leap(y + 1)
    ensures Valid(FromMarch(y, doy))
    ensures DayNumber(FromMarch(y, doy)) == YearStart(y + 1) - 306 + doy
  {
    MonthCovers(doy);
    var mp := MonthIndex(doy);
    if mp < 11 {
      MonthSpan(y, mp);
    }
    if mp < 10 {
      NextYear(y);
      MonthStarts(y, mp + 3);
    } else {
      MonthStarts(y + 1, mp - 9);
    }
  }

  lemma {:induction false} FromEraIsRight(era: int, yoe: int, doy: int)
    requires 0 <= yoe <= 399 && 0 <= doy <= 365
    requires doy == 365 ==> Leap(yoe + 1)
    ensures Valid(FromMarch(yoe + era * 400, doy))
    ensures DayNumber(FromMarch(yoe + era * 400, doy)) == era * 146_097 + EraDays(yoe) + doy - 719_468
  {
    LeapByEra(era, yoe + 1);
    MarchFirst(era, yoe);
    assert yoe + 1 + era * 400 == yoe + era * 400 + 1;
    FromMarchIsRight(yoe + era * 400, doy);
  }

  lemma {:induction false} InEra(z: int)
    ensures var yoe := YearOfEra(DayOfEra(z));
            var doy := DayOfEra(z) - EraDays(yoe);
            0 <= yoe <= 399 && 0 <= doy <= 365 && (doy == 365 ==> Leap(yoe + 1))
  {
    EraIsFloor(z);
    YearOfDay(DayOfEra(z));
    DayOfYear(DayOfEra(z));
  }

  lemma {:induction false} CivilByEra(days: int, era: int, yoe: int, doy: int)
    requires era == Era(days + 719_468)
    requires yoe == YearOfEra(DayOfEra(days + 719_468))
    requires doy == DayOfEra(days + 719_468) - EraDays(yoe)
    ensures CivilFromDays(days) == FromMarch(yoe + era * 400, doy)
    ensures days == era * 146_097 + EraDays(yoe) + doy - 719_468
  {
  }

  /** The date printed is a real one, and counting its days gives the number back. */
  lemma {:induction false} CivilIsRight(days: int)
    ensures Valid(CivilFromDays(days))
    ensures DayNumber(CivilFromDays(days)) == days
  {
    var z := days + 719_468;
    var yoe := YearOfEra(DayOfEra(z));
    var doy := DayOfEra(z) - EraDays(yoe);
    InEra(z);
    CivilByEra(days, Era(z), yoe, doy);
    FromEraIsRight(Era(z), yoe, doy);
  }

  lemma {:induction false} YearsForward(y: int, z: int)
    requires y < z
    ensures YearStart(y) + YearLength(y) <= YearStart(z)
    decreases z - y
  {
    NextYear(z - 1);
    if y < z - 1 {
      YearsForward(y, z - 1);
    }
  }

  lemma {:induction false} MonthsForward(y: int, m: int, n: int)
    requires 1 <= m < n <= 13
    ensures MonthStart(y, m) + MonthLength(y, m) <= MonthStart(y, n)
    ensures MonthStart(y, 13) == YearLength(y)
    decreases n - m
  {
    MonthStarts(y, 12);
    if m < n - 1 {
      MonthsForward(y, m, n - 1);
    }
  }

  /** Later dates have larger day numbers, so a day number names one date. */
  lemma {:induction false} DaysForward(s: Date, t: Date)
    requires Valid(s) && Valid(t)
    ensures Earlier(s, t) <==> DayNumber(s) < DayNumber(t)
    ensures DayNumber(s) == DayNumber(t) ==> s == t
  {
    if Earlier(s, t) {
      Forward(s, t);
    } else if s != t {
      Forward(t, s);
    }
  }

  lemma {:induction false} Forward(s: Date, t: Date)
    requires Valid(s) && Valid(t) && Earlier(s, t)
    ensures DayNumber(s) < DayNumber(t)
  {
    if s.year < t.year {
      YearsForward(s.year, t.year);
      MonthsForward(s.year, s.month, 13);
      if t.month > 1 {
        MonthsForward(t.year, 1, t.month);
      }
    } else if s.month < t.month {
      MonthsForward(s.year, s.month, t.month);
    }
  }

  /** The dates of two days come in the order of the days, and differ when the days do. */
  lemma {:induction false} CivilIncreases(a: int, b: int)
    ensures a < b <==> Earlier(CivilFromDays(a), CivilFromDays(b))
    ensures a == b <==> CivilFromDays(a) == CivilFromDays(b)
  {
    CivilIsRight(a);
    CivilIsRight(b);
    DaysForward(CivilFromDays(a), CivilFromDays(b));
  }

  /** Every valid date is printed for some day: its own number. */
  lemma {:induction false} CivilInverse(t: Date)
    requires Valid(t)
    ensures CivilFromDays(DayNumber(t)) == t
  {
    CivilIsRight(DayNumber(t));
    DaysForward(CivilFromDays(DayNumber(t)), t);
  }

  /** Past the first addition no signed step can overflow. */
  lemma {:induction false} NoOverflow(days: int)
    requires InI64(days) && InI64(days + 719_468)
    ensures var z := days + 719_468;
            && (z < 0 ==> InI64(z - 146_096))
            && InI64(Era(z) * 146_097)
            && InI64(Era(z) * 400)
            && InI64(CivilFromDays(days).year)
  {
    EraIsFloor(days + 719_468);
    Ranges(days);
  }
}

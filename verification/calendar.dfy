/** The proleptic Gregorian calendar as Go's `time` package computes it:
    dates to day counts since 1970-01-01 and back, with integer civil-date
    arithmetic over 400-year eras. */
module Calendar {
  /** A calendar date. */
  datatype Civil = Civil(year: int, month: int, day: int)

  /** Days since 1970-01-01 of a date; March-based years make February the
      last month, so leap days need no special case. */
  function DaysFromCivil(c: Civil): int {
    var y := MarchYear(c);
    var era := y / 400;
    var yoe := y - era * 400;
    var mp := if c.month > 2 then c.month - 3 else c.month + 9;
    var doy := (153 * mp + 2) / 5 + c.day - 1;
    var doe := yoe * 365 + yoe / 4 - yoe / 100 + doy;
    era * 146097 + doe - 719468
  }

  /** The year of era (0..399) of a day of era (0..146096). */
  function YearOfEra(doe: int): (yoe: int)
    requires 0 <= doe < 146097
    ensures 0 <= yoe < 400
  {
    YearOfEraBound(doe);
    (doe - doe / 1460 + doe / 36524 - doe / 146096) / 365
  }

  lemma YearOfEraBound(doe: int)
    requires 0 <= doe < 146097
    ensures 0 <= doe - doe / 1460 + doe / 36524 - doe / 146096 < 146000
  {
    var q := doe / 1460;
    var r := doe % 1460;
    assert doe == 1460 * q + r;
    assert doe / 36524 <= 4;
    if doe < 146096 {
      assert doe / 146096 == 0;
      assert doe / 36524 <= 3;
      assert q <= 100;
      if q == 100 {
        assert r <= 95;
      }
    } else {
      assert doe / 146096 == 1 && q == 100 && doe / 36524 == 4;
    }
  }

  /** The date of a day count, the inverse of `DaysFromCivil`. */
  function CivilFromDays(z: int): (c: Civil)
    ensures 1 <= c.month <= 12
    ensures 1 <= c.day <= 31
    ensures DaysFromCivil(c) == z
  {
    var z' := z + 719468;
    var era := z' / 146097;
    CivilInEra(era, z' - era * 146097)
  }

  /** The date of day `doe` (0..146096) of 400-year era `era`; eras begin on
      1 March of years divisible by 400. */
  function CivilInEra(era: int, doe: int): (c: Civil)
    requires 0 <= doe < 146097
    ensures 1 <= c.month <= 12
    ensures 1 <= c.day <= 31
    ensures DaysFromCivil(c) == era * 146097 + doe - 719468
  {
    var yoe := YearOfEra(doe);
    var doy := doe - YearStart(yoe);
    DayOfYearBound(doe, yoe);
    var mp := (5 * doy + 2) / 153;
    var d := doy - (153 * mp + 2) / 5 + 1;
    var m := if mp < 10 then mp + 3 else mp - 9;
    var y := yoe + era * 400 + (if m <= 2 then 1 else 0);
    assert (if m <= 2 then y - 1 else y) / 400 == era;
    Civil(y, m, d)
  }

  lemma DayOfYearBound(doe: int, yoe: int)
    requires 0 <= doe < 146097
    requires yoe == YearOfEra(doe)
    ensures var doy := doe - (365 * yoe + yoe / 4 - yoe / 100);
      0 <= doy <= 365
      && 0 <= (5 * doy + 2) / 153 <= 11
      && 1 <= doy - (153 * ((5 * doy + 2) / 153) + 2) / 5 + 1 <= 31
  {
    var n := doe - doe / 1460 + doe / 36524 - doe / 146096;
    assert yoe == n / 365;
    assert 365 * yoe <= n < 365 * yoe + 365;
    var doy := doe - (365 * yoe + yoe / 4 - yoe / 100);
    // doe - n is the number of leap days before `doe` in its era
    assert yoe / 4 - yoe / 100 <= doe - n by {
      YearDays(doe, yoe);
    }
    assert doe - n <= yoe / 4 - yoe / 100 + 1 by {
      YearDays(doe, yoe);
    }
    var mp := (5 * doy + 2) / 153;
    assert 153 * mp <= 5 * doy + 2 < 153 * mp + 153;
  }

  /** The leap-day correction `doe - n` lies between the leap days of the
      whole years before and that count plus one. */
  lemma YearDays(doe: int, yoe: int)
    requires 0 <= doe < 146097
    requires yoe == YearOfEra(doe)
    ensures var n := doe - doe / 1460 + doe / 36524 - doe / 146096;
      yoe / 4 - yoe / 100 <= doe - n <= yoe / 4 - yoe / 100 + 1
  {
    var n := doe - doe / 1460 + doe / 36524 - doe / 146096;
    assert yoe == n / 365;
    var a := doe / 1460;
    var b := doe / 36524;
    var c := doe / 146096;
    assert doe - n == a - b + c;
    assert 1460 * a <= doe < 1460 * a + 1460;
    assert 36524 * b <= doe < 36524 * b + 36524;
    assert 365 * yoe <= n < 365 * yoe + 365;
    var f := yoe / 4;
    var h := yoe / 100;
    assert 4 * f <= yoe < 4 * f + 4;
    assert 100 * h <= yoe < 100 * h + 100;
    assert 0 <= b <= 4 && 0 <= c <= 1;
    if c == 1 {
      assert doe == 146096 && yoe == 399;
    } else {
      assert b <= 3;
      assert doe == n + a - b;
      // a = floor(doe / 1460) and b = floor(doe / 36524) follow yoe
      assert 365 * yoe + a - b <= doe < 365 * yoe + 365 + a - b;
      assert h == b || (h == b - 1) || (h == b + 1);
      assert f == a || f == a - 1 || f == a + 1;
      YearDaysCases(doe, yoe, a, b, f, h);
    }
  }

  lemma YearDaysCases(doe: int, yoe: int, a: int, b: int, f: int, h: int)
    requires 0 <= doe < 146096 && 0 <= yoe < 400
    requires 1460 * a <= doe < 1460 * a + 1460
    requires 36524 * b <= doe < 36524 * b + 36524
    requires 0 <= b <= 3
    requires 365 * yoe + a - b <= doe < 365 * yoe + 365 + a - b
    requires 4 * f <= yoe < 4 * f + 4
    requires 100 * h <= yoe < 100 * h + 100
    ensures f - h <= a - b <= f - h + 1
  {
    if b == 0 {
      YearDaysCentury(doe, yoe, a, 0, f, h);
    } else if b == 1 {
      YearDaysCentury(doe, yoe, a, 1, f, h);
    } else if b == 2 {
      YearDaysCentury(doe, yoe, a, 2, f, h);
    } else {
      YearDaysCentury(doe, yoe, a, 3, f, h);
    }
  }

  /** Within one century of the era the century count is `b`. */
  lemma YearDaysCentury(doe: int, yoe: int, a: int, b: int, f: int, h: int)
    requires 0 <= doe < 146096 && 0 <= yoe < 400
    requires 1460 * a <= doe < 1460 * a + 1460
    requires 36524 * b <= doe < 36524 * b + 36524
    requires 0 <= b <= 3
    requires 365 * yoe + a - b <= doe < 365 * yoe + 365 + a - b
    requires 4 * f <= yoe < 4 * f + 4
    requires 100 * h <= yoe < 100 * h + 100
    ensures h == b
    ensures f - h <= a - b <= f - h + 1
  {
    assert 100 * b <= yoe < 100 * b + 100;
    YearDaysQuad(doe, yoe, a, b, f);
  }

  lemma YearDaysQuad(doe: int, yoe: int, a: int, b: int, f: int)
    requires 0 <= doe < 146096 && 0 <= yoe < 400
    requires 1460 * a <= doe < 1460 * a + 1460
    requires 0 <= b <= 3 && 100 * b <= yoe < 100 * b + 100
    requires 36524 * b <= doe
    requires 365 * yoe + a - b <= doe < 365 * yoe + 365 + a - b
    requires 4 * f <= yoe < 4 * f + 4
    ensures f <= a <= f + 1
  {
  }

  /** The leap rule of the Gregorian calendar. */
  predicate IsLeapYear(y: int) {
    y % 4 == 0 && (y % 100 != 0 || y % 400 == 0)
  }

  /** The number of days of month `m` (1..12) of year `y`. */
  function DaysInMonth(y: int, m: int): int {
    if m == 2 then (if IsLeapYear(y) then 29 else 28)
    else if m == 4 || m == 6 || m == 9 || m == 11 then 30
    else 31
  }

  /** A date that exists in the proleptic Gregorian calendar. */
  predicate ValidDate(c: Civil) {
    1 <= c.month <= 12 && 1 <= c.day <= DaysInMonth(c.year, c.month)
  }

  /** The day of era on which March-based year `yoe` of an era begins. */
  function YearStart(yoe: int): int {
    365 * yoe + yoe / 4 - yoe / 100
  }

  /** The leap rule repeats every 400 years. */
  lemma LeapPeriodic(era: int, x: int)
    ensures IsLeapYear(400 * era + x) == IsLeapYear(x)
  {
    LeapShift4(era, x);
    LeapShift100(era, x);
    LeapShift400(era, x);
  }

  lemma LeapShift4(era: int, x: int)
    ensures (400 * era + x) % 4 == x % 4
  {
    assert 400 * era + x == 4 * (100 * era + x / 4) + x % 4;
  }

  lemma LeapShift100(era: int, x: int)
    ensures (400 * era + x) % 100 == x % 100
  {
    assert 400 * era + x == 100 * (4 * era + x / 100) + x % 100;
  }

  lemma LeapShift400(era: int, x: int)
    ensures (400 * era + x) % 400 == x % 400
  {
    assert 400 * era + x == 400 * (era + x / 400) + x % 400;
  }

  /** The 366th day of a March-based year exists only when the following
      February has a 29th. */
  lemma DayOfYearLeap(doe: int, yoe: int)
    requires 0 <= doe < 146097
    requires yoe == YearOfEra(doe)
    ensures 0 <= doe - YearStart(yoe) <= 365
    ensures doe - YearStart(yoe) == 365 ==> IsLeapYear(yoe + 1)
  {
    DayOfYearBound(doe, yoe);
    if doe - YearStart(yoe) == 365 {
      var n := doe - doe / 1460 + doe / 36524 - doe / 146096;
      var a, b, c := doe / 1460, doe / 36524, doe / 146096;
      var f, h := yoe / 4, yoe / 100;
      assert yoe == n / 365;
      assert 365 * yoe <= n < 365 * yoe + 365;
      assert 0 <= c <= 1;
      if c == 0 {
        assert b <= 3;
        assert doe == n + a - b;
        assert 1460 * a <= doe < 1460 * a + 1460;
        assert 36524 * b <= doe < 36524 * b + 36524;
        assert 4 * f <= yoe < 4 * f + 4;
        assert 100 * h <= yoe < 100 * h + 100;
        YearDaysCentury(doe, yoe, a, b, f, h);
        assert doe == 365 * yoe + 365 + f - h;
        assert a == f + 1;
        assert yoe % 4 == 3;
        assert doe < 36524 * h + 36524;
      } else {
        assert doe == 146096;
      }
    }
  }

  /** Consecutive March-based years of an era are 365 days apart, plus one
      when the later February has a 29th. */
  lemma YearStartStep(y: int)
    requires 0 <= y < 399
    ensures YearStart(y + 1) == YearStart(y) + 365 + (if IsLeapYear(y + 1) then 1 else 0)
  {
    assert (y + 1) % 400 != 0;
    var f, h := y / 4, y / 100;
    assert 4 * f <= y < 4 * f + 4;
    assert 100 * h <= y < 100 * h + 100;
    if (y + 1) % 4 == 0 {
      assert (y + 1) / 4 == f + 1;
    } else {
      assert (y + 1) / 4 == f;
    }
    if (y + 1) % 100 == 0 {
      assert (y + 1) / 100 == h + 1;
    } else {
      assert (y + 1) / 100 == h;
    }
  }

  lemma YearStartMono(a: int, b: int)
    requires 0 <= a <= b
    ensures YearStart(a) <= YearStart(b)
  {
    assert a / 4 <= b / 4;
    assert 100 * (a / 100) > a - 100 && 100 * (b / 100) <= b;
    assert b / 100 - a / 100 <= b - a;
  }

  /** A day of an era lies in exactly one March-based year. */
  lemma YearUnique(doe: int, y1: int, y2: int)
    requires 0 <= y1 < 400 && 0 <= y2 < 400
    requires 0 <= doe - YearStart(y1) <= 365 && (doe - YearStart(y1) == 365 ==> IsLeapYear(y1 + 1))
    requires 0 <= doe - YearStart(y2) <= 365 && (doe - YearStart(y2) == 365 ==> IsLeapYear(y2 + 1))
    ensures y1 == y2
  {
    if y1 < y2 {
      YearStartStep(y1);
      YearStartMono(y1 + 1, y2);
    } else if y2 < y1 {
      YearStartStep(y2);
      YearStartMono(y2 + 1, y1);
    }
  }

  /** The month and day read off a day of a March-based year form a real
      date of that month. */
  lemma MonthDayBound(doy: int, y: int)
    requires 0 <= doy <= 365 && (doy == 365 ==> IsLeapYear(y))
    ensures var mp := (5 * doy + 2) / 153;
      var d := doy - (153 * mp + 2) / 5 + 1;
      var m := if mp < 10 then mp + 3 else mp - 9;
      0 <= mp <= 11 && 1 <= d <= DaysInMonth(y, m)
  {
    var mp := (5 * doy + 2) / 153;
    assert 153 * mp <= 5 * doy + 2 < 153 * mp + 153;
  }

  /** The day of its March-based year of a real date, and the month read back
      from it. */
  lemma DayOfYearOfDate(month: int, day: int, y: int)
    requires 1 <= month <= 12 && 1 <= day <= DaysInMonth(y, month)
    ensures var mp := if month > 2 then month - 3 else month + 9;
      var doy := (153 * mp + 2) / 5 + day - 1;
      && 0 <= doy <= 365
      && (doy == 365 ==> month == 2 && IsLeapYear(y))
      && (5 * doy + 2) / 153 == mp
  {
  }

  /** The date of a day count is a real date: its day never passes the end
      of its month, 29 February only in leap years. */
  lemma CivilFromDaysValid(z: int)
    ensures ValidDate(CivilFromDays(z))
  {
    var z' := z + 719468;
    var era := z' / 146097;
    CivilInEraValid(era, z' - era * 146097);
  }

  lemma CivilInEraValid(era: int, doe: int)
    requires 0 <= doe < 146097
    ensures ValidDate(CivilInEra(era, doe))
  {
    var yoe := YearOfEra(doe);
    var doy := doe - YearStart(yoe);
    DayOfYearLeap(doe, yoe);
    LeapPeriodic(era, yoe + 1);
    MonthDayBound(doy, 400 * era + yoe + 1);
  }

  /** Every real date is the date of its own day count. */
  lemma CivilRoundTrip(c: Civil)
    requires ValidDate(c)
    ensures CivilFromDays(DaysFromCivil(c)) == c
  {
    CivilFromEraDay(DaysFromCivil(c), MarchYear(c) / 400, DayOfEra(c));
    CivilInEraOfDate(c);
  }

  lemma CivilFromEraDay(z: int, era: int, doe: int)
    requires 0 <= doe < 146097 && z == era * 146097 + doe - 719468
    ensures CivilFromDays(z) == CivilInEra(era, doe)
  {
    assert (z + 719468) / 146097 == era;
  }

  /** The year in which the March-based year of a date begins. */
  function MarchYear(c: Civil): int {
    if c.month <= 2 then c.year - 1 else c.year
  }

  /** The day of its era of a real date. */
  function DayOfEra(c: Civil): (doe: int)
    requires ValidDate(c)
    ensures 0 <= doe < 146097
    ensures DaysFromCivil(c) == (MarchYear(c) / 400) * 146097 + doe - 719468
  {
    var y := MarchYear(c);
    var yoe := y - (y / 400) * 400;
    var mp := if c.month > 2 then c.month - 3 else c.month + 9;
    var doy := (153 * mp + 2) / 5 + c.day - 1;
    DayOfYearOfDate(c.month, c.day, c.year);
    assert 0 <= yoe < 400 && 0 <= doy <= 365;
    YearStartMono(yoe, 399);
    YearStart(yoe) + doy
  }

  lemma CivilInEraOfDate(c: Civil)
    requires ValidDate(c)
    ensures CivilInEra(MarchYear(c) / 400, DayOfEra(c)) == c
  {
    var era := MarchYear(c) / 400;
    var yoe := MarchYear(c) - era * 400;
    var mp := if c.month > 2 then c.month - 3 else c.month + 9;
    var doy := (153 * mp + 2) / 5 + c.day - 1;
    var doe := DayOfEra(c);
    YearOfDayOfEra(c);
    DayOfYearOfDate(c.month, c.day, c.year);
    CivilInEraParts(era, doe, yoe, doy, mp);
  }

  /** `CivilInEra` once its year of era, day of year and March-based month
      are known. */
  lemma CivilInEraParts(era: int, doe: int, yoe: int, doy: int, mp: int)
    requires 0 <= doe < 146097
    requires YearOfEra(doe) == yoe && doe - YearStart(yoe) == doy
    requires (5 * doy + 2) / 153 == mp
    ensures var m := if mp < 10 then mp + 3 else mp - 9;
      CivilInEra(era, doe)
        == Civil(yoe + era * 400 + (if m <= 2 then 1 else 0), m, doy - (153 * mp + 2) / 5 + 1)
  {
  }

  /** The year of era read back from the day of era of a real date. */
  lemma YearOfDayOfEra(c: Civil)
    requires ValidDate(c)
    ensures var y := MarchYear(c);
      var yoe := y - (y / 400) * 400;
      YearOfEra(DayOfEra(c)) == yoe
      && DayOfEra(c) - YearStart(yoe) == (153 * (if c.month > 2 then c.month - 3 else c.month + 9) + 2) / 5 + c.day - 1
  {
    var y := MarchYear(c);
    var era := y / 400;
    var yoe := y - era * 400;
    var mp := if c.month > 2 then c.month - 3 else c.month + 9;
    var doy := (153 * mp + 2) / 5 + c.day - 1;
    var doe := DayOfEra(c);
    assert doe == YearStart(yoe) + doy;
    DayOfYearOfDate(c.month, c.day, c.year);
    LeapPeriodic(era, yoe + 1);
    assert doy == 365 ==> IsLeapYear(yoe + 1);
    var yoe' := YearOfEra(doe);
    DayOfYearLeap(doe, yoe');
    YearUnique(doe, yoe, yoe');
  }

  /** Day 18667 after the epoch is 9 February 2021. */
  lemma FixtureDate()
    ensures CivilFromDays(18667) == Civil(2021, 2, 9)
  {
    assert (18667 + 719468) / 146097 == 5;
    assert YearOfEra(7650) == 20 by {
      assert 7650 / 1460 == 5 && 7650 / 36524 == 0 && 7650 / 146096 == 0;
      assert 7645 / 365 == 20;
    }
    assert 7650 - (365 * 20 + 20 / 4 - 20 / 100) == 345;
    assert (5 * 345 + 2) / 153 == 11;
    assert 345 - (153 * 11 + 2) / 5 + 1 == 9;
  }
}

/** Unix times as dates of the proleptic Gregorian calendar. */
module Calendar {
  predicate IsLeap(y: int) {
    y % 4 == 0 && (y % 100 != 0 || y % 400 == 0)
  }

  function YearLength(y: int): int {
    if IsLeap(y) then 366 else 365
  }

  /** Days from the start of year 0 to the start of year `y`. */
  function DaysBeforeYear(y: nat): nat {
    if y == 0 then 0 else DaysBeforeYear(y - 1) + YearLength(y - 1)
  }

  const MONTH_STARTS: seq<nat> := [0, 31, 59, 90, 120, 151, 181, 212, 243, 273, 304, 334, 365]

  /** Days of the year before month `m`; month 13 stands for the end of the year. */
  function DaysBeforeMonth(m: nat, leap: bool): nat
    requires 1 <= m <= 13
  {
    MONTH_STARTS[m - 1] + if leap && m > 2 then 1 else 0
  }

  /** The year that contains day `n`, searching upwards from `y`. */
  function YearFrom(n: nat, y: nat): (r: nat)
    requires DaysBeforeYear(y) <= n
    ensures y <= r && DaysBeforeYear(r) <= n < DaysBeforeYear(r + 1)
    decreases n - DaysBeforeYear(y)
  {
    if DaysBeforeYear(y + 1) <= n then YearFrom(n, y + 1) else y
  }

  function MonthFrom(day: nat, leap: bool, m: nat): (r: nat)
    requires 1 <= m <= 12 && DaysBeforeMonth(m, leap) <= day < DaysBeforeMonth(13, leap)
    ensures m <= r <= 12 && DaysBeforeMonth(r, leap) <= day < DaysBeforeMonth(r + 1, leap)
    decreases 13 - m
  {
    if m < 12 && DaysBeforeMonth(m + 1, leap) <= day then MonthFrom(day, leap, m + 1) else m
  }

  const EPOCH_DAY: int := 719528
  const DAY_SECONDS: int := 86400
  const CYCLE_DAYS: int := 146097
  /** The first second of year 0 and the last of year 9999. */
  const FIRST_SECOND: int := -62167219200
  const LAST_SECOND: int := 253402300799

  /** A calendar date and the second of the day. */
  datatype Civil = Civil(year: int, month: nat, day: nat, clock: nat)

  ghost predicate ValidCivil(c: Civil) {
    1 <= c.month <= 12 && 1 <= c.day <= 31 && c.clock < DAY_SECONDS
  }

  /** The calendar date and time of day of second `s` of day `day` of year `y`. */
  function CivilIn(y: nat, day: nat, s: nat): (c: Civil)
    requires day < YearLength(y) && s < DAY_SECONDS
    ensures ValidCivil(c)
  {
    var m := MonthFrom(day, IsLeap(y), 1);
    Civil(y, m, day - DaysBeforeMonth(m, IsLeap(y)) + 1, s)
  }

  /** The calendar date and time of day of second `s` of day `n`, counted from year 0. */
  function CivilAt(n: nat, s: nat): (c: Civil)
    requires s < DAY_SECONDS
    ensures ValidCivil(c)
  {
    var y := YearFrom(n, 0);
    CivilIn(y, n - DaysBeforeYear(y), s)
  }

  /** The calendar date and time of day of a Unix time; the calendar repeats every 400 years. */
  function CivilOf(seconds: int): (c: Civil)
    ensures ValidCivil(c)
    decreases FIRST_SECOND - seconds
  {
    if FIRST_SECOND <= seconds then CivilAt(seconds / DAY_SECONDS + EPOCH_DAY, seconds % DAY_SECONDS)
    else
      var later := CivilOf(seconds + CYCLE_DAYS * DAY_SECONDS);
      later.(year := later.year - 400)
  }

  // ----- the calendar is monotone -----

  lemma {:induction false} YearsGrow(y: nat, z: nat)
    requires y < z
    ensures DaysBeforeYear(y + 1) <= DaysBeforeYear(z)
    decreases z - y
  {
    if y + 1 < z {
      YearsGrow(y, z - 1);
    }
  }

  /** Earlier in the calendar, field by field. */
  ghost predicate Earlier(a: Civil, b: Civil) {
    || a.year < b.year
    || (a.year == b.year && (a.month < b.month
    || (a.month == b.month && (a.day < b.day
    || (a.day == b.day && a.clock < b.clock)))))
  }

  lemma DaysInOrder(n: nat, k: nat)
    requires n < k
    ensures YearFrom(n, 0) <= YearFrom(k, 0)
  {
    var y, z := YearFrom(n, 0), YearFrom(k, 0);
    if z < y {
      YearsGrow(z, y);
    }
  }

  lemma MonthsInOrder(day: nat, later: nat, leap: bool)
    requires day < later < DaysBeforeMonth(13, leap)
    ensures MonthFrom(day, leap, 1) <= MonthFrom(later, leap, 1)
  {
  }

  lemma TimeOfDayInOrder(s: nat, t: nat)
    requires s < t < 86400
    ensures s / 3600 < t / 3600 || (s / 3600 == t / 3600 && (s % 3600 / 60 < t % 3600 / 60
            || (s % 3600 / 60 == t % 3600 / 60 && s % 60 < t % 60)))
  {
  }

  lemma DatesOfOneYearInOrder(y: nat, day: nat, later: nat, s: nat, t: nat)
    requires day < YearLength(y) && later < YearLength(y) && s < DAY_SECONDS && t < DAY_SECONDS
    requires day < later || (day == later && s < t)
    ensures Earlier(CivilIn(y, day, s), CivilIn(y, later, t))
  {
    if day < later {
      MonthsInOrder(day, later, IsLeap(y));
    }
  }

  lemma CivilInInOrder(y: nat, z: nat, day: nat, later: nat, s: nat, t: nat, a: Civil, b: Civil)
    requires day < YearLength(y) && later < YearLength(z) && s < DAY_SECONDS && t < DAY_SECONDS
    requires y < z || (y == z && (day < later || (day == later && s < t)))
    requires a == CivilIn(y, day, s) && b == CivilIn(z, later, t)
    ensures Earlier(a, b)
  {
    if y == z {
      DatesOfOneYearInOrder(y, day, later, s, t);
    }
  }

  /** The calendar of days and seconds of the day is strictly monotone. */
  lemma CivilAtInOrder(n: nat, k: nat, s: nat, t: nat)
    requires s < DAY_SECONDS && t < DAY_SECONDS
    requires n < k || (n == k && s < t)
    ensures Earlier(CivilAt(n, s), CivilAt(k, t))
  {
    var y, z := YearFrom(n, 0), YearFrom(k, 0);
    if n < k {
      DaysInOrder(n, k);
    }
    var day, later := n - DaysBeforeYear(y), k - DaysBeforeYear(z);
    CivilInInOrder(y, z, day, later, s, t, CivilAt(n, s), CivilAt(k, t));
  }

  // ----- the range of four-digit years -----

  lemma {:induction false} DaysInClosedForm(y: nat)
    ensures DaysBeforeYear(y) == 365 * y + (y + 3) / 4 - (y + 99) / 100 + (y + 399) / 400
  {
    if y > 0 {
      DaysInClosedForm(y - 1);
      LeapStep(y);
    }
  }

  lemma LeapStep(y: nat)
    requires y > 0
    ensures (y + 3) / 4 - (y + 99) / 100 + (y + 399) / 400 ==
            (y + 2) / 4 - (y + 98) / 100 + (y + 398) / 400 + if IsLeap(y - 1) then 1 else 0
  {
    Step(y, 4);
    Step(y, 100);
    Step(y, 400);
    CenturiesAreFourths(y - 1);
  }

  lemma CenturiesAreFourths(y: nat)
    ensures y % 100 == 0 ==> y % 4 == 0
    ensures y % 400 == 0 ==> y % 100 == 0
  {
    if y % 100 == 0 {
      assert y == 4 * (25 * (y / 100));
    }
    if y % 400 == 0 {
      assert y == 100 * (4 * (y / 400));
    }
  }

  lemma Step(y: nat, k: nat)
    requires y > 0 && (k == 4 || k == 100 || k == 400)
    ensures (y + k - 1) / k == (y + k - 2) / k + if (y - 1) % k == 0 then 1 else 0
  {
  }

  lemma EpochIs1970()
    ensures DaysBeforeYear(1970) == EPOCH_DAY && DaysBeforeYear(10000) == 3652425
  {
    DaysInClosedForm(1970);
    DaysInClosedForm(10000);
  }

  // ----- the calendar repeats -----

  lemma YearIs(n: nat, y: nat)
    requires DaysBeforeYear(y) <= n < DaysBeforeYear(y + 1)
    ensures YearFrom(n, 0) == y
  {
    var r := YearFrom(n, 0);
    if r < y {
      YearsGrow(r, y);
    } else if y < r {
      YearsGrow(y, r);
    }
  }

  lemma QuotientsRepeat(x: nat)
    ensures (x + 400) / 4 == x / 4 + 100 && (x + 400) / 100 == x / 100 + 4 && (x + 400) / 400 == x / 400 + 1
    ensures (x + 400) % 4 == x % 4 && (x + 400) % 100 == x % 100 && (x + 400) % 400 == x % 400
  {
  }

  lemma YearsRepeat(y: nat)
    ensures DaysBeforeYear(y + 400) == DaysBeforeYear(y) + CYCLE_DAYS && IsLeap(y + 400) == IsLeap(y)
  {
    DaysInClosedForm(y);
    DaysInClosedForm(y + 400);
    QuotientsRepeat(y);
    QuotientsRepeat(y + 3);
    QuotientsRepeat(y + 99);
    QuotientsRepeat(y + 399);
  }

  lemma CivilAtRepeats(n: nat, s: nat)
    requires s < DAY_SECONDS
    ensures CivilAt(n + CYCLE_DAYS, s) == CivilAt(n, s).(year := CivilAt(n, s).year + 400)
  {
    var y := YearFrom(n, 0);
    YearsRepeat(y);
    YearsRepeat(y + 1);
    YearIs(n + CYCLE_DAYS, y + 400);
  }

  /** The days of 400 years are whole days. */
  lemma DaysOfCycle(s: int)
    ensures (s + CYCLE_DAYS * DAY_SECONDS) / DAY_SECONDS == s / DAY_SECONDS + CYCLE_DAYS
    ensures (s + CYCLE_DAYS * DAY_SECONDS) % DAY_SECONDS == s % DAY_SECONDS
  {
  }

  /** 400 years later the date is the same. */
  lemma CivilRepeats(s: int)
    ensures CivilOf(s + CYCLE_DAYS * DAY_SECONDS) == CivilOf(s).(year := CivilOf(s).year + 400)
  {
    if FIRST_SECOND <= s {
      DaysOfCycle(s);
      CivilAtRepeats(s / DAY_SECONDS + EPOCH_DAY, s % DAY_SECONDS);
    }
  }

  lemma CivilInOrderFromYearZero(s: int, t: int)
    requires FIRST_SECOND <= s < t
    ensures Earlier(CivilOf(s), CivilOf(t))
  {
    CivilAtInOrder(s / DAY_SECONDS + EPOCH_DAY, t / DAY_SECONDS + EPOCH_DAY, s % DAY_SECONDS, t % DAY_SECONDS);
  }

  lemma EarlierRepeats(a: Civil, b: Civil)
    requires Earlier(a.(year := a.year + 400), b.(year := b.year + 400))
    ensures Earlier(a, b)
  {
  }

  /** The calendar rendering is strictly monotone in time, before year 0 as well. */
  lemma {:induction false} CivilInOrder(s: int, t: int)
    requires s < t
    ensures Earlier(CivilOf(s), CivilOf(t))
    decreases FIRST_SECOND - s
  {
    if FIRST_SECOND <= s {
      CivilInOrderFromYearZero(s, t);
    } else {
      CivilInOrder(s + CYCLE_DAYS * DAY_SECONDS, t + CYCLE_DAYS * DAY_SECONDS);
      CivilRepeats(s);
      CivilRepeats(t);
      EarlierRepeats(CivilOf(s), CivilOf(t));
    }
  }

  lemma FourDigitYears(s: int)
    requires FIRST_SECOND <= s
    ensures CivilOf(s).year <= 9999 <==> s <= LAST_SECOND
  {
    EpochIs1970();
    var n := s / DAY_SECONDS + EPOCH_DAY;
    var y := YearFrom(n, 0);
    if y >= 10000 {
      if y > 10000 { YearsGrow(10000, y); }
    } else {
      if y < 9999 { YearsGrow(y, 10000); }
    }
  }

  lemma LastYear()
    ensures CivilOf(LAST_SECOND).year == 9999 && CivilOf(LAST_SECOND + 1).year == 10000
  {
    EpochIs1970();
    assert DaysBeforeYear(9999) == 3652060 && DaysBeforeYear(10001) == 3652791 by {
      DaysInClosedForm(9999);
      DaysInClosedForm(10001);
    }
    assert LAST_SECOND / DAY_SECONDS + EPOCH_DAY == 3652424;
    assert (LAST_SECOND + 1) / DAY_SECONDS + EPOCH_DAY == 3652425;
    YearIs(3652424, 9999);
    YearIs(3652425, 10000);
  }
}

/**
 The rendered dates are the right ones: time 0 is 1 January 1970, each day is followed by the next one
 of its month, month or year, and the digits of a timestamp read back as its date and time of day.
 */
module CalendarDates {
  import opened Calendar
  import opened CalendarKeys

  /** How many days a month has. */
  function MonthLength(month: nat, year: int): nat {
    match month
    case 2 => if IsLeap(year) then 29 else 28
    case 4 => 30
    case 6 => 30
    case 9 => 30
    case 11 => 30
    case _ => 31
  }

  function NextDay(c: Civil): Civil {
    if c.day < MonthLength(c.month, c.year) then c.(day := c.day + 1)
    else if c.month < 12 then c.(month := c.month + 1, day := 1)
    else c.(year := c.year + 1, month := 1, day := 1)
  }

  lemma MonthStep(m: nat, y: int)
    requires 1 <= m <= 12
    ensures DaysBeforeMonth(m + 1, IsLeap(y)) == DaysBeforeMonth(m, IsLeap(y)) + MonthLength(m, y)
    ensures DaysBeforeMonth(1, IsLeap(y)) == 0 && DaysBeforeMonth(13, IsLeap(y)) == YearLength(y)
  {
  }

  lemma {:induction false} MonthsGrow(m: nat, k: nat, leap: bool)
    requires 1 <= m <= k <= 13
    ensures DaysBeforeMonth(m, leap) <= DaysBeforeMonth(k, leap)
    decreases k
  {
    if m < k {
      MonthsGrow(m, k - 1, leap);
    }
  }

  lemma MonthIs(day: nat, leap: bool, m: nat)
    requires 1 <= m <= 12 && DaysBeforeMonth(m, leap) <= day < DaysBeforeMonth(m + 1, leap)
    ensures day < DaysBeforeMonth(13, leap) && MonthFrom(day, leap, 1) == m
  {
    MonthsGrow(m + 1, 13, leap);
    var r := MonthFrom(day, leap, 1);
    if r < m {
      MonthsGrow(r + 1, m, leap);
    } else if m < r {
      MonthsGrow(m + 1, r, leap);
    }
  }

  /** The date of a day whose month is known. */
  lemma CivilInMonth(y: nat, day: nat, s: nat, m: nat)
    requires 1 <= m <= 12 && s < DAY_SECONDS
    requires DaysBeforeMonth(m, IsLeap(y)) <= day < DaysBeforeMonth(m + 1, IsLeap(y))
    ensures day < YearLength(y) && CivilIn(y, day, s) == Civil(y, m, day - DaysBeforeMonth(m, IsLeap(y)) + 1, s)
  {
    MonthIs(day, IsLeap(y), m);
  }

  lemma SameMonth(y: nat, day: nat, s: nat, m: nat)
    requires 1 <= m <= 12 && s < DAY_SECONDS
    requires DaysBeforeMonth(m, IsLeap(y)) <= day && day + 1 < DaysBeforeMonth(m + 1, IsLeap(y))
    ensures day + 1 < YearLength(y) && CivilIn(y, day + 1, s) == NextDay(CivilIn(y, day, s))
  {
    MonthStep(m, y);
    CivilInMonth(y, day, s, m);
    CivilInMonth(y, day + 1, s, m);
  }

  lemma NextMonth(y: nat, s: nat, m: nat)
    requires 1 <= m < 12 && s < DAY_SECONDS
    ensures var day := DaysBeforeMonth(m + 1, IsLeap(y));
            1 <= day < YearLength(y) && CivilIn(y, day, s) == NextDay(CivilIn(y, day - 1, s))
  {
    MonthStep(m, y);
    MonthStep(m + 1, y);
    CivilInMonth(y, DaysBeforeMonth(m + 1, IsLeap(y)) - 1, s, m);
    CivilInMonth(y, DaysBeforeMonth(m + 1, IsLeap(y)), s, m + 1);
  }

  lemma EndOfMonth(day: nat, m: nat, leap: bool)
    requires 1 <= m <= 12 && day < DaysBeforeMonth(m + 1, leap) <= day + 1 < DaysBeforeMonth(13, leap)
    ensures m < 12 && day + 1 == DaysBeforeMonth(m + 1, leap)
  {
  }

  lemma NextInYearFrom(y: nat, day: nat, s: nat, m: nat)
    requires day + 1 < YearLength(y) && s < DAY_SECONDS && 1 <= m <= 12
    requires DaysBeforeMonth(m, IsLeap(y)) <= day < DaysBeforeMonth(m + 1, IsLeap(y))
    ensures CivilIn(y, day + 1, s) == NextDay(CivilIn(y, day, s))
  {
    if day + 1 < DaysBeforeMonth(m + 1, IsLeap(y)) {
      SameMonth(y, day, s, m);
    } else {
      EndOfMonth(day, m, IsLeap(y));
      NextMonth(y, s, m);
    }
  }

  /** The day after, within a year. */
  lemma NextInYear(y: nat, day: nat, s: nat)
    requires day + 1 < YearLength(y) && s < DAY_SECONDS
    ensures CivilIn(y, day + 1, s) == NextDay(CivilIn(y, day, s))
  {
    NextInYearFrom(y, day, s, MonthFrom(day, IsLeap(y), 1));
  }

  /** New Year. */
  lemma NextYear(y: nat, s: nat)
    requires s < DAY_SECONDS
    ensures CivilIn(y + 1, 0, s) == NextDay(CivilIn(y, YearLength(y) - 1, s))
  {
    MonthStep(12, y);
    MonthStep(1, y + 1);
    CivilInMonth(y, YearLength(y) - 1, s, 12);
    CivilInMonth(y + 1, 0, s, 1);
  }

  lemma CivilAtIs(n: nat, s: nat, y: nat)
    requires DaysBeforeYear(y) <= n < DaysBeforeYear(y + 1) && s < DAY_SECONDS
    ensures n - DaysBeforeYear(y) < YearLength(y) && CivilAt(n, s) == CivilIn(y, n - DaysBeforeYear(y), s)
  {
    YearIs(n, y);
  }

  lemma NextInSameYear(n: nat, s: nat, y: nat)
    requires s < DAY_SECONDS && DaysBeforeYear(y) <= n && n + 1 < DaysBeforeYear(y + 1)
    ensures CivilAt(n + 1, s) == NextDay(CivilAt(n, s))
  {
    var day := n - DaysBeforeYear(y);
    CivilAtIs(n, s, y);
    CivilAtIs(n + 1, s, y);
    assert n + 1 - DaysBeforeYear(y) == day + 1;
    NextInYear(y, day, s);
  }

  lemma NextCivilFrom(n: nat, s: nat, y: nat)
    requires s < DAY_SECONDS && DaysBeforeYear(y) <= n < DaysBeforeYear(y + 1)
    ensures CivilAt(n + 1, s) == NextDay(CivilAt(n, s))
  {
    if n + 1 < DaysBeforeYear(y + 1) {
      NextInSameYear(n, s, y);
    } else {
      NextNewYear(n, s, y);
    }
  }

  lemma NextNewYear(n: nat, s: nat, y: nat)
    requires s < DAY_SECONDS && DaysBeforeYear(y) <= n && n + 1 == DaysBeforeYear(y + 1)
    ensures CivilAt(n + 1, s) == NextDay(CivilAt(n, s))
  {
    YearGrowsBy(y + 1);
    CivilAtIs(n, s, y);
    CivilAtIs(n + 1, s, y + 1);
    NextYear(y, s);
  }

  lemma NextCivilAt(n: nat, s: nat)
    requires s < DAY_SECONDS
    ensures CivilAt(n + 1, s) == NextDay(CivilAt(n, s))
  {
    NextCivilFrom(n, s, YearFrom(n, 0));
  }

  lemma YearGrowsBy(y: nat)
    ensures DaysBeforeYear(y) < DaysBeforeYear(y + 1)
  {
  }

  lemma NextDayRepeats(c: Civil)
    ensures NextDay(c.(year := c.year + 400)) == NextDay(c).(year := NextDay(c).year + 400)
  {
    LeapRepeats(c.year);
  }

  lemma LeapRepeats(y: int)
    ensures IsLeap(y + 400) == IsLeap(y)
  {
  }

  lemma CivilFromYearZero(s: int, n: nat, clock: nat)
    requires clock < DAY_SECONDS && s == (n - EPOCH_DAY) * DAY_SECONDS + clock
    ensures CivilOf(s) == CivilAt(n, clock)
  {
    assert s / DAY_SECONDS == n - EPOCH_DAY && s % DAY_SECONDS == clock;
  }

  lemma DayNumber(s: int) returns (n: nat, clock: nat)
    requires FIRST_SECOND <= s
    ensures clock < DAY_SECONDS && s == (n - EPOCH_DAY) * DAY_SECONDS + clock
  {
    n, clock := s / DAY_SECONDS + EPOCH_DAY, s % DAY_SECONDS;
  }

  ghost predicate TurnsOver(s: int) {
    CivilOf(s + DAY_SECONDS) == NextDay(CivilOf(s))
  }

  lemma DayFollowsDayFromYearZero(s: int)
    requires FIRST_SECOND <= s
    ensures TurnsOver(s)
  {
    var n, clock := DayNumber(s);
    CivilFromYearZero(s, n, clock);
    CivilFromYearZero(s + DAY_SECONDS, n + 1, clock);
    NextCivilAt(n, clock);
  }

  lemma DaysRepeat(s: int)
    requires TurnsOver(s + CYCLE_DAYS * DAY_SECONDS)
    ensures TurnsOver(s)
  {
    CivilRepeats(s);
    CivilRepeats(s + DAY_SECONDS);
    NextDayRepeats(CivilOf(s));
    assert s + CYCLE_DAYS * DAY_SECONDS + DAY_SECONDS == s + DAY_SECONDS + CYCLE_DAYS * DAY_SECONDS;
  }

  lemma {:induction false} EveryDayTurnsOver(s: int)
    ensures TurnsOver(s)
    decreases FIRST_SECOND - s
  {
    if FIRST_SECOND <= s {
      DayFollowsDayFromYearZero(s);
    } else {
      EveryDayTurnsOver(s + CYCLE_DAYS * DAY_SECONDS);
      DaysRepeat(s);
    }
  }

  /** A day later is the next day, at the same time of day, for every time. */
  lemma DayFollowsDay(s: int)
    ensures CivilOf(s + DAY_SECONDS) == NextDay(CivilOf(s))
  {
    EveryDayTurnsOver(s);
  }

  lemma EpochDate()
    ensures CivilOf(0) == Civil(1970, 1, 1, 0)
  {
    EpochIs1970();
    assert DaysBeforeYear(1971) == DaysBeforeYear(1970) + YearLength(1970);
    YearIs(EPOCH_DAY, 1970);
    MonthStep(1, 1970);
    MonthIs(0, IsLeap(1970), 1);
  }

  ghost predicate Exists(c: Civil, clock: int) {
    1 <= c.month <= 12 && 1 <= c.day <= MonthLength(c.month, c.year) && c.clock == clock
  }

  lemma CivilInExists(y: nat, day: nat, s: nat)
    requires day < YearLength(y) && s < DAY_SECONDS
    ensures Exists(CivilIn(y, day, s), s)
  {
    MonthStep(MonthFrom(day, IsLeap(y), 1), y);
  }

  lemma CivilAtExists(n: nat, s: nat)
    requires s < DAY_SECONDS
    ensures Exists(CivilAt(n, s), s)
  {
    var y := YearFrom(n, 0);
    CivilInExists(y, n - DaysBeforeYear(y), s);
  }

  lemma ExistsRepeats(c: Civil, clock: int)
    requires Exists(c.(year := c.year + 400), clock)
    ensures Exists(c, clock)
  {
    LeapRepeats(c.year);
  }

  /** Every date exists, and the time of day is what the whole days leave. */
  lemma {:induction false} DateExists(s: int)
    ensures Exists(CivilOf(s), s % 86400)
    decreases FIRST_SECOND - s
  {
    if FIRST_SECOND <= s {
      CivilAtExists(s / DAY_SECONDS + EPOCH_DAY, s % DAY_SECONDS);
    } else {
      DateExists(s + CYCLE_DAYS * DAY_SECONDS);
      DaysOfCycle(s);
      CivilRepeats(s);
      ExistsRepeats(CivilOf(s), s % 86400);
    }
  }

  // ----- reading a timestamp back -----

  function NumberOf(s: string): int {
    if s == "" then 0 else 10 * NumberOf(s[..|s| - 1]) + (s[|s| - 1] as int - '0' as int)
  }

  lemma {:induction false} PadReads(v: nat, w: nat)
    requires v < Power10(w)
    ensures NumberOf(Pad(v, w)) == v
  {
    if w > 0 {
      PadReads(v / 10, w - 1);
    }
  }

  /** The year as written, with its sign. */
  function YearOf(s: string): int {
    if s != "" && s[0] == '-' then -NumberOf(s[1..]) else NumberOf(s)
  }

  lemma YearReads(y: int)
    ensures YearOf(YearString(y)) == y
  {
    var v: nat := if y < 0 then -y else y;
    WidthIs(v);
    PadReads(v, Width(v));
    PadStartsWithDigit(v, Width(v));
    assert y < 0 ==> YearString(y)[1..] == YearDigits(v);
    assert y >= 0 ==> YearString(y) == YearDigits(v);
  }

  /** What a timestamp says: the year up to the last sixteen characters, then two digits for each field. */
  function DateOf(iso: string): (int, int, int)
    requires |iso| >= 16
  {
    var t := |iso| - 16;
    (YearOf(iso[..t]), NumberOf(iso[t + 1..t + 3]), NumberOf(iso[t + 4..t + 6]))
  }

  function SecondOf(iso: string): int
    requires |iso| >= 16
  {
    var t := |iso| - 16;
    3600 * NumberOf(iso[t + 7..t + 9]) + 60 * NumberOf(iso[t + 10..t + 12]) + NumberOf(iso[t + 13..t + 15])
  }

  lemma ThreeFields(a: string, b: string, c: string)
    requires |a| == |b| == |c| == 2
    ensures var s := a + (":" + (b + (":" + c))); |s| == 8 && s[..2] == a && s[3..5] == b && s[6..8] == c
  {
  }

  lemma ClockReads(s: nat)
    requires s < DAY_SECONDS
    ensures var c := Clock(s);
            |c| == 8 && 3600 * NumberOf(c[..2]) + 60 * NumberOf(c[3..5]) + NumberOf(c[6..8]) == s
  {
    assert Power10(2) == 100;
    var h, m, rest := s / 3600, s % 3600 / 60, s % 60;
    PadReads(h, 2);
    PadReads(m, 2);
    PadReads(rest, 2);
    ThreeFields(Pad(h, 2), Pad(m, 2), Pad(rest, 2));
    assert 3600 * h + 60 * m + rest == s;
  }

  lemma TailReads(c: Civil)
    requires ValidCivil(c)
    ensures var t := Tail(c);
            && |t| == 16 && NumberOf(t[1..3]) == c.month && NumberOf(t[4..6]) == c.day
            && t[7..15] == Clock(c.clock)
            && t[0] == t[3] == '-' && t[6] == 'T' && t[15] == 'Z'
  {
    assert Power10(2) == 100;
    PadReads(c.month, 2);
    PadReads(c.day, 2);
    var t := Tail(c);
    ClockReads(c.clock);
    assert t[1..3] == Pad(c.month, 2) && t[4..6] == Pad(c.day, 2) && t[7..15] == Clock(c.clock);
  }

  /** Reading the digits of a timestamp gives the date and the time of day it was made from. */
  lemma IsoReads(s: int)
    ensures var c, iso := CivilOf(s), Iso(s);
            |iso| >= 16 && DateOf(iso) == (c.year, c.month, c.day) && SecondOf(iso) == s % 86400
  {
    var c, iso := CivilOf(s), Iso(s);
    IsoIs(s);
    DateExists(s);
    TailReads(c);
    YearReads(c.year);
    ClockReads(c.clock);
    var y, tail := YearString(c.year), Tail(c);
    var t := |iso| - 16;
    assert iso[..t] == y && iso[t..] == tail;
    assert iso[t + 1..t + 3] == tail[1..3] && iso[t + 4..t + 6] == tail[4..6];
    var clock := tail[7..15];
    assert iso[t + 7..t + 9] == clock[..2] && iso[t + 10..t + 12] == clock[3..5] && iso[t + 13..t + 15] == clock[6..8];
  }
}

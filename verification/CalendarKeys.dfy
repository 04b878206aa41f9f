/**
 Timestamps as RFC 3339 strings (section 5.6), and when sorting the strings sorts the times (section
 5.1): the year is written with at least four digits, and a year with more of them breaks the order.
 */
module CalendarKeys {
  import Lex
  import opened Calendar

  // ----- rendering -----

  function Digit(d: nat): char
    requires d < 10
  {
    '0' + d as char
  }

  /** `v` in decimal, padded with zeros to `width`. */
  function Pad(v: nat, width: nat): (s: string)
    ensures |s| == width
  {
    if width == 0 then "" else Pad(v / 10, width - 1) + [Digit(v % 10)]
  }

  function Decimal(v: nat): string {
    if v < 10 then [Digit(v)] else Decimal(v / 10) + [Digit(v % 10)]
  }

  function YearString(y: int): string {
    (if y < 0 then "-" else "") + if -9999 <= y <= 9999 then Pad(if y < 0 then -y else y, 4)
        else Decimal(if y < 0 then -y else y)
  }

  function Clock(s: nat): string {
    Pad(s / 3600, 2) + (":" + (Pad(s % 3600 / 60, 2) + (":" + Pad(s % 60, 2))))
  }

  function Iso(seconds: int): string {
    var c := CivilOf(seconds);
    YearString(c.year) + "-" + Pad(c.month, 2) + "-" + Pad(c.day, 2) + "T" + Clock(c.clock) + "Z"
  }

  /** The sort key of a stored time: null sorts as the empty string. */
  function TimeKey(seconds: int): string {
    if seconds == 0 then "" else Iso(seconds)
  }

  // ----- padded numbers -----

  function Power10(w: nat): nat {
    if w == 0 then 1 else 10 * Power10(w - 1)
  }

  lemma {:induction false} PadInOrder(a: nat, b: nat, w: nat)
    requires a < b < Power10(w)
    ensures Lex.Less(Pad(a, w), Pad(b, w)) && Pad(a, w) != Pad(b, w)
  {
    var p, q := Pad(a / 10, w - 1), Pad(b / 10, w - 1);
    if a / 10 < b / 10 {
      PadInOrder(a / 10, b / 10, w - 1);
      Lex.EqualWidthPrefix(p, q, [Digit(a % 10)], [Digit(b % 10)]);
    } else {
      Lex.SamePrefix(p, [Digit(a % 10)], [Digit(b % 10)]);
    }
    Lex.Asymmetric(Pad(a, w), Pad(b, w));
  }

  /** Padded fields first, then whatever follows: the first field that differs decides. */
  lemma FieldDecides(a: nat, b: nat, w: nat, x: string, y: string)
    requires a < Power10(w) && b < Power10(w)
    requires a < b || (a == b && Lex.Less(x, y))
    ensures Lex.Less(Pad(a, w) + x, Pad(b, w) + y)
  {
    if a < b {
      PadInOrder(a, b, w);
      Lex.EqualWidthPrefix(Pad(a, w), Pad(b, w), x, y);
    } else {
      Lex.SamePrefix(Pad(a, w), x, y);
    }
  }

  lemma SeparatorDecides(sep: string, x: string, y: string)
    requires Lex.Less(x, y)
    ensures Lex.Less(sep + x, sep + y)
  {
    Lex.SamePrefix(sep, x, y);
  }

  lemma ClocksInOrder(s: nat, t: nat)
    requires s < t < DAY_SECONDS
    ensures Lex.Less(Clock(s) + "Z", Clock(t) + "Z")
  {
    TimeOfDayInOrder(s, t);
    assert Power10(2) == 100;
    var x, y := Pad(s % 60, 2), Pad(t % 60, 2);
    var mx, my := Pad(s % 3600 / 60, 2) + (":" + x), Pad(t % 3600 / 60, 2) + (":" + y);
    if s / 3600 == t / 3600 {
      if s % 3600 / 60 == t % 3600 / 60 {
        PadInOrder(s % 60, t % 60, 2);
        SeparatorDecides(":", x, y);
      }
      FieldDecides(s % 3600 / 60, t % 3600 / 60, 2, ":" + x, ":" + y);
      SeparatorDecides(":", mx, my);
    }
    FieldDecides(s / 3600, t / 3600, 2, ":" + mx, ":" + my);
    assert |Clock(s)| == 8 == |Clock(t)|;
    Lex.Asymmetric(Clock(s), Clock(t));
    Lex.EqualWidthPrefix(Clock(s), Clock(t), "Z", "Z");
  }

  // ----- one year -----

  /** What follows the year. */
  function Tail(c: Civil): string {
    "-" + (Pad(c.month, 2) + ("-" + (Pad(c.day, 2) + ("T" + (Clock(c.clock) + "Z")))))
  }

  lemma IsoIs(s: int)
    ensures Iso(s) == YearString(CivilOf(s).year) + Tail(CivilOf(s))
  {
  }

  lemma TailsInOrder(a: Civil, b: Civil)
    requires ValidCivil(a) && ValidCivil(b) && a.year == b.year && Earlier(a, b)
    ensures Lex.Less(Tail(a), Tail(b))
  {
    assert Power10(2) == 100;
    var x, y := "T" + (Clock(a.clock) + "Z"), "T" + (Clock(b.clock) + "Z");
    var dx, dy := Pad(a.day, 2) + x, Pad(b.day, 2) + y;
    if a.month == b.month {
      if a.day == b.day {
        ClocksInOrder(a.clock, b.clock);
        SeparatorDecides("T", Clock(a.clock) + "Z", Clock(b.clock) + "Z");
      }
      FieldDecides(a.day, b.day, 2, x, y);
      SeparatorDecides("-", dx, dy);
    }
    FieldDecides(a.month, b.month, 2, "-" + dx, "-" + dy);
    SeparatorDecides("-", Pad(a.month, 2) + ("-" + dx), Pad(b.month, 2) + ("-" + dy));
  }

  // ----- years of different lengths -----

  /** The digits of a year: at least four. */
  function YearDigits(v: nat): string {
    if v <= 9999 then Pad(v, 4) else Decimal(v)
  }

  function Width(v: nat): nat {
    |YearDigits(v)|
  }

  lemma {:induction false} DecimalIsPad(v: nat)
    ensures Decimal(v) == Pad(v, |Decimal(v)|) && |Decimal(v)| >= 1 && v < Power10(|Decimal(v)|)
    ensures v >= 10 ==> Power10(|Decimal(v)| - 1) <= v
  {
    if v >= 10 {
      DecimalIsPad(v / 10);
      assert Power10(1) == 10;
    } else {
      assert Pad(v, 1) == Pad(v / 10, 0) + [Digit(v % 10)] && Power10(1) == 10;
    }
  }

  lemma FourDigits()
    ensures Power10(1) == 10 && Power10(2) == 100 && Power10(3) == 1000 && Power10(4) == 10000
  {
  }

  lemma {:induction false} PowersGrow(i: nat, k: nat)
    requires i <= k
    ensures 1 <= Power10(i) <= Power10(k)
    decreases k
  {
    if i < k {
      PowersGrow(i, k - 1);
    } else if i > 0 {
      PowersGrow(i - 1, i - 1);
    }
  }

  lemma WidthIs(v: nat)
    ensures YearDigits(v) == Pad(v, Width(v)) && Width(v) >= 4 && v < Power10(Width(v))
    ensures Width(v) > 4 ==> Power10(Width(v) - 1) <= v
  {
    FourDigits();
    if v > 9999 {
      DecimalIsPad(v);
      if |Decimal(v)| < 4 {
        PowersGrow(|Decimal(v)|, 4);
      }
    }
  }

  lemma WidthsGrow(u: nat, v: nat)
    requires u <= v
    ensures Width(u) <= Width(v)
  {
    WidthIs(u);
    WidthIs(v);
    if Width(v) < Width(u) {
      PowersGrow(Width(v), Width(u) - 1);
    }
  }

  /** A number without its last `k` digits. */
  function DropDigits(v: nat, k: nat): nat {
    if k == 0 then v else DropDigits(v / 10, k - 1)
  }

  lemma {:induction false} DropFits(v: nat, w: nat, k: nat)
    requires v < Power10(w + k)
    ensures DropDigits(v, k) < Power10(w)
  {
    if k > 0 {
      DropFits(v / 10, w, k - 1);
    }
  }

  lemma PadNext(v: nat, w: nat)
    ensures Pad(v, w + 1) == Pad(v / 10, w) + [Digit(v % 10)]
  {
  }

  /** The leading digits and the low ones. */
  lemma {:induction false} PadSplits(v: nat, w: nat, k: nat)
    ensures Pad(v, w + k) == Pad(DropDigits(v, k), w) + Pad(v, k)
  {
    if k > 0 {
      PadSplits(v / 10, w, k - 1);
      PadNext(v, w + k - 1);
      PadNext(v, k - 1);
    }
  }

  lemma PadStartsWithDigit(v: nat, w: nat)
    requires w > 0
    ensures '0' <= Pad(v, w)[0]
  {
    if w > 1 {
      PadStartsWithDigit(v / 10, w - 1);
    }
  }

  lemma DashBeforeDigits(x: string, v: nat, k: nat, y: string)
    requires x != "" && x[0] == '-' && k > 0
    ensures Lex.Less(x, Pad(v, k) + y)
  {
    PadStartsWithDigit(v, k);
  }

  lemma LeadingDecide(u: nat, q: nat, w: nat, x: string, y: string)
    requires u < Power10(w) && q < Power10(w) && Lex.Less(x, y)
    ensures Lex.Less(Pad(u, w) + x, Pad(q, w) + y) <==> u <= q
    ensures Lex.Less(Pad(q, w) + y, Pad(u, w) + x) <==> u > q
  {
    if u <= q {
      FieldDecides(u, q, w, x, y);
      Lex.Asymmetric(Pad(u, w) + x, Pad(q, w) + y);
    } else {
      FieldDecides(q, u, w, y, x);
      Lex.Asymmetric(Pad(q, w) + y, Pad(u, w) + x);
    }
  }

  lemma Regroup(a: string, b: string, c: string)
    ensures (a + b) + c == a + (b + c)
  {
  }

  /** A longer number has leading digits of the shorter one's length, and then a digit where that has a dash. */
  lemma LongerYear(u: nat, v: nat, w: nat, k: nat, x: string, y: string)
    requires u < Power10(w) && v < Power10(w + k) && k > 0 && x != "" && x[0] == '-'
    ensures Lex.Less(Pad(u, w) + x, Pad(v, w + k) + y) <==> u <= DropDigits(v, k)
    ensures Lex.Less(Pad(v, w + k) + y, Pad(u, w) + x) <==> u > DropDigits(v, k)
  {
    PadSplits(v, w, k);
    DropFits(v, w, k);
    DashBeforeDigits(x, v, k, y);
    LeadingDecide(u, DropDigits(v, k), w, x, Pad(v, k) + y);
    Regroup(Pad(DropDigits(v, k), w), Pad(v, k), y);
  }

  /** The leading digits of the greater year, as many as the smaller one has. */
  function LeadingDigits(v: nat, u: nat): nat
    requires u <= v
  {
    WidthsGrow(u, v);
    DropDigits(v, Width(v) - Width(u))
  }

  /** Of two different years, the greater one's leading digits decide. */
  lemma YearsDecide(u: nat, v: nat, x: string, y: string)
    requires u < v && x != "" && x[0] == '-'
    ensures Lex.Less(YearDigits(u) + x, YearDigits(v) + y) <==> u <= LeadingDigits(v, u)
    ensures Lex.Less(YearDigits(v) + y, YearDigits(u) + x) <==> u > LeadingDigits(v, u)
  {
    WidthsGrow(u, v);
    WidthIs(u);
    WidthIs(v);
    if Width(u) < Width(v) {
      LongerYear(u, v, Width(u), Width(v) - Width(u), x, y);
    } else {
      FieldDecides(u, v, Width(u), x, y);
      Lex.Asymmetric(YearDigits(u) + x, YearDigits(v) + y);
    }
  }

  // ----- any two times -----

  /** Whether the strings of two years, the first not after the second, are in order. */
  predicate YearsInOrder(y: int, z: int)
    requires y <= z
  {
    if y == z || y < 0 <= z then true
    else if y >= 0 then y <= LeadingDigits(z, y)
    else -z > LeadingDigits(-y, -z)
  }

  lemma NegativeYearComesFirst(y: int, z: int, x: string, x': string)
    requires y < 0 <= z
    ensures Lex.Less(YearString(y) + x, YearString(z) + x') && !Lex.Less(YearString(z) + x', YearString(y) + x)
  {
    WidthIs(z);
    PadStartsWithDigit(z, Width(z));
    assert YearString(z) == YearDigits(z);
    Lex.Asymmetric(YearString(y) + x, YearString(z) + x');
  }

  lemma PositiveYearsDecide(y: int, z: int, x: string, x': string)
    requires 0 <= y < z && x != "" && x[0] == '-'
    ensures Lex.Less(YearString(y) + x, YearString(z) + x') <==> YearsInOrder(y, z)
    ensures Lex.Less(YearString(z) + x', YearString(y) + x) <==> !YearsInOrder(y, z)
  {
    YearsDecide(y, z, x, x');
    assert YearString(y) == YearDigits(y) && YearString(z) == YearDigits(z);
  }

  lemma NegativeYear(y: int, x: string)
    requires y < 0
    ensures YearString(y) + x == "-" + (YearDigits(-y) + x)
  {
    Regroup("-", YearDigits(-y), x);
  }

  lemma NegativeDigitsDecide(y: int, z: int, x: string, x': string)
    requires y < z < 0 && x' != "" && x'[0] == '-'
    ensures Lex.Less(YearDigits(-y) + x, YearDigits(-z) + x') <==> YearsInOrder(y, z)
    ensures Lex.Less(YearDigits(-z) + x', YearDigits(-y) + x) <==> !YearsInOrder(y, z)
  {
    YearsDecide(-z, -y, x', x);
  }

  lemma Dashed(a: string, b: string, p: string, q: string)
    requires p == "-" + a && q == "-" + b
    ensures Lex.Less(p, q) <==> Lex.Less(a, b)
    ensures Lex.Less(q, p) <==> Lex.Less(b, a)
  {
    Lex.SamePrefix("-", a, b);
    Lex.SamePrefix("-", b, a);
  }

  lemma NegativeYearsDecide(y: int, z: int, x: string, x': string)
    requires y < z < 0 && x' != "" && x'[0] == '-'
    ensures Lex.Less(YearString(y) + x, YearString(z) + x') <==> YearsInOrder(y, z)
    ensures Lex.Less(YearString(z) + x', YearString(y) + x) <==> !YearsInOrder(y, z)
  {
    NegativeDigitsDecide(y, z, x, x');
    NegativeYear(y, x);
    NegativeYear(z, x');
    Dashed(YearDigits(-y) + x, YearDigits(-z) + x', YearString(y) + x, YearString(z) + x');
  }

  lemma YearStringsDecide(y: int, z: int, x: string, x': string)
    requires y < z && x != "" && x' != "" && x[0] == x'[0] == '-'
    ensures Lex.Less(YearString(y) + x, YearString(z) + x') <==> YearsInOrder(y, z)
    ensures Lex.Less(YearString(z) + x', YearString(y) + x) <==> !YearsInOrder(y, z)
  {
    if y < 0 <= z {
      NegativeYearComesFirst(y, z, x, x');
    } else if y >= 0 {
      PositiveYearsDecide(y, z, x, x');
    } else {
      NegativeYearsDecide(y, z, x, x');
    }
  }

  /** Two renderings are in order exactly when their years are; they are always different. */
  lemma IsoOrder(s: int, t: int)
    requires s < t
    ensures CivilOf(s).year <= CivilOf(t).year
    ensures Lex.Less(Iso(s), Iso(t)) <==> YearsInOrder(CivilOf(s).year, CivilOf(t).year)
    ensures Lex.Less(Iso(t), Iso(s)) <==> !YearsInOrder(CivilOf(s).year, CivilOf(t).year)
  {
    CivilInOrder(s, t);
    IsoIs(s);
    IsoIs(t);
    var a, b := CivilOf(s), CivilOf(t);
    if a.year == b.year {
      TailsInOrder(a, b);
      Lex.SamePrefix(YearString(a.year), Tail(a), Tail(b));
      Lex.Asymmetric(Iso(s), Iso(t));
    } else {
      YearStringsDecide(a.year, b.year, Tail(a), Tail(b));
    }
  }

  /** Null comes first, so it is in order with times from 1970 on only. */
  predicate KeysInOrder(s: int, t: int) {
    if s == 0 || t == 0 then s >= 0 && t >= 0
    else
      var y, z := CivilOf(s).year, CivilOf(t).year;
      if y <= z then YearsInOrder(y, z) else YearsInOrder(z, y)
  }

  /**
   Any two sort keys are ordered as their times exactly when neither is null beside a time before 1970
   and their years are in order; and different times have different keys.
   */
  lemma KeyOrderIsTimeOrder(s: int, t: int)
    ensures (Lex.Less(TimeKey(s), TimeKey(t)) <==> s < t) <==> KeysInOrder(s, t)
    ensures TimeKey(s) == TimeKey(t) <==> s == t
  {
    if s == t {
      if Lex.Less(TimeKey(s), TimeKey(t)) { Lex.Asymmetric(TimeKey(s), TimeKey(t)); }
    } else if s < t {
      IsoOrder(s, t);
    } else {
      IsoOrder(t, s);
    }
  }

  /** In years 0 to 9999 only null is out of order. */
  lemma FourDigitYearsAreInOrder(s: int, t: int)
    requires FIRST_SECOND <= s <= LAST_SECOND && FIRST_SECOND <= t <= LAST_SECOND
    ensures KeysInOrder(s, t) <==> !((s == 0 && t < 0) || (s < 0 && t == 0))
  {
    FourDigitYears(s);
    FourDigitYears(t);
  }

  /** The year 10000 comes before 9999, and after 1000. */
  lemma Year10000SortsFirst()
    ensures CivilOf(LAST_SECOND).year == 9999 && CivilOf(LAST_SECOND + 1).year == 10000
    ensures Lex.Less(TimeKey(LAST_SECOND + 1), TimeKey(LAST_SECOND))
    ensures YearsInOrder(1000, 10000)
  {
    LastYear();
    FourDigits();
    assert |Decimal(10000)| == 5 by {
      assert |Decimal(1)| == 1 && |Decimal(10)| == 2 && |Decimal(100)| == 3 && |Decimal(1000)| == 4;
    }
    IsoOrder(LAST_SECOND, LAST_SECOND + 1);
  }
}

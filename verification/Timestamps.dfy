/**
 The text form of stored UTC times (src/soc_integration/deliveries.py, _utc) and its order.
 An instant is a count of microseconds since the start of year 1, in the calendar of datetime.
 */
module Timestamps {
  import opened Text

  function Digit(n: nat): char
    requires n < 10
  {
    n as char + '0'
  }

  /** n in decimal, with exactly `width` digits. */
  function Pad(n: nat, width: nat): (s: string)
    ensures |s| == width
  {
    if width == 0 then "" else Pad(n / 10, width - 1) + [Digit(n % 10)]
  }

  function Pow10(n: nat): nat {
    if n == 0 then 1 else 10 * Pow10(n - 1)
  }

  /** Numbers that fit compare as their digits do. */
  lemma {:induction false} PadOrder(a: nat, b: nat, width: nat)
    requires a < Pow10(width) && b < Pow10(width)
    ensures Less(Pad(a, width), Pad(b, width)) <==> a < b
    ensures Pad(a, width) == Pad(b, width) <==> a == b
  {
    if width > 0 {
      var x, y := [Digit(a % 10)], [Digit(b % 10)];
      PadOrder(a / 10, b / 10, width - 1);
      LessByBlocks(Pad(a / 10, width - 1), Pad(b / 10, width - 1), x, y);
      assert Less(x, y) <==> a % 10 < b % 10 by {
        assert x[1..] == "" && y[1..] == "";
      }
      assert Pad(a, width)[width - 1] == x[0] && Pad(b, width)[width - 1] == y[0];
      assert Pad(a, width)[..width - 1] == Pad(a / 10, width - 1);
      assert Pad(b, width)[..width - 1] == Pad(b / 10, width - 1);
    }
  }

  // ---- The calendar.

  predicate Leap(y: nat) {
    y % 4 == 0 && (y % 100 != 0 || y % 400 == 0)
  }

  function YearLength(y: nat): nat {
    if Leap(y) then 366 else 365
  }

  /** Days before 1 January of year y. */
  function DaysBeforeYear(y: nat): nat
    requires y >= 1
  {
    (y - 1) * 365 + (y - 1) / 4 - (y - 1) / 100 + (y - 1) / 400
  }

  function MonthLength(y: nat, m: nat): nat
    requires 1 <= m <= 12
  {
    if m == 2 then (if Leap(y) then 29 else 28)
    else if m == 4 || m == 6 || m == 9 || m == 11 then 30
    else 31
  }

  /** Days of year y before the first of month m; month 13 stands for the end of the year. */
  function DaysBeforeMonth(y: nat, m: nat): nat
    requires 1 <= m <= 13
  {
    if m == 1 then 0 else DaysBeforeMonth(y, m - 1) + MonthLength(y, m - 1)
  }

  const DAY := 86_400_000_000
  const LAST_YEAR := 9999

  datatype Fields = Fields(year: nat, month: nat, day: nat, hour: nat, minute: nat, second: nat, micro: nat) {
    predicate Valid() {
      && 1 <= year <= LAST_YEAR && 1 <= month <= 12 && 1 <= day <= MonthLength(year, month)
      && hour < 24 && minute < 60 && second < 60 && micro < 1_000_000
    }
  }

  function DayOf(f: Fields): nat
    requires f.Valid()
  {
    DaysBeforeYear(f.year) + DaysBeforeMonth(f.year, f.month) + f.day - 1
  }

  function TimeOfDay(f: Fields): nat
    requires f.Valid()
  {
    ((f.hour * 60 + f.minute) * 60 + f.second) * 1_000_000 + f.micro
  }

  function Micros(f: Fields): nat
    requires f.Valid()
  {
    DayOf(f) * DAY + TimeOfDay(f)
  }

  /** Fraction and offset. */
  function Tail(micro: nat): string {
    if micro == 0 then "+00:00" else "." + (Pad(micro, 6) + "+00:00")
  }

  function ClockText(f: Fields): string
    requires f.Valid()
  {
    Pad(f.hour, 2) + (":" + (Pad(f.minute, 2) + (":" + (Pad(f.second, 2) + ("" + Tail(f.micro))))))
  }

  /** datetime.isoformat: the fraction is left out when it is zero. */
  function Iso(f: Fields): string
    requires f.Valid()
  {
    Pad(f.year, 4) + ("-" + (Pad(f.month, 2) + ("-" + (Pad(f.day, 2) + ("T" + ClockText(f))))))
  }

  /** The fields of a later time are larger in the first place where they differ. */
  predicate Earlier(f: Fields, g: Fields) {
    || f.year < g.year
    || (f.year == g.year && (
          || f.month < g.month
          || (f.month == g.month && (
                || f.day < g.day
                || (f.day == g.day && ClockEarlier(f, g))))))
  }

  predicate ClockEarlier(f: Fields, g: Fields) {
    || f.hour < g.hour
    || (f.hour == g.hour && (
          || f.minute < g.minute
          || (f.minute == g.minute && (
                || f.second < g.second
                || (f.second == g.second && f.micro < g.micro)))))
  }

  lemma {:induction false} TailOrder(a: nat, b: nat)
    requires a < 1_000_000 && b < 1_000_000
    ensures Less(Tail(a), Tail(b)) <==> a < b
  {
    assert Pow10(6) == 1_000_000;
    PadOrder(a, b, 6);
    LessByBlocks(Pad(a, 6), Pad(b, 6), "+00:00", "+00:00");
    LessTotal("+00:00", "+00:00");
    LessByBlocks(".", ".", Pad(a, 6) + "+00:00", Pad(b, 6) + "+00:00");
    LessTotal(".", ".");
    if a == 0 || b == 0 {
      assert Tail(0)[0] == '+';
      assert a != 0 ==> Tail(a)[0] == '.';
      assert b != 0 ==> Tail(b)[0] == '.';
    }
  }

  /** One numeric field and its separator, followed by the rest. */
  lemma FieldOrder(a: nat, b: nat, width: nat, sep: string, x: string, y: string)
    requires a < Pow10(width) && b < Pow10(width)
    ensures Less(Pad(a, width) + (sep + x), Pad(b, width) + (sep + y)) <==> a < b || (a == b && Less(x, y))
  {
    PadOrder(a, b, width);
    LessByBlocks(Pad(a, width), Pad(b, width), sep + x, sep + y);
    LessByBlocks(sep, sep, x, y);
    LessTotal(sep, sep);
  }

  lemma ClockOrder(f: Fields, g: Fields)
    requires f.Valid() && g.Valid()
    ensures Less(ClockText(f), ClockText(g)) <==> ClockEarlier(f, g)
  {
    assert Pow10(2) == 100;
    TailOrder(f.micro, g.micro);
    var s, t := "" + Tail(f.micro), "" + Tail(g.micro);
    assert s == Tail(f.micro) && t == Tail(g.micro);
    FieldOrder(f.second, g.second, 2, "", Tail(f.micro), Tail(g.micro));
    var m, n := Pad(f.second, 2) + s, Pad(g.second, 2) + t;
    FieldOrder(f.minute, g.minute, 2, ":", m, n);
    FieldOrder(f.hour, g.hour, 2, ":", Pad(f.minute, 2) + (":" + m), Pad(g.minute, 2) + (":" + n));
  }

  /** Printed times compare as their fields do, with or without a fraction. */
  lemma IsoOrder(f: Fields, g: Fields)
    requires f.Valid() && g.Valid()
    ensures Less(Iso(f), Iso(g)) <==> Earlier(f, g)
  {
    assert Pow10(2) == 100 && Pow10(4) == 10_000;
    ClockOrder(f, g);
    var x, y := ClockText(f), ClockText(g);
    FieldOrder(f.day, g.day, 2, "T", x, y);
    x, y := Pad(f.day, 2) + ("T" + x), Pad(g.day, 2) + ("T" + y);
    FieldOrder(f.month, g.month, 2, "-", x, y);
    x, y := Pad(f.month, 2) + ("-" + x), Pad(g.month, 2) + ("-" + y);
    FieldOrder(f.year, g.year, 4, "-", x, y);
  }

  // ---- The layout of a printed time.

  /** The number that a run of digits stands for. */
  function Number(digits: string): int {
    if digits == "" then 0 else 10 * Number(digits[..|digits| - 1]) + (digits[|digits| - 1] as int - '0' as int)
  }

  lemma {:induction false} PadReads(n: nat, width: nat)
    requires n < Pow10(width)
    ensures Number(Pad(n, width)) == n
    ensures AllDigits(Pad(n, width))
  {
    if width > 0 {
      PadReads(n / 10, width - 1);
      assert Pad(n, width)[..width - 1] == Pad(n / 10, width - 1);
    }
  }

  predicate AllDigits(s: string) {
    forall i | 0 <= i < |s| :: '0' <= s[i] <= '9'
  }

  /** This stretch of the text is a number of so many digits. */
  predicate ReadsAt(s: string, at: nat, width: nat, n: int) {
    at + width <= |s| && Number(s[at..at + width]) == n && AllDigits(s[at..at + width])
  }

  lemma FieldReads(s: string, at: nat, n: nat, width: nat, more: string)
    requires at <= |s| && s[at..] == Pad(n, width) + more && n < Pow10(width)
    ensures ReadsAt(s, at, width, n) && s[at + width..] == more
  {
    PadReads(n, width);
    assert s[at..][..width] == Pad(n, width) && s[at..][..width] == s[at..at + width];
    assert s[at..][width..] == more && s[at..][width..] == s[at + width..];
  }

  lemma SepReads(s: string, at: nat, c: char, more: string)
    requires at <= |s| && s[at..] == [c] + more
    ensures at < |s| && s[at] == c && s[at + 1..] == more
  {
    assert s[at..][1..] == more && s[at..][1..] == s[at + 1..];
  }

  lemma ClockLayout(s: string, f: Fields)
    requires f.Valid() && |s| >= 11 && s[11..] == ClockText(f)
    ensures |s| == (if f.micro == 0 then 25 else 32)
    ensures ReadsAt(s, 11, 2, f.hour) && s[13] == ':' && ReadsAt(s, 14, 2, f.minute) && s[16] == ':'
    ensures ReadsAt(s, 17, 2, f.second) && (f.micro != 0 ==> s[19] == '.' && ReadsAt(s, 20, 6, f.micro))
    ensures s[|s| - 6..] == "+00:00"
  {
    assert Pow10(2) == 100 && Pow10(6) == 1_000_000;
    var tail := Tail(f.micro);
    var second := Pad(f.second, 2) + ("" + tail);
    var minute := Pad(f.minute, 2) + (":" + second);
    FieldReads(s, 11, f.hour, 2, ":" + minute);
    SepReads(s, 13, ':', minute);
    FieldReads(s, 14, f.minute, 2, ":" + second);
    SepReads(s, 16, ':', second);
    FieldReads(s, 17, f.second, 2, "" + tail);
    assert "" + tail == tail;
    if f.micro != 0 {
      SepReads(s, 19, '.', Pad(f.micro, 6) + "+00:00");
      FieldReads(s, 20, f.micro, 6, "+00:00");
    }
  }

  /**
   A time is printed as year-month-dayThour:minute:second, with six digits after a point for the
   microseconds unless there are none, and the offset +00:00.
   */
  lemma IsoLayout(f: Fields)
    requires f.Valid()
    ensures var s := Iso(f);
      && |s| == (if f.micro == 0 then 25 else 32)
      && ReadsAt(s, 0, 4, f.year) && s[4] == '-' && ReadsAt(s, 5, 2, f.month) && s[7] == '-'
      && ReadsAt(s, 8, 2, f.day) && s[10] == 'T' && ReadsAt(s, 11, 2, f.hour) && s[13] == ':'
      && ReadsAt(s, 14, 2, f.minute) && s[16] == ':' && ReadsAt(s, 17, 2, f.second)
      && (f.micro != 0 ==> s[19] == '.' && ReadsAt(s, 20, 6, f.micro))
      && s[|s| - 6..] == "+00:00"
  {
    assert Pow10(2) == 100 && Pow10(4) == 10_000;
    var s, clock := Iso(f), ClockText(f);
    var day := Pad(f.day, 2) + ("T" + clock);
    var month := Pad(f.month, 2) + ("-" + day);
    assert s[0..] == s;
    FieldReads(s, 0, f.year, 4, "-" + month);
    SepReads(s, 4, '-', month);
    FieldReads(s, 5, f.month, 2, "-" + day);
    SepReads(s, 7, '-', day);
    FieldReads(s, 8, f.day, 2, "T" + clock);
    SepReads(s, 10, 'T', clock);
    ClockLayout(s, f);
  }

  /** The calendar: the lengths of the months, the leap years, and the start of the epoch of time.time. */
  lemma Gregorian(y: nat)
    requires y >= 1
    ensures forall m | 1 <= m <= 12 ::
              MonthLength(y, m) == if m == 2 then YearLength(y) - 337
                                   else [31, 0, 31, 30, 31, 30, 31, 31, 30, 31, 30, 31][m - 1]
    ensures YearLength(y) == 365 || YearLength(y) == 366
    ensures YearLength(y) == 366 <==> y % 400 == 0 || (y % 4 == 0 && y % 100 != 0)
    ensures DaysBeforeYear(1) == 0 && DaysBeforeYear(1970) == 719_162
  {
    Cycles(y);
  }

  // ---- Fields and instants.

  lemma {:induction false} MonthsAscend(y: nat, m: nat, n: nat)
    requires 1 <= m < n <= 13
    ensures DaysBeforeMonth(y, m) + MonthLength(y, m) <= DaysBeforeMonth(y, n)
  {
    if m + 1 < n {
      MonthsAscend(y, m, n - 1);
    }
  }

  lemma YearEnd(y: nat)
    ensures DaysBeforeMonth(y, 13) == YearLength(y)
  {
    assert DaysBeforeMonth(y, 2) == 31 && DaysBeforeMonth(y, 3) == 31 + MonthLength(y, 2);
    assert DaysBeforeMonth(y, 5) == DaysBeforeMonth(y, 3) + 61;
    assert DaysBeforeMonth(y, 7) == DaysBeforeMonth(y, 5) + 61;
    assert DaysBeforeMonth(y, 9) == DaysBeforeMonth(y, 7) + 62;
    assert DaysBeforeMonth(y, 11) == DaysBeforeMonth(y, 9) + 61;
    assert DaysBeforeMonth(y, 13) == DaysBeforeMonth(y, 11) + 61;
  }

  lemma Quarters(y: nat)
    requires y >= 1
    ensures y / 4 == (y - 1) / 4 + if y % 4 == 0 then 1 else 0
  {
  }

  lemma Centuries(y: nat)
    requires y >= 1
    ensures y / 100 == (y - 1) / 100 + if y % 100 == 0 then 1 else 0
    ensures y % 100 == 0 ==> y % 4 == 0
  {
    assert y == 100 * (y / 100) + y % 100;
  }

  lemma Cycles(y: nat)
    requires y >= 1
    ensures y / 400 == (y - 1) / 400 + if y % 400 == 0 then 1 else 0
    ensures y % 400 == 0 ==> y % 100 == 0
  {
    assert y == 400 * (y / 400) + y % 400;
  }

  lemma YearStep(y: nat)
    requires y >= 1
    ensures DaysBeforeYear(y + 1) == DaysBeforeYear(y) + YearLength(y)
  {
    Quarters(y);
    Centuries(y);
    Cycles(y);
  }

  lemma {:induction false} YearsAscend(y: nat, z: nat)
    requires 1 <= y < z
    ensures DaysBeforeYear(y) + YearLength(y) <= DaysBeforeYear(z)
  {
    YearStep(z - 1);
    if y + 1 < z {
      YearsAscend(y, z - 1);
    }
  }

  lemma DayInYear(f: Fields)
    requires f.Valid()
    ensures DaysBeforeYear(f.year) <= DayOf(f) < DaysBeforeYear(f.year) + YearLength(f.year)
  {
    MonthsAscend(f.year, f.month, 13);
    YearEnd(f.year);
  }

  lemma EarlierIsLess(f: Fields, g: Fields)
    requires f.Valid() && g.Valid() && Earlier(f, g)
    ensures Micros(f) < Micros(g)
  {
    if f.year < g.year {
      DayInYear(f);
      DayInYear(g);
      YearsAscend(f.year, g.year);
    } else if f.month < g.month {
      MonthsAscend(f.year, f.month, g.month);
    }
    assert DayOf(f) <= DayOf(g);
    assert TimeOfDay(f) < DAY;
    assert DayOf(f) == DayOf(g) ==> TimeOfDay(f) < TimeOfDay(g);
  }

  lemma FieldsOrder(f: Fields, g: Fields)
    requires f.Valid() && g.Valid()
    ensures Earlier(f, g) <==> Micros(f) < Micros(g)
  {
    if Earlier(f, g) {
      EarlierIsLess(f, g);
    } else if Earlier(g, f) {
      EarlierIsLess(g, f);
    } else {
      assert f == g;
    }
  }

  // ---- Printing an instant.

  /** The first instant after the calendar's last day. */
  const END: int := 315_537_897_600_000_000

  type Instant = t: int | 0 <= t < 315_537_897_600_000_000

  /** The year of a day, searched from year y on. */
  function YearFrom(day: nat, y: nat): (r: nat)
    requires 1 <= y <= LAST_YEAR && DaysBeforeYear(y) <= day < DaysBeforeYear(LAST_YEAR + 1)
    ensures 1 <= r <= LAST_YEAR && DaysBeforeYear(r) <= day < DaysBeforeYear(r + 1)
    decreases LAST_YEAR - y
  {
    if day < DaysBeforeYear(y + 1) then y else YearFrom(day, y + 1)
  }

  /** The month of a day of year y, searched from month m on. */
  function MonthFrom(day: nat, y: nat, m: nat): (r: nat)
    requires 1 <= m <= 12 && DaysBeforeMonth(y, m) <= day < DaysBeforeMonth(y, 13)
    ensures 1 <= r <= 12 && DaysBeforeMonth(y, r) <= day < DaysBeforeMonth(y, r) + MonthLength(y, r)
    decreases 12 - m
  {
    if day < DaysBeforeMonth(y, m + 1) then m else MonthFrom(day, y, m + 1)
  }

  function DateFields(day: nat): (f: Fields)
    requires day < DaysBeforeYear(LAST_YEAR + 1)
    ensures f.Valid() && DayOf(f) == day
  {
    var y := YearFrom(day, 1);
    var inYear := day - DaysBeforeYear(y);
    YearStep(y);
    YearEnd(y);
    var m := MonthFrom(inYear, y, 1);
    Fields(y, m, inYear - DaysBeforeMonth(y, m) + 1, 0, 0, 0, 0)
  }

  datatype TimeParts = TimeParts(hour: nat, minute: nat, second: nat, micro: nat)

  function ClockOf(time: nat): (c: TimeParts)
    requires time < DAY
    ensures c.hour < 24 && c.minute < 60 && c.second < 60 && c.micro < 1_000_000
    ensures ((c.hour * 60 + c.minute) * 60 + c.second) * 1_000_000 + c.micro == time
  {
    var seconds := time / 1_000_000;
    var minutes := seconds / 60;
    var hour := minutes / 60;
    TimeParts(hour, minutes - 60 * hour, seconds - 60 * minutes, time - 1_000_000 * seconds)
  }

  function AtTime(date: Fields, time: nat): (f: Fields)
    requires date.Valid() && time < DAY
    ensures f.Valid() && DayOf(f) == DayOf(date) && TimeOfDay(f) == time
  {
    var c := ClockOf(time);
    date.(hour := c.hour, minute := c.minute, second := c.second, micro := c.micro)
  }

  function FieldsOf(t: Instant): (f: Fields)
    ensures f.Valid() && Micros(f) == t
  {
    assert DaysBeforeYear(LAST_YEAR + 1) == 3_652_059;
    var day := t / DAY;
    AtTime(DateFields(day), t - day * DAY)
  }

  /** The text that is stored. */
  function Utc(t: Instant): string {
    Iso(FieldsOf(t))
  }

  /** The order of the stored texts is the order of time, for all instants the calendar has. */
  lemma TextOrderIsTimeOrder(a: Instant, b: Instant)
    ensures Less(Utc(a), Utc(b)) <==> a < b
    ensures Utc(a) == Utc(b) <==> a == b
  {
    IsoOrder(FieldsOf(a), FieldsOf(b));
    FieldsOrder(FieldsOf(a), FieldsOf(b));
    IsoOrder(FieldsOf(b), FieldsOf(a));
    FieldsOrder(FieldsOf(b), FieldsOf(a));
    LessTotal(Utc(a), Utc(b));
  }
}

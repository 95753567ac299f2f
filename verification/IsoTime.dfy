/** The timestamps of the bus: UTC times written by `isoformat`, compared as texts by the
    database. The fraction is left out when it is zero, so texts of two lengths are compared. */
module IsoTime {

  /** A UTC time as `datetime` holds it. */
  datatype Time = Time(year: nat, month: nat, day: nat, hour: nat, minute: nat, second: nat, micro: nat)
  {
    predicate Valid() {
      && 1 <= year <= 9999 && 1 <= month <= 12 && 1 <= day <= DaysIn(year, month)
      && hour < 24 && minute < 60 && second < 60 && micro < 1_000_000
    }
  }

  // ----- instants -----

  predicate Leap(year: nat) {
    year % 4 == 0 && (year % 100 != 0 || year % 400 == 0)
  }

  function DaysIn(year: nat, month: nat): nat {
    if month == 2 then (if Leap(year) then 29 else 28)
    else if month == 4 || month == 6 || month == 9 || month == 11 then 30 else 31
  }

  function DaysBeforeMonth(year: nat, month: nat): nat {
    if month <= 1 then 0 else DaysBeforeMonth(year, month - 1) + DaysIn(year, month - 1)
  }

  function DaysBeforeYear(year: nat): nat {
    if year <= 1 then 0 else DaysBeforeYear(year - 1) + if Leap(year - 1) then 366 else 365
  }

  /** The day's number counted from the first day of year 1. */
  function DayNumber(t: Time): nat {
    DaysBeforeYear(t.year) + DaysBeforeMonth(t.year, t.month) + t.day
  }

  /** Microseconds counted from the first day of year 1. */
  function Instant(t: Time): nat {
    (((DayNumber(t) * 24 + t.hour) * 60 + t.minute) * 60 + t.second) * 1_000_000 + t.micro
  }

  // ----- texts -----

  function Digit(n: nat): char
    requires n < 10
  {
    '0' + n as char
  }

  /** The last `width` decimal digits of `n`. */
  function Padded(n: nat, width: nat): (s: string)
    ensures |s| == width
    decreases width
  {
    if width == 0 then "" else Padded(n / 10, width - 1) + [Digit(n % 10)]
  }

  const UTC: string := "+00:00"

  function Fraction(micro: nat): string {
    if micro == 0 then UTC else "." + (Padded(micro, 6) + UTC)
  }

  function IsoFormat(t: Time): string {
    Padded(t.year, 4) + ("-" + (Padded(t.month, 2) + ("-" + (Padded(t.day, 2) + ("T" +
      (Padded(t.hour, 2) + (":" + (Padded(t.minute, 2) + (":" + (Padded(t.second, 2) + Fraction(t.micro)))))))))))
  }

  /** The order in which the database compares texts: by the first characters that differ. */
  predicate Less(a: string, b: string) {
    b != "" && (a == "" || a[0] < b[0] || (a[0] == b[0] && Less(a[1..], b[1..])))
  }

  // ----- the order of parts -----

  lemma {:induction false} LessConcat(a: string, b: string, x: string, y: string)
    requires |a| == |b|
    ensures Less(a + x, b + y) <==> Less(a, b) || (a == b && Less(x, y))
  {
    if a == "" {
      assert a + x == x && b + y == y;
    } else {
      assert (a + x)[1..] == a[1..] + x && (b + y)[1..] == b[1..] + y;
      LessConcat(a[1..], b[1..], x, y);
      assert a == [a[0]] + a[1..] && b == [b[0]] + b[1..];
    }
  }

  function Pow10(n: nat): nat {
    if n == 0 then 1 else 10 * Pow10(n - 1)
  }

  lemma {:induction false} PaddedOrder(m: nat, n: nat, width: nat)
    requires m < Pow10(width) && n < Pow10(width)
    ensures Less(Padded(m, width), Padded(n, width)) <==> m < n
    ensures Padded(m, width) == Padded(n, width) <==> m == n
  {
    if width > 0 {
      PaddedOrder(m / 10, n / 10, width - 1);
      var a, b := Padded(m / 10, width - 1), Padded(n / 10, width - 1);
      LessConcat(a, b, [Digit(m % 10)], [Digit(n % 10)]);
      var p, q := a + [Digit(m % 10)], b + [Digit(n % 10)];
      assert p[..width - 1] == a && q[..width - 1] == b && p[width - 1] == Digit(m % 10) && q[width - 1] == Digit(n % 10);
    }
  }

  /** A field of fixed width and what follows it: the field decides unless it is the same. */
  lemma FieldOrder(m: nat, n: nat, width: nat, x: string, y: string)
    requires m < Pow10(width) && n < Pow10(width)
    ensures Less(Padded(m, width) + x, Padded(n, width) + y) <==> m < n || (m == n && Less(x, y))
  {
    PaddedOrder(m, n, width);
    LessConcat(Padded(m, width), Padded(n, width), x, y);
  }

  /** An absent fraction comes first, because '+' sorts before '.'. */
  lemma FractionOrder(m: nat, n: nat)
    requires m < 1_000_000 && n < 1_000_000
    ensures Less(Fraction(m), Fraction(n)) <==> m < n
  {
    assert Pow10(6) == 1_000_000;
    assert UTC[0] == '+';
    if m > 0 && n > 0 {
      FieldOrder(m, n, 6, UTC, UTC);
      LessConcat(".", ".", Padded(m, 6) + UTC, Padded(n, 6) + UTC);
      Irreflexive(UTC);
    } else if m == 0 && n == 0 {
      Irreflexive(UTC);
    }
  }

  lemma {:induction false} Irreflexive(s: string)
    ensures !Less(s, s)
  {
    if s != "" { Irreflexive(s[1..]); }
  }

  predicate FieldsBefore(a: Time, b: Time) {
    || a.year < b.year
    || (a.year == b.year && (a.month < b.month
    || (a.month == b.month && (a.day < b.day
    || (a.day == b.day && (a.hour < b.hour
    || (a.hour == b.hour && (a.minute < b.minute
    || (a.minute == b.minute && (a.second < b.second
    || (a.second == b.second && a.micro < b.micro)))))))))))
  }

  lemma TextByFields(a: Time, b: Time)
    requires a.Valid() && b.Valid()
    ensures Less(IsoFormat(a), IsoFormat(b)) <==> FieldsBefore(a, b)
  {
    assert Pow10(2) == 100 && Pow10(4) == 10000;
    FractionOrder(a.micro, b.micro);
    var as5, bs5 := Padded(a.second, 2) + Fraction(a.micro), Padded(b.second, 2) + Fraction(b.micro);
    FieldOrder(a.second, b.second, 2, Fraction(a.micro), Fraction(b.micro));
    var as4, bs4 := Padded(a.minute, 2) + (":" + as5), Padded(b.minute, 2) + (":" + bs5);
    Separated(a.minute, b.minute, 2, ":", as5, bs5);
    var as3, bs3 := Padded(a.hour, 2) + (":" + as4), Padded(b.hour, 2) + (":" + bs4);
    Separated(a.hour, b.hour, 2, ":", as4, bs4);
    var as2, bs2 := Padded(a.day, 2) + ("T" + as3), Padded(b.day, 2) + ("T" + bs3);
    Separated(a.day, b.day, 2, "T", as3, bs3);
    var as1, bs1 := Padded(a.month, 2) + ("-" + as2), Padded(b.month, 2) + ("-" + bs2);
    Separated(a.month, b.month, 2, "-", as2, bs2);
    Separated(a.year, b.year, 4, "-", as1, bs1);
  }

  lemma Separated(m: nat, n: nat, width: nat, mark: string, x: string, y: string)
    requires m < Pow10(width) && n < Pow10(width)
    ensures Less(Padded(m, width) + (mark + x), Padded(n, width) + (mark + y)) <==> m < n || (m == n && Less(x, y))
  {
    Irreflexive(mark);
    LessConcat(mark, mark, x, y);
    FieldOrder(m, n, width, mark + x, mark + y);
  }

  // ----- the order of instants -----

  lemma {:induction false} MonthsAdd(year: nat, m: nat, n: nat)
    requires 1 <= m < n
    ensures DaysBeforeMonth(year, m) + DaysIn(year, m) <= DaysBeforeMonth(year, n)
    decreases n
  {
    if m < n - 1 { MonthsAdd(year, m, n - 1); }
  }

  lemma {:induction false} YearsAdd(m: nat, n: nat)
    requires 1 <= m < n
    ensures DaysBeforeYear(m) + (if Leap(m) then 366 else 365) <= DaysBeforeYear(n)
    decreases n
  {
    if m < n - 1 { YearsAdd(m, n - 1); }
  }

  lemma YearLength(year: nat)
    ensures DaysBeforeMonth(year, 12) + 31 == if Leap(year) then 366 else 365
  {
    assert DaysBeforeMonth(year, 1) == 0 && DaysBeforeMonth(year, 2) == 31;
    assert DaysBeforeMonth(year, 3) == 31 + DaysIn(year, 2);
    assert DaysBeforeMonth(year, 5) == DaysBeforeMonth(year, 3) + 61;
    assert DaysBeforeMonth(year, 7) == DaysBeforeMonth(year, 5) + 61;
    assert DaysBeforeMonth(year, 9) == DaysBeforeMonth(year, 7) + 62;
    assert DaysBeforeMonth(year, 11) == DaysBeforeMonth(year, 9) + 61;
  }

  lemma DayOrder(a: Time, b: Time)
    requires a.Valid() && b.Valid()
    requires a.year < b.year || (a.year == b.year && (a.month < b.month || (a.month == b.month && a.day < b.day)))
    ensures DayNumber(a) < DayNumber(b)
  {
    if a.year < b.year {
      YearsAdd(a.year, b.year);
      YearLength(a.year);
      if a.month < 12 { MonthsAdd(a.year, a.month, 12); }
    } else if a.month < b.month {
      MonthsAdd(a.year, a.month, b.month);
    }
  }

  lemma InstantOrder(a: Time, b: Time)
    requires a.Valid() && b.Valid() && FieldsBefore(a, b)
    ensures Instant(a) < Instant(b)
  {
    if a.year == b.year && a.month == b.month && a.day == b.day {
    } else {
      DayOrder(a, b);
    }
  }

  /** Comparing two timestamps as texts compares the instants they stand for. */
  lemma TextOrderIsTimeOrder(a: Time, b: Time)
    requires a.Valid() && b.Valid()
    ensures Less(IsoFormat(a), IsoFormat(b)) <==> Instant(a) < Instant(b)
  {
    TextByFields(a, b);
    if FieldsBefore(a, b) {
      InstantOrder(a, b);
    } else if a != b {
      InstantOrder(b, a);
    }
  }
}

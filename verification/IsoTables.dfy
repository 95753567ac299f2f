/** The calendar behind the timestamps, and how a timestamp is read off its text. */
module IsoTables {
  import opened IsoTime

  // ----- the calendar -----

  function MonthLength(year: nat, month: nat): nat {
    if month == 2 then if year % 400 == 0 || (year % 4 == 0 && year % 100 != 0) then 29 else 28
    else if month <= 7 then 30 + month % 2
    else 31 - month % 2
  }

  /** The day after, by the calendar. */
  function Tomorrow(t: Time): Time {
    if t.day < MonthLength(t.year, t.month) then t.(day := t.day + 1)
    else if t.month < 12 then t.(month := t.month + 1, day := 1)
    else t.(year := t.year + 1, month := 1, day := 1)
  }

  lemma LengthIs(year: nat, month: nat)
    requires 1 <= month <= 12
    ensures DaysIn(year, month) == MonthLength(year, month)
  {
    FourHundred(year);
    hide Leap;
  }

  lemma FourHundred(year: nat)
    ensures Leap(year) <==> year % 400 == 0 || (year % 4 == 0 && year % 100 != 0)
  {
    if year % 400 == 0 {
      assert year == 4 * (100 * (year / 400));
    }
  }

  /** The times there are: those of the calendar from year 1 to year 9999. */
  lemma ValidIff(t: Time)
    ensures t.Valid() <==>
      && 0 < t.year < 10_000 && 0 < t.month < 13 && 0 < t.day <= MonthLength(t.year, t.month)
      && t.hour < 24 && t.minute < 60 && t.second < 60 && t.micro < 1_000_000
  {
    if 0 < t.month < 13 {
      LengthIs(t.year, t.month);
    }
  }

  /** A day later, the instant is a day's microseconds later, across the ends of months, years and leap years. */
  lemma NextDay(t: Time)
    requires t.Valid()
    ensures Instant(Tomorrow(t)) == Instant(t) + 86_400_000_000
    ensures Tomorrow(t).Valid() || (t.year == 9999 && t.month == 12 && t.day == 31)
  {
    LengthIs(t.year, t.month);
    ValidIff(Tomorrow(t));
    if t.month == 12 {
      DecemberEnds(t.year);
    }
    DayAfter(t);
    var n := Tomorrow(t);
    assert DayNumber(n) == DayNumber(t) + 1;
  }

  lemma DecemberEnds(year: nat)
    requires year >= 1
    ensures DaysBeforeYear(year + 1) == DaysBeforeYear(year) + DaysBeforeMonth(year, 12) + 31
  {
    YearLength(year);
  }

  lemma DayAfter(t: Time)
    requires t.Valid() && DaysIn(t.year, t.month) == MonthLength(t.year, t.month)
    requires t.month == 12 ==> DaysBeforeYear(t.year + 1) == DaysBeforeYear(t.year) + DaysBeforeMonth(t.year, 12) + 31
    ensures DayNumber(Tomorrow(t)) == DayNumber(t) + 1
  {
    hide DaysBeforeYear;
    hide DaysIn;
    assert t.month < 12 ==> DaysBeforeMonth(t.year, t.month + 1) == DaysBeforeMonth(t.year, t.month) + DaysIn(t.year, t.month);
    assert DaysBeforeMonth(t.year + 1, 1) == 0;
  }

  /** Within a day the instants go by hours, minutes, seconds and microseconds. */
  lemma WithinDay(t: Time)
    ensures Instant(t) == Instant(t.(hour := 0, minute := 0, second := 0, micro := 0)) +
      t.hour * 3_600_000_000 + t.minute * 60_000_000 + t.second * 1_000_000 + t.micro
  {
    hide DaysBeforeYear;
    hide DaysBeforeMonth;
  }

  // ----- reading a timestamp -----

  predicate Digits(s: string) {
    forall i :: 0 <= i < |s| ==> '0' <= s[i] <= '9'
  }

  function Number(s: string): int {
    if s == "" then 0 else 10 * Number(s[..|s| - 1]) + (s[|s| - 1] as int - '0' as int)
  }

  /** The text is the number, in that many digits. */
  predicate Reads(text: string, width: nat, n: nat) {
    |text| == width && Digits(text) && Number(text) == n
  }

  lemma {:induction false} PaddedReads(n: nat, width: nat)
    requires n < Pow10(width)
    ensures Reads(Padded(n, width), width, n)
  {
    if width > 0 {
      PaddedReads(n / 10, width - 1);
      assert Padded(n, width)[..width - 1] == Padded(n / 10, width - 1);
    }
  }

  lemma Powers()
    ensures Pow10(2) == 100 && Pow10(4) == 10_000 && Pow10(6) == 1_000_000
  {
    assert Pow10(3) == 1_000 && Pow10(5) == 100_000;
  }

  /** The text of a time reads, from the left: year, month and day with hyphens, a `T`, hour, minute and second with colons,
      the microseconds behind a point unless they are zero, and the offset of UTC. */
  lemma IsoReads(t: Time) returns (y: string, mo: string, d: string, h: string, mi: string, s: string, f: string)
    requires t.Valid()
    ensures IsoFormat(t) ==
      y + ("-" + (mo + ("-" + (d + ("T" + (h + (":" + (mi + (":" + (s + (if t.micro == 0 then "+00:00" else "." + (f + "+00:00"))))))))))))
    ensures Reads(y, 4, t.year) && Reads(mo, 2, t.month) && Reads(d, 2, t.day)
    ensures Reads(h, 2, t.hour) && Reads(mi, 2, t.minute) && Reads(s, 2, t.second) && Reads(f, 6, t.micro)
  {
    Powers();
    ValidIff(t);
    hide Pow10;
    hide Padded;
    hide Reads;
    y, mo, d := Padded(t.year, 4), Padded(t.month, 2), Padded(t.day, 2);
    h, mi, s, f := Padded(t.hour, 2), Padded(t.minute, 2), Padded(t.second, 2), Padded(t.micro, 6);
    PaddedReads(t.year, 4);
    PaddedReads(t.month, 2);
    PaddedReads(t.day, 2);
    PaddedReads(t.hour, 2);
    PaddedReads(t.minute, 2);
    PaddedReads(t.second, 2);
    PaddedReads(t.micro, 6);
  }
}

/**
 The date filter: bounds written as calendar dates or as timestamps of section 5.6 of RFC 3339,
 parsed, echoed in canonical form, and turned into a half-open interval of instants.
 */
module DateBounds {
  import opened Options
  import opened Decimal
  import opened QueryBuilding

  /** Offsets are read up to 24 hours and 60 minutes, in minutes. */
  const MAX_OFFSET := 1500

  /** A parsed time: wall clock and offset from UTC in minutes. */
  datatype Stamp = Stamp(
    year: nat, month: nat, day: nat, hour: nat, minute: nat, second: nat, nano: nat, offset: int)

  predicate LeapYear(y: nat) {
    y % 4 == 0 && (y % 100 != 0 || y % 400 == 0)
  }

  function DaysIn(month: nat, year: nat): nat {
    if month == 2 then (if LeapYear(year) then 29 else 28)
    else if month == 4 || month == 6 || month == 9 || month == 11 then 30 else 31
  }

  predicate ValidDate(y: nat, m: nat, d: nat) {
    y <= 9999 && 1 <= m <= 12 && 1 <= d <= DaysIn(m, y)
  }

  predicate ValidStamp(t: Stamp) {
    && ValidDate(t.year, t.month, t.day)
    && t.hour <= 23 && t.minute <= 59 && t.second <= 59 && t.nano <= 999_999_999
    && -MAX_OFFSET <= t.offset <= MAX_OFFSET
  }

  // ------------------------------------------------------------ digits

  /** n as exactly k digits. */
  function Fixed(n: nat, k: nat): (s: string)
    ensures |s| == k && AllDigits(s)
  {
    if k == 0 then "" else Fixed(n / 10, k - 1) + [DigitChar(n % 10)]
  }

  function Power10(k: nat): (p: nat)
    ensures p >= 1
  {
    if k == 0 then 1 else 10 * Power10(k - 1)
  }

  lemma {:induction false} FixedValue(n: nat, k: nat)
    requires n < Power10(k)
    ensures DigitsValue(Fixed(n, k)) == n
  {
    if k > 0 {
      FixedValue(n / 10, k - 1);
      var s := Fixed(n, k);
      assert s[..|s| - 1] == Fixed(n / 10, k - 1);
    }
  }

  lemma {:induction false} ValueBound(s: string)
    requires AllDigits(s)
    ensures DigitsValue(s) < Power10(|s|)
  {
    if s != "" { ValueBound(s[..|s| - 1]); }
  }

  /** The digits s[i..j] as a number. */
  function Field(s: string, i: nat, j: nat): Option<nat> {
    if i < j <= |s| && AllDigits(s[i..j]) then Some(DigitsValue(s[i..j])) else None
  }

  lemma FieldIs(s: string, i: nat, j: nat, n: nat, k: nat)
    requires i < j <= |s| && s[i..j] == Fixed(n, k) && n < Power10(k)
    ensures Field(s, i, j) == Some(n)
  {
    FixedValue(n, k);
  }

  // ------------------------------------------------------------ calendar dates

  function PrintDate(y: nat, m: nat, d: nat): (s: string)
    ensures |s| == 10
  {
    Fixed(y, 4) + "-" + Fixed(m, 2) + "-" + Fixed(d, 2)
  }

  /** Year, month and day at the head of s. */
  function ParseYmd(s: string): Option<(nat, nat, nat)> {
    if |s| < 10 || s[4] != '-' || s[7] != '-' then None
    else match (Field(s, 0, 4), Field(s, 5, 7), Field(s, 8, 10))
         case (Some(y), Some(m), Some(d)) => if ValidDate(y, m, d) then Some((y, m, d)) else None
         case _ => None
  }

  lemma Powers()
    ensures Power10(2) == 100 && Power10(4) == 10000 && Power10(9) == 1_000_000_000
  {
    assert Power10(1) == 10 && Power10(3) == 1000;
    assert Power10(5) == 100000 && Power10(6) == 1000000 && Power10(7) == 10000000 && Power10(8) == 100000000;
  }

  lemma ParseYmdBack(y: nat, m: nat, d: nat, rest: string)
    requires ValidDate(y, m, d)
    ensures ParseYmd(PrintDate(y, m, d) + rest) == Some((y, m, d))
  {
    Powers();
    ThreeFields(Fixed(y, 4), '-', Fixed(m, 2), '-', Fixed(d, 2), rest);
    var s := PrintDate(y, m, d) + rest;
    FieldIs(s, 0, 4, y, 4);
    FieldIs(s, 5, 7, m, 2);
    FieldIs(s, 8, 10, d, 2);
  }

  /** Where the parts of a separated text lie. */
  lemma ThreeFields(a: string, x: char, b: string, y: char, c: string, rest: string)
    ensures var s, i, j := a + [x] + b + [y] + c + rest, |a| + 1, |a| + |b| + 2;
            && |s| == j + |c| + |rest|
            && s[0..|a|] == a && s[|a|] == x && s[i..i + |b|] == b && s[i + |b|] == y && s[j..j + |c|] == c
            && s[j + |c|..] == rest
  {
  }

  // ------------------------------------------------------------ clock time

  function PrintClock(h: nat, m: nat, s: nat): (c: string)
    ensures |c| == 9 && c[0] == 'T'
  {
    "T" + Fixed(h, 2) + ":" + Fixed(m, 2) + ":" + Fixed(s, 2)
  }

  /** `Thh:mm:ss` at the head of s, the hour in one or two digits, and what follows it. */
  function ParseClock(s: string): Option<(nat, nat, nat, string)> {
    var k := if |s| > 2 && IsDigit(s[2]) then 3 else 2;
    if |s| < k + 6 || s[0] != 'T' || s[k] != ':' || s[k + 3] != ':' then None
    else match (Field(s, 1, k), Field(s, k + 1, k + 3), Field(s, k + 4, k + 6))
         case (Some(h), Some(m), Some(c)) =>
           if h <= 23 && m <= 59 && c <= 59 then Some((h, m, c, s[k + 6..])) else None
         case _ => None
  }

  lemma ParseClockBack(h: nat, m: nat, c: nat, rest: string)
    requires h <= 23 && m <= 59 && c <= 59
    ensures ParseClock(PrintClock(h, m, c) + rest) == Some((h, m, c, rest))
  {
    Powers();
    ThreeFields("T" + Fixed(h, 2), ':', Fixed(m, 2), ':', Fixed(c, 2), rest);
    var s := PrintClock(h, m, c) + rest;
    assert s[1..3] == s[0..3][1..] == Fixed(h, 2);
    assert s[0] == s[0..3][0] && s[2] == s[1..3][1];
    FieldIs(s, 1, 3, h, 2);
    FieldIs(s, 4, 6, m, 2);
    FieldIs(s, 7, 9, c, 2);
  }

  // ------------------------------------------------------------ fractions

  function Zeros(k: nat): (s: string)
    ensures |s| == k && AllDigits(s)
  {
    if k == 0 then "" else Zeros(k - 1) + "0"
  }

  function StripZeros(s: string): (r: string)
    ensures r <= s
  {
    if s != "" && s[|s| - 1] == '0' then StripZeros(s[..|s| - 1]) else s
  }

  /** The fraction as printed: nothing for a whole second, else without trailing zeros. */
  function PrintFraction(nano: nat): string {
    if nano == 0 then "" else "." + StripZeros(Fixed(nano, 9))
  }

  /** The leading digits of s. */
  function LeadingDigits(s: string): (d: string)
    ensures d <= s && AllDigits(d)
  {
    if s == "" || !IsDigit(s[0]) then "" else [s[0]] + LeadingDigits(s[1..])
  }

  /** Nanoseconds of fraction digits: cut after nine, padded to nine. */
  function Nanos(d: string): nat
    requires AllDigits(d)
  {
    DigitsValue(if |d| >= 9 then d[..9] else d + Zeros(9 - |d|))
  }

  /** An optional fraction at the head of s, and what follows it. */
  function ParseFraction(s: string): (nat, string) {
    if |s| >= 2 && (s[0] == '.' || s[0] == ',') && IsDigit(s[1]) then
      var d := LeadingDigits(s[1..]);
      (Nanos(d), s[1 + |d|..])
    else (0, s)
  }

  lemma {:induction false} StripPad(s: string)
    requires AllDigits(s)
    ensures StripZeros(s) + Zeros(|s| - |StripZeros(s)|) == s
  {
    if s != "" && s[|s| - 1] == '0' {
      StripPad(s[..|s| - 1]);
      assert s == s[..|s| - 1] + "0";
    }
  }

  lemma {:induction false} AllZeros(s: string)
    requires AllDigits(s) && StripZeros(s) == ""
    ensures DigitsValue(s) == 0
  {
    if s != "" { AllZeros(s[..|s| - 1]); }
  }

  lemma {:induction false} LeadingDigitsBack(d: string, rest: string)
    requires AllDigits(d) && (rest != "" ==> !IsDigit(rest[0]))
    ensures LeadingDigits(d + rest) == d
  {
    if d == "" {
      assert d + rest == rest;
    } else {
      assert (d + rest)[1..] == d[1..] + rest;
      LeadingDigitsBack(d[1..], rest);
    }
  }

  lemma ParseFractionBack(nano: nat, rest: string)
    requires nano <= 999_999_999 && rest != "" && !IsDigit(rest[0]) && rest[0] != '.' && rest[0] != ','
    ensures ParseFraction(PrintFraction(nano) + rest) == (nano, rest)
  {
    if nano == 0 {
      assert PrintFraction(nano) + rest == rest;
    } else {
      Powers();
      FixedValue(nano, 9);
      FractionDigits(Fixed(nano, 9), rest);
    }
  }

  /** Nine digits, stripped of trailing zeros, still count the same nanoseconds. */
  lemma {:induction false} NanosOfStripped(f: string)
    requires |f| == 9 && AllDigits(f)
    ensures AllDigits(StripZeros(f)) && Nanos(StripZeros(f)) == DigitsValue(f)
  {
    var d := StripZeros(f);
    StripPad(f);
    if |d| == 9 {
      assert d[..9] == d && f == d + Zeros(0) == d;
    }
  }

  /** A fraction is read up to its last digit. */
  lemma {:induction false} FractionOf(d: string, rest: string)
    requires d != "" && AllDigits(d) && (rest != "" ==> !IsDigit(rest[0]))
    ensures ParseFraction("." + d + rest) == (Nanos(d), rest)
  {
    var s := "." + d + rest;
    assert s[1..] == d + rest && s[1] == d[0];
    LeadingDigitsBack(d, rest);
    assert s[1 + |d|..] == rest;
  }

  /** Nine digits, stripped of trailing zeros, read back as their value. */
  lemma {:induction false} FractionDigits(f: string, rest: string)
    requires |f| == 9 && AllDigits(f) && DigitsValue(f) != 0 && (rest != "" ==> !IsDigit(rest[0]))
    ensures ParseFraction("." + StripZeros(f) + rest) == (DigitsValue(f), rest)
  {
    if StripZeros(f) == "" { AllZeros(f); }
    NanosOfStripped(f);
    FractionOf(StripZeros(f), rest);
  }

  // ------------------------------------------------------------ offsets

  function Magnitude(n: int): nat {
    if n < 0 then -n else n
  }

  function PrintZone(offset: int): (s: string)
    ensures s != "" && !IsDigit(s[0]) && s[0] != '.' && s[0] != ','
  {
    if offset == 0 then "Z"
    else [if offset < 0 then '-' else '+'] + Fixed(Magnitude(offset) / 60, 2) + ":" + Fixed(Magnitude(offset) % 60, 2)
  }

  /** `Z` or a signed `hh:mm`, with nothing after it. */
  function ParseZone(s: string): Option<int> {
    if s == "Z" then Some(0)
    else if |s| != 6 || (s[0] != '+' && s[0] != '-') || s[3] != ':' then None
    else match (Field(s, 1, 3), Field(s, 4, 6))
         case (Some(h), Some(m)) =>
           if h <= 24 && m <= 60 then Some(if s[0] == '-' then -((60 * h + m) as int) else 60 * h + m) else None
         case _ => None
  }

  /** An offset written as 24:60 prints as 25:00, which is not read; every other offset is. */
  lemma ParseZoneBack(offset: int)
    requires Magnitude(offset) <= MAX_OFFSET
    ensures ParseZone(PrintZone(offset)) == if Magnitude(offset) == MAX_OFFSET then None else Some(offset)
  {
    if offset != 0 {
      var s, h, m := PrintZone(offset), Magnitude(offset) / 60, Magnitude(offset) % 60;
      Powers();
      assert s[1..3] == Fixed(h, 2) && s[4..6] == Fixed(m, 2);
      FieldIs(s, 1, 3, h, 2);
      FieldIs(s, 4, 6, m, 2);
    }
  }

  // ------------------------------------------------------------ bounds

  function ParseTimestamp(s: string): Option<Stamp> {
    if |s| < 10 then None
    else match (ParseYmd(s), ParseClock(s[10..]))
         case (Some(d), Some(c)) =>
           var f := ParseFraction(c.3);
           (match ParseZone(f.1)
            case Some(z) => Some(Stamp(d.0, d.1, d.2, c.0, c.1, c.2, f.0, z))
            case None => None)
         case _ => None
  }

  function PrintTimestamp(t: Stamp): string {
    PrintDate(t.year, t.month, t.day) +
    (PrintClock(t.hour, t.minute, t.second) + (PrintFraction(t.nano) + PrintZone(t.offset)))
  }

  datatype Bound = Bound(stamp: Stamp, dateOnly: bool)

  /** A calendar date in UTC, or else a timestamp with its own offset. */
  function ParseBound(s: string): Option<Bound> {
    if |s| == 10 && ParseYmd(s).Some? then
      var d := ParseYmd(s).value; Some(Bound(Stamp(d.0, d.1, d.2, 0, 0, 0, 0, 0), true))
    else match ParseTimestamp(s)
         case Some(t) => Some(Bound(t, false))
         case None => None
  }

  /** The form the input used. */
  function Canonical(b: Bound): string {
    if b.dateOnly then PrintDate(b.stamp.year, b.stamp.month, b.stamp.day) else PrintTimestamp(b.stamp)
  }

  ghost predicate ValidBound(b: Bound) {
    ValidStamp(b.stamp) && (b.dateOnly ==> b.stamp == Stamp(b.stamp.year, b.stamp.month, b.stamp.day, 0, 0, 0, 0, 0))
  }

  lemma FractionInRange(s: string)
    ensures ParseFraction(s).0 <= 999_999_999
  {
    if |s| >= 2 && (s[0] == '.' || s[0] == ',') && IsDigit(s[1]) {
      var d := LeadingDigits(s[1..]);
      Powers();
      ValueBound(if |d| >= 9 then d[..9] else d + Zeros(9 - |d|));
    }
  }

  lemma ParsedIsValid(s: string)
    ensures ParseBound(s).Some? ==> ValidBound(ParseBound(s).value)
  {
    if |s| >= 10 && ParseClock(s[10..]).Some? { FractionInRange(ParseClock(s[10..]).value.3); }
  }

  /** The one family of timestamps whose echo is not read back. */
  predicate Overlong(b: Bound) {
    Magnitude(b.stamp.offset) == MAX_OFFSET
  }

  lemma ParseTimestampBack(t: Stamp)
    requires ValidStamp(t)
    ensures ParseTimestamp(PrintTimestamp(t)) == if Magnitude(t.offset) == MAX_OFFSET then None else Some(t)
  {
    var zone := PrintZone(t.offset);
    var fz := PrintFraction(t.nano) + zone;
    var d, c := PrintDate(t.year, t.month, t.day), PrintClock(t.hour, t.minute, t.second);
    var s := d + (c + fz);
    ParseYmdBack(t.year, t.month, t.day, c + fz);
    ParseClockBack(t.hour, t.minute, t.second, fz);
    ParseFractionBack(t.nano, zone);
    ParseZoneBack(t.offset);
    assert s[10..] == c + fz;
  }

  /** Printing a parsed bound and parsing it again gives the same instant in the same form, if and
      only if its offset was not written as 24:60. */
  lemma CanonicalReadsBack(b: Bound)
    requires ValidBound(b)
    ensures ParseBound(Canonical(b)) == if Overlong(b) then None else Some(b)
  {
    if b.dateOnly {
      ParseYmdBack(b.stamp.year, b.stamp.month, b.stamp.day, "");
      assert Canonical(b) + "" == Canonical(b);
    } else {
      ParseTimestampBack(b.stamp);
    }
  }

  // ------------------------------------------------------------ instants

  const DAY := 86400 * 1_000_000_000
  const MINUTE := 60 * 1_000_000_000

  function DaysBeforeMonth(month: nat, year: nat): nat {
    if month <= 1 then 0 else DaysBeforeMonth(month - 1, year) + DaysIn(month - 1, year)
  }

  /** Days from the first day of year 1, in the proleptic Gregorian calendar. */
  function DayNumber(y: nat, m: nat, d: nat): int {
    365 * (y - 1) + (y - 1) / 4 - (y - 1) / 100 + (y - 1) / 400 + DaysBeforeMonth(m, y) + d - 1
  }

  function NextDate(y: nat, m: nat, d: nat): (nat, nat, nat) {
    if d < DaysIn(m, y) then (y, m, d + 1) else if m < 12 then (y, m + 1, 1) else (y + 1, 1, 1)
  }

  lemma DaysOfYear(y: nat)
    ensures DaysBeforeMonth(12, y) == if LeapYear(y) then 335 else 334
  {
    var f := if LeapYear(y) then 1 else 0;
    assert DaysBeforeMonth(2, y) == 31;
    assert DaysBeforeMonth(3, y) == 59 + f;
    assert DaysBeforeMonth(4, y) == 90 + f;
    assert DaysBeforeMonth(5, y) == 120 + f;
    assert DaysBeforeMonth(6, y) == 151 + f;
    assert DaysBeforeMonth(7, y) == 181 + f;
    assert DaysBeforeMonth(8, y) == 212 + f;
    assert DaysBeforeMonth(9, y) == 243 + f;
    assert DaysBeforeMonth(10, y) == 273 + f;
    assert DaysBeforeMonth(11, y) == 304 + f;
  }

  lemma Multiples(y: nat, n: nat)
    requires n > 1
    ensures y / n - (y - 1) / n == if y % n == 0 then 1 else 0
  {
    var q := y / n;
    var low := if y % n == 0 then q - 1 else q;
    assert low * n == if y % n == 0 then q * n - n else q * n;
    Quotient(y - 1, n, low);
  }

  lemma Quotient(a: int, n: nat, q: int)
    requires n > 0 && q * n <= a < q * n + n
    ensures a / n == q
  {
    var d := a / n - q;
    assert (a / n) * n == q * n + d * n;
    assert d >= 1 ==> d * n >= n;
    assert d <= -1 ==> d * n + n <= 0;
  }

  lemma MultipleOf(y: nat, n: nat, q: nat)
    requires n > 0 && y == q * n
    ensures y % n == 0
  {
    Quotient(y, n, q);
    assert y == (y / n) * n + y % n;
  }

  lemma Centuries(y: nat)
    ensures y % 100 == 0 ==> y % 4 == 0
    ensures y % 400 == 0 ==> y % 100 == 0
  {
    if y % 100 == 0 { MultipleOf(y, 4, 25 * (y / 100)); }
    if y % 400 == 0 { MultipleOf(y, 100, 4 * (y / 400)); }
  }

  lemma LeapDays(y: nat)
    ensures (y / 4 - y / 100 + y / 400) - ((y - 1) / 4 - (y - 1) / 100 + (y - 1) / 400) == if LeapYear(y) then 1 else 0
  {
    Multiples(y, 4);
    Multiples(y, 100);
    Multiples(y, 400);
    Centuries(y);
  }

  /** Day numbers count days: the next calendar date, across months and leap years, is one more. */
  lemma NextDateIsNextDay(y: nat, m: nat, d: nat)
    requires ValidDate(y, m, d)
    ensures var n := NextDate(y, m, d); DayNumber(n.0, n.1, n.2) == DayNumber(y, m, d) + 1
  {
    if d == DaysIn(m, y) && m == 12 {
      DaysOfYear(y);
      LeapDays(y);
    }
  }

  /** Nanoseconds since the Unix epoch. */
  function InstantOf(t: Stamp): int {
    (DayNumber(t.year, t.month, t.day) - 719162) * DAY
    + (60 * t.hour + t.minute - t.offset) * MINUTE + t.second * 1_000_000_000 + t.nano
  }

  function AddDay(t: Stamp): Stamp {
    var n := NextDate(t.year, t.month, t.day);
    t.(year := n.0, month := n.1, day := n.2)
  }

  /** The same clock time on the next calendar date is 24 hours later. */
  lemma NextDayIsDayLater(t: Stamp)
    requires ValidStamp(t)
    ensures InstantOf(AddDay(t)) == InstantOf(t) + DAY
  {
    NextDateIsNextDay(t.year, t.month, t.day);
  }

  lemma MonthStart(m: nat, y: nat)
    requires 1 <= m <= 12
    ensures DaysBeforeMonth(m, y) + DaysIn(m, y) <= 366 && (m >= 2 ==> DaysBeforeMonth(m, y) >= 31)
  {
    DaysOfYear(y);
    MonthsAdd(m, 12, y);
    if m >= 2 { MonthsAdd(2, m, y); }
  }

  /** Later months start later, by at least the days of the earlier one. */
  lemma {:induction false} MonthsAdd(m: nat, n: nat, y: nat)
    requires 1 <= m <= n
    ensures m < n ==> DaysBeforeMonth(m, y) + DaysIn(m, y) <= DaysBeforeMonth(n, y)
  {
    if m + 1 < n { MonthsAdd(m, n - 1, y); }
  }

  // ------------------------------------------------------------ the zero instant

  /** The wall clock of t, `later` days on, is ahead of midnight of 0001-01-01 by exactly its offset. */
  predicate AtZero(t: Stamp, later: int) {
    && t.second == 0 && t.nano == 0
    && 1440 * (DayNumber(t.year, t.month, t.day) + later) + 60 * t.hour + t.minute == t.offset
  }

  /** An instant, some days on, is Go's zero time exactly when wall clock minus offset says so. */
  lemma ZeroInstantExactly(t: Stamp, later: int)
    requires ValidStamp(t)
    ensures InstantOf(t) + later * DAY == ZERO_TIME <==> AtZero(t, later)
  {
    var day := DayNumber(t.year, t.month, t.day);
    var minutes := 1440 * (day + later) + 60 * t.hour + t.minute - t.offset;
    InMinutes(t, later, day, minutes);
  }

  lemma InMinutes(t: Stamp, later: int, day: int, minutes: int)
    requires day == DayNumber(t.year, t.month, t.day)
    requires minutes == 1440 * (day + later) + 60 * t.hour + t.minute - t.offset
    ensures InstantOf(t) + later * DAY - ZERO_TIME == minutes * MINUTE + t.second * 1_000_000_000 + t.nano
  {
    assert DAY == 1440 * MINUTE && ZERO_TIME == -719162 * DAY;
  }

  /** Day number -1 is the last day of year 0, day number 0 the first of year 1. */
  lemma DayZero(y: nat, m: nat, d: nat)
    requires ValidDate(y, m, d)
    ensures DayNumber(y, m, d) == 0 <==> y == m == d == 1
    ensures DayNumber(y, m, d) == -1 <==> y == 0 && m == 12 && d == 31
  {
    MonthStart(m, y);
    DaysOfYear(y);
    if y == 0 {
      assert DayNumber(y, m, d) == -366 + DaysBeforeMonth(m, y) + d - 1;
      MonthsAdd(m, 12, y);
    } else if y >= 2 {
      assert (y - 1) / 4 >= (y - 1) / 100;
    }
  }

  predicate OnDay(t: Stamp, y: nat, m: nat, d: nat) {
    t.year == y && t.month == m && t.day == d
  }

  /** A bare date is at zero on 0001-01-01, and the day after it is on 0000-12-31. */
  lemma BareDateAtZero(b: Bound)
    requires ValidBound(b) && b.dateOnly
    ensures AtZero(b.stamp, 0) <==> OnDay(b.stamp, 1, 1, 1)
    ensures AtZero(b.stamp, 1) <==> OnDay(b.stamp, 0, 12, 31)
  {
    DayZero(b.stamp.year, b.stamp.month, b.stamp.day);
  }

  // ------------------------------------------------------------ the filter

  datatype Range = Range(date: string, from: string, to: string)
  datatype Interval = Interval(from: int, to: int, ok: bool)

  /** A bound's canonical echo, or nothing when it does not parse. */
  function Echo(s: string): string {
    match ParseBound(s)
    case Some(b) => Canonical(b)
    case None => ""
  }

  function StartOf(s: string): int {
    match ParseBound(s)
    case Some(b) => InstantOf(b.stamp)
    case None => ZERO_TIME
  }

  /** A bare end date includes its whole day. */
  function EndOf(s: string): int {
    match ParseBound(s)
    case Some(b) => InstantOf(b.stamp) + if b.dateOnly then DAY else 0
    case None => ZERO_TIME
  }

  /** The end of the day is the start of the next calendar date. */
  lemma WholeDay(s: string)
    ensures ParseBound(s).Some? && ParseBound(s).value.dateOnly ==>
              EndOf(s) == InstantOf(AddDay(ParseBound(s).value.stamp))
  {
    ParsedIsValid(s);
    if ParseBound(s).Some? { NextDayIsDayLater(ParseBound(s).value.stamp); }
  }

  function Sanitised(r: Range): Range {
    if ParseBound(r.date).Some? then Range(Echo(r.date), "", "") else Range("", Echo(r.from), Echo(r.to))
  }

  function IntervalOf(r: Range): Interval {
    if ParseBound(r.date).Some? then Interval(StartOf(r.date), StartOf(r.date) + DAY, true)
    else Interval(StartOf(r.from), EndOf(r.to), ParseBound(r.from).Some? || ParseBound(r.to).Some?)
  }

  // ------------------------------------------------------------ bounds that are dropped

  /** The bound in use on each side, and how many days its side lies after it. */
  function LowerIn(r: Range): Option<Bound> {
    if ParseBound(r.date).Some? then ParseBound(r.date) else ParseBound(r.from)
  }

  function UpperIn(r: Range): Option<Bound> {
    if ParseBound(r.date).Some? then ParseBound(r.date) else ParseBound(r.to)
  }

  function DaysAfter(r: Range): int {
    if ParseBound(r.date).Some? || (ParseBound(r.to).Some? && ParseBound(r.to).value.dateOnly) then 1 else 0
  }

  /** The instants the request asks for. */
  function LowerAsked(r: Range): Option<int> {
    if LowerIn(r).Some? then Some(InstantOf(LowerIn(r).value.stamp)) else None
  }

  function UpperAsked(r: Range): Option<int> {
    if UpperIn(r).Some? then Some(InstantOf(UpperIn(r).value.stamp) + DaysAfter(r) * DAY) else None
  }

  /** The inputs whose bound falls on Go's zero time, which the query builder takes for no bound. */
  predicate DropsLower(r: Range) {
    LowerIn(r).Some? && AtZero(LowerIn(r).value.stamp, 0)
  }

  predicate DropsUpper(r: Range) {
    UpperIn(r).Some? && AtZero(UpperIn(r).value.stamp, DaysAfter(r))
  }

  /** For every range: the interval is used when some bound parses, each of its sides is the instant
      asked for, and a side is left open exactly when its bound is missing or falls on the zero instant. */
  lemma BoundsUsedExactly(r: Range)
    ensures var i := IntervalOf(r);
            && (i.ok <==> LowerAsked(r).Some? || UpperAsked(r).Some?)
            && (LowerAsked(r).Some? ==> i.from == LowerAsked(r).value)
            && (UpperAsked(r).Some? ==> i.to == UpperAsked(r).value)
            && (i.from == ZERO_TIME <==> LowerAsked(r).None? || DropsLower(r))
            && (i.to == ZERO_TIME <==> UpperAsked(r).None? || DropsUpper(r))
  {
    InUseValid(r);
    if LowerIn(r).Some? { ZeroInstantExactly(LowerIn(r).value.stamp, 0); }
    if UpperIn(r).Some? { ZeroInstantExactly(UpperIn(r).value.stamp, DaysAfter(r)); }
  }

  /** Which fields count: a date that parses is a day of 24 hours from its instant, whatever the other two
      say; one that does not is as if it were not there, and then each of the others stands alone. */
  lemma FieldsMean(r: Range)
    ensures ParseBound(r.date).Some? ==>
              var start := InstantOf(ParseBound(r.date).value.stamp);
              IntervalOf(r) == Interval(start, start + 86_400_000_000_000, true)
    ensures ParseBound(r.date).None? && ParseBound(r.from).Some? ==>
              IntervalOf(r).ok && IntervalOf(r).from == InstantOf(ParseBound(r.from).value.stamp)
    ensures ParseBound(r.date).None? && ParseBound(r.to).Some? ==>
              var b := ParseBound(r.to).value;
              IntervalOf(r).ok && IntervalOf(r).to == InstantOf(b.stamp) + if b.dateOnly then 86_400_000_000_000 else 0
    ensures ParseBound(r.date).None? && ParseBound(r.from).None? && ParseBound(r.to).None? ==> !IntervalOf(r).ok
  {
    BoundsUsedExactly(r);
  }

  /** What is echoed: a field that does not count is cleared, and one that counts is echoed as a text that
      means the same, or, for the offset 24:60, as one that means nothing. */
  lemma EchoMeans(r: Range)
    ensures ParseBound(r.date).Some? ==> Sanitised(r).from == Sanitised(r).to == ""
    ensures ParseBound(r.date).None? ==> Sanitised(r).date == ""
    ensures ParseBound(r.date).None? && ParseBound(r.from).None? ==> Sanitised(r).from == ""
    ensures ParseBound(r.date).None? && ParseBound(r.to).None? ==> Sanitised(r).to == ""
    ensures Replayable(r) ==> ParseBound(Sanitised(r).date) == ParseBound(r.date)
    ensures Replayable(r) && ParseBound(r.date).None? ==>
              ParseBound(Sanitised(r).from) == ParseBound(r.from) && ParseBound(Sanitised(r).to) == ParseBound(r.to)
  {
    EchoIsStable(r.date);
    EchoIsStable(r.from);
    EchoIsStable(r.to);
  }

  /** Among bare dates these are: 0001-01-01 as start, 0000-12-31 as end, and for a whole day
      0001-01-01 below and 0000-12-31 above. */
  lemma BareDatesDropped(r: Range)
    ensures LowerIn(r).Some? && LowerIn(r).value.dateOnly ==>
              (DropsLower(r) <==> OnDay(LowerIn(r).value.stamp, 1, 1, 1))
    ensures UpperIn(r).Some? && UpperIn(r).value.dateOnly ==>
              (DropsUpper(r) <==> OnDay(UpperIn(r).value.stamp, 0, 12, 31))
  {
    InUseValid(r);
    if LowerIn(r).Some? && LowerIn(r).value.dateOnly { BareDateAtZero(LowerIn(r).value); }
    if UpperIn(r).Some? && UpperIn(r).value.dateOnly { BareDateAtZero(UpperIn(r).value); }
  }

  lemma InUseValid(r: Range)
    ensures LowerIn(r).Some? ==> ValidBound(LowerIn(r).value)
    ensures UpperIn(r).Some? ==> ValidBound(UpperIn(r).value)
  {
    ParsedIsValid(r.date);
    ParsedIsValid(r.from);
    ParsedIsValid(r.to);
  }

  /** Timestamps reach it from either side: 0001-01-01T05:00:00+05:00, 0000-12-31T19:00:00-05:00. */
  lemma TimestampsAtZero(offset: int)
    requires -1440 <= offset <= 1439
    ensures offset >= 0 ==> AtZero(Stamp(1, 1, 1, offset / 60, offset % 60, 0, 0, offset), 0)
    ensures offset < 0 ==> AtZero(Stamp(0, 12, 31, (offset + 1440) / 60, offset % 60, 0, 0, offset), 0)
  {
    DayZero(1, 1, 1);
    DayZero(0, 12, 31);
  }

  lemma LastDigit(n: nat, k: nat)
    requires k >= 1
    ensures Fixed(n, k) == Fixed(n / 10, k - 1) + [DigitChar(n % 10)]
  {
  }

  lemma TwoDigits(n: nat, k: nat)
    requires k == 2
    ensures Fixed(n, k) == [DigitChar(n / 10 % 10), DigitChar(n % 10)]
  {
    LastDigit(n, k);
    LastDigit(n / 10, k - 1);
    assert Fixed(n / 10 / 10, 0) == "";
  }

  lemma FourDigits(n: nat, k: nat)
    requires k == 4
    ensures Fixed(n, k) == Fixed(n / 10 / 10, 2) + [DigitChar(n / 10 % 10), DigitChar(n % 10)]
  {
    LastDigit(n, k);
    LastDigit(n / 10, k - 1);
  }

  /** How 0000-12-31 is read. */
  lemma YearZeroParsed(to: string, y: nat, m: nat, d: nat)
    requires to == "0000-12-31" && y == 0 && m == 12 && d == 31
    ensures ParseBound(to) == Some(Bound(Stamp(y, m, d, 0, 0, 0, 0, 0), true))
  {
    FourDigits(y, 4);
    TwoDigits(y / 10 / 10, 2);
    TwoDigits(m, 2);
    TwoDigits(d, 2);
    assert PrintDate(y, m, d) == to;
    ParseYmdBack(y, m, d, "");
    assert to + "" == to;
  }

  /** A range that asks only for an end, 0000-12-31, is accepted, and its end is dropped. */
  lemma EndDateDropped(to: string)
    requires to == "0000-12-31"
    ensures IntervalOf(Range("", "", to)) == Interval(ZERO_TIME, ZERO_TIME, true)
    ensures UpperAsked(Range("", "", to)) == Some(ZERO_TIME) && LowerAsked(Range("", "", to)).None?
    ensures DropsUpper(Range("", "", to))
  {
    YearZeroParsed(to, 0, 12, 31);
    OnlyEnd(Range("", "", to));
  }

  lemma OnlyEnd(r: Range)
    requires ParseBound(r.date).None? && ParseBound(r.from).None? && ParseBound(r.to).Some?
    requires ParseBound(r.to).value.dateOnly && OnDay(ParseBound(r.to).value.stamp, 0, 12, 31)
    ensures IntervalOf(r) == Interval(ZERO_TIME, ZERO_TIME, true)
    ensures UpperAsked(r) == Some(ZERO_TIME) && LowerAsked(r).None? && DropsUpper(r)
  {
    BareDatesDropped(r);
    BoundsUsedExactly(r);
  }

  /** The request fields, sanitised in place. */
  class DateRange {
    var date: string
    var from: string
    var to: string

    ghost function View(): Range
      reads this
    {
      Range(date, from, to)
    }

    constructor (r: Range)
      ensures View() == r
    {
      date, from, to := r.date, r.from, r.to;
    }

    method Bounds() returns (lo: int, hi: int, ok: bool)
      modifies this
      ensures View() == Sanitised(old(View()))
      ensures Interval(lo, hi, ok) == IntervalOf(old(View()))
    {
      lo, hi, ok := ZERO_TIME, ZERO_TIME, false;
      if date != "" {
        var b := ParseBound(date);
        if b.Some? {
          date, from, to := Canonical(b.value), "", "";
          var t := InstantOf(b.value.stamp);
          return t, t + DAY, true;
        }
        date := "";
      }
      if from != "" {
        var b := ParseBound(from);
        if b.Some? {
          lo, ok := InstantOf(b.value.stamp), true;
          from := Canonical(b.value);
        } else {
          from := "";
        }
      }
      if to != "" {
        WholeDay(to);
        var b := ParseBound(to);
        if b.Some? {
          hi := InstantOf(b.value.stamp);
          if b.value.dateOnly {
            hi := InstantOf(AddDay(b.value.stamp));
          }
          ok := true;
          to := Canonical(b.value);
        } else {
          to := "";
        }
      }
    }
  }

  /** The bound parses, and its echo does not. */
  predicate EchoLost(s: string) {
    ParseBound(s).Some? && Overlong(ParseBound(s).value)
  }

  lemma EchoIsStable(s: string)
    ensures if EchoLost(s) then ParseBound(Echo(s)).None? else ParseBound(Echo(s)) == ParseBound(s)
    ensures ParseBound(s).Some? ==> Echo(s) != ""
  {
    ParsedIsValid(s);
    if ParseBound(s).Some? { CanonicalReadsBack(ParseBound(s).value); }
  }

  lemma DigitPair(s: string, i: nat)
    requires i + 2 <= |s| && IsDigit(s[i]) && IsDigit(s[i + 1])
    ensures Field(s, i, i + 2) == Some(10 * DigitsValue([s[i]]) + DigitsValue([s[i + 1]]))
  {
    var f := s[i..i + 2];
    assert f[..1] == [s[i]];
  }

  lemma OverlongZone()
    ensures ParseZone("+24:60") == Some(MAX_OFFSET)
  {
    var zone := "+24:60";
    DigitPair(zone, 1);
    DigitPair(zone, 4);
    assert DigitsValue("2") == 2 && DigitsValue("4") == 4 && DigitsValue("6") == 6 && DigitsValue("0") == 0;
  }

  /** Any date and time, with any fraction, written with the offset +24:60 is echoed as +25:00, which
      is dropped when it is sent again. */
  lemma OverlongEchoLost(t: Stamp)
    requires ValidStamp(t)
    ensures EchoLost(PrintDate(t.year, t.month, t.day) +
                     (PrintClock(t.hour, t.minute, t.second) + (PrintFraction(t.nano) + "+24:60")))
  {
    var zone := "+24:60";
    var f := PrintFraction(t.nano) + zone;
    var c := PrintClock(t.hour, t.minute, t.second) + f;
    var s := PrintDate(t.year, t.month, t.day) + c;
    OverlongZone();
    ParseYmdBack(t.year, t.month, t.day, c);
    ParseClockBack(t.hour, t.minute, t.second, f);
    ParseFractionBack(t.nano, zone);
    assert s[10..] == c;
  }

  /** No bound in use has the offset 24:60. */
  predicate Replayable(r: Range) {
    if ParseBound(r.date).Some? then !EchoLost(r.date) else !EchoLost(r.from) && !EchoLost(r.to)
  }

  /** Sending the echoed filter again asks for the same interval and is echoed unchanged, if and
      only if no bound in use was written with the offset 24:60. */
  lemma RangeReplaysExactly(r: Range)
    ensures Sanitised(Sanitised(r)) == Sanitised(r) <==> Replayable(r)
    ensures IntervalOf(Sanitised(r)) == IntervalOf(r) || !Replayable(r)
  {
    EchoIsStable(r.date);
    EchoIsStable(r.from);
    EchoIsStable(r.to);
  }
}

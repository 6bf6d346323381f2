/**
 What the text of a date bound means, told from the text itself: which digits are which part of the
 instant, and that among UTC timestamps the order of the texts is the order of the instants.
 */
module DateTexts {
  import opened Options
  import opened Decimal
  import opened DateBounds

  // ------------------------------------------------------------ what each digit stands for

  /** The digits s[i..j] read as n. */
  predicate Reads(s: string, i: nat, j: nat, n: nat) {
    i < j <= |s| && AllDigits(s[i..j]) && n == DigitsValue(s[i..j])
  }

  /** A bare date is its year, month and day, at midnight UTC. */
  lemma DateMeans(s: string)
    requires ParseBound(s).Some? && ParseBound(s).value.dateOnly
    ensures var t := ParseBound(s).value.stamp;
            && |s| == 10 && s[4] == s[7] == '-'
            && Reads(s, 0, 4, t.year) && Reads(s, 5, 7, t.month) && Reads(s, 8, 10, t.day)
            && t == Stamp(t.year, t.month, t.day, 0, 0, 0, 0, 0)
  {
  }

  /** Where the clock's hour ends: it has one digit or two. */
  function HourEnd(s: string): nat {
    if |s| > 12 && IsDigit(s[12]) then 13 else 12
  }

  /** Where the offset starts. */
  function ZoneStart(s: string): int {
    if s != "" && s[|s| - 1] == 'Z' then |s| - 1 else |s| - 6
  }

  /** Year, month and day, then after a `T` hour, minute and second, between fixed separators. */
  predicate ReadsClock(s: string, t: Stamp) {
    var k := HourEnd(s);
    && |s| >= k + 6 && s[4] == s[7] == '-' && s[10] == 'T' && s[k] == s[k + 3] == ':'
    && Reads(s, 0, 4, t.year) && Reads(s, 5, 7, t.month) && Reads(s, 8, 10, t.day)
    && Reads(s, 11, k, t.hour) && Reads(s, k + 1, k + 3, t.minute) && Reads(s, k + 4, k + 6, t.second)
  }

  /** `Z`, or a sign, hours and minutes: east of Greenwich for a plus. */
  predicate ReadsZone(s: string, t: Stamp) {
    var z := ZoneStart(s);
    0 <= z < |s| && if s[z] == 'Z' then z == |s| - 1 && t.offset == 0
                    else && z == |s| - 6 && (s[z] == '+' || s[z] == '-') && s[z + 3] == ':'
                         && AllDigits(s[z + 1..z + 3]) && AllDigits(s[z + 4..])
                         && DigitsValue(s[z + 1..z + 3]) <= 24 && DigitsValue(s[z + 4..]) <= 60
                         && var east := 60 * DigitsValue(s[z + 1..z + 3]) + DigitsValue(s[z + 4..]);
                         t.offset == if s[z] == '+' then east else -east
  }

  /** The digits after the seconds are a decimal fraction, cut to whole nanoseconds. */
  predicate ReadsFraction(s: string, t: Stamp) {
    var f, z := HourEnd(s) + 6, ZoneStart(s);
    f <= z <= |s| && if f == z then t.nano == 0
                     else && f + 1 < z && (s[f] == '.' || s[f] == ',') && AllDigits(s[f + 1..z])
                          && IsCut(s[f + 1..z], t.nano)
  }

  /** nano / 10^9 is the fraction 0.d, rounded down to a multiple of 10^-9. */
  predicate IsCut(d: string, nano: nat)
    requires AllDigits(d)
  {
    nano * Power10(|d|) <= DigitsValue(d) * 1_000_000_000 < (nano + 1) * Power10(|d|)
  }

  lemma {:induction false} PowersAdd(a: nat, b: nat)
    ensures Power10(a + b) == Power10(a) * Power10(b)
  {
    if a > 0 {
      PowersAdd(a - 1, b);
      TenTimes(Power10(b), Power10(a - 1));
    }
  }

  lemma TenTimes(a: nat, p: nat)
    ensures 10 * (a * p) == a * (10 * p)
  {
  }

  lemma {:induction false} ValueSplits(a: string, b: string)
    requires AllDigits(a) && AllDigits(b)
    ensures AllDigits(a + b) && DigitsValue(a + b) == DigitsValue(a) * Power10(|b|) + DigitsValue(b)
  {
    if b == "" {
      assert a + b == a;
    } else {
      var front := b[..|b| - 1];
      assert (a + b)[..|a + b| - 1] == a + front;
      ValueSplits(a, front);
      TenTimes(DigitsValue(a), Power10(|front|));
    }
  }

  lemma {:induction false} ZerosValue(k: nat)
    ensures DigitsValue(Zeros(k)) == 0
  {
    if k > 0 {
      ZerosValue(k - 1);
      assert Zeros(k)[..k - 1] == Zeros(k - 1);
    }
  }

  lemma NanosCut(d: string)
    requires AllDigits(d)
    ensures IsCut(d, Nanos(d))
  {
    Powers();
    if |d| >= 9 {
      var head, tail := d[..9], d[9..];
      assert d == head + tail;
      ValueSplits(head, tail);
      ValueBound(tail);
      PowersAdd(9, |tail|);
      CutScales(DigitsValue(head), DigitsValue(tail), Power10(|tail|));
    } else {
      var k := 9 - |d|;
      ValueSplits(d, Zeros(k));
      ZerosValue(k);
      PowersAdd(k, |d|);
      PadScales(DigitsValue(d), Power10(k), Power10(|d|));
    }
  }

  lemma CutScales(head: nat, tail: nat, p: nat)
    requires tail < p
    ensures head * (1_000_000_000 * p) <= (head * p + tail) * 1_000_000_000 < (head + 1) * (1_000_000_000 * p)
  {
    assert head * (1_000_000_000 * p) == (head * p) * 1_000_000_000;
    assert (head + 1) * (1_000_000_000 * p) == (head * p) * 1_000_000_000 + p * 1_000_000_000;
  }

  lemma PadScales(v: nat, pad: nat, p: nat)
    requires pad * p == 1_000_000_000 && p > 0
    ensures (v * pad) * p == v * 1_000_000_000 < (v * pad + 1) * p
  {
    assert (v * pad) * p == v * (pad * p);
    assert (v * pad + 1) * p == (v * pad) * p + p;
  }

  /** A fraction reads to the first character that is not a digit. */
  lemma FractionEnds(r: string)
    ensures var f := ParseFraction(r);
            |f.1| <= |r| && f.1 == r[|r| - |f.1|..] &&
            if f.1 == r then f.0 == 0
            else var n := |r| - |f.1|;
                 n > 1 && (r[0] == '.' || r[0] == ',') && AllDigits(r[1..n]) && f.0 == Nanos(r[1..n])
  {
    if |r| >= 2 && (r[0] == '.' || r[0] == ',') && IsDigit(r[1]) {
      var d := LeadingDigits(r[1..]);
      assert d != "" && r[1..1 + |d|] == d;
    }
  }

  lemma ClockMeans(s: string)
    requires ParseTimestamp(s).Some?
    ensures ReadsClock(s, ParseTimestamp(s).value)
    ensures ParseClock(s[10..]).Some? && ParseClock(s[10..]).value.3 == s[HourEnd(s) + 6..]
  {
    var c := s[10..];
    var k := HourEnd(s);
    assert |c| > 2 ==> c[2] == s[12];
    assert c[0] == s[10] && c[k - 10] == s[k] && c[k - 7] == s[k + 3];
    assert c[1..k - 10] == s[11..k] && c[k - 9..k - 7] == s[k + 1..k + 3] && c[k - 6..k - 4] == s[k + 4..k + 6];
    assert c[k - 4..] == s[k + 6..];
  }

  lemma ZoneMeans(s: string, z: nat, t: Stamp)
    requires z <= |s| && ParseZone(s[z..]) == Some(t.offset)
    ensures ZoneStart(s) == z && ReadsZone(s, t)
  {
    var r := s[z..];
    assert r[|r| - 1] == s[|s| - 1] && r[0] == s[z];
    if r != "Z" {
      assert r[3] == s[z + 3] && r[1..3] == s[z + 1..z + 3] && r[4..6] == s[z + 4..];
      assert r[5] == r[4..6][1];
    }
  }

  /** Every accepted timestamp means what its digits say. */
  lemma TimestampMeans(s: string)
    requires ParseBound(s).Some? && !ParseBound(s).value.dateOnly
    ensures var t := ParseBound(s).value.stamp; ReadsClock(s, t) && ReadsZone(s, t) && ReadsFraction(s, t)
  {
    ClockMeans(s);
    TailMeans(s, HourEnd(s) + 6, ParseBound(s).value.stamp);
  }

  /** What follows the seconds: a fraction, and then the offset. */
  lemma TailMeans(s: string, f: nat, t: Stamp)
    requires f == HourEnd(s) + 6 <= |s|
    requires var r := ParseFraction(s[f..]); t.nano == r.0 && ParseZone(r.1) == Some(t.offset)
    ensures ReadsZone(s, t) && ReadsFraction(s, t)
  {
    var r := s[f..];
    FractionEnds(r);
    var z := |s| - |ParseFraction(r).1|;
    SliceOf(s, f, z - f, |r|);
    ZoneMeans(s, z, t);
    if z > f {
      SliceOf(s, f, 1, z - f);
      FractionMeans(s, f, z, t);
    }
  }

  lemma FractionMeans(s: string, f: nat, z: nat, t: Stamp)
    requires f == HourEnd(s) + 6 && z == ZoneStart(s) && f + 1 < z <= |s| && (s[f] == '.' || s[f] == ',')
    requires AllDigits(s[f + 1..z]) && t.nano == Nanos(s[f + 1..z])
    ensures ReadsFraction(s, t)
  {
    NanosCut(s[f + 1..z]);
  }

  lemma SliceOf(s: string, f: nat, i: nat, j: nat)
    requires f <= |s| && i <= j <= |s| - f
    ensures s[f..][i..j] == s[f + i..f + j] && (i < |s| - f ==> s[f..][0] == s[f])
    ensures j == |s| - f ==> s[f..][i..] == s[f + i..]
  {
  }

  /** A date and a time of day that exist. */
  predicate OnClock(t: Stamp) {
    ValidDate(t.year, t.month, t.day) && t.hour <= 23 && t.minute <= 59 && t.second <= 59
  }

  lemma ClockReads(s: string, t: Stamp)
    requires ReadsClock(s, t) && OnClock(t)
    ensures ParseYmd(s) == Some((t.year, t.month, t.day))
    ensures ParseClock(s[10..]) == Some((t.hour, t.minute, t.second, s[HourEnd(s) + 6..]))
  {
    var c := s[10..];
    var k := HourEnd(s);
    assert c[2] == s[12] && c[0] == s[10] && c[k - 10] == s[k] && c[k - 7] == s[k + 3];
    assert c[1..k - 10] == s[11..k] && c[k - 9..k - 7] == s[k + 1..k + 3] && c[k - 6..k - 4] == s[k + 4..k + 6];
    assert c[k - 4..] == s[k + 6..];
  }

  lemma ZoneReads(s: string, t: Stamp)
    requires ReadsZone(s, t)
    ensures ParseZone(s[ZoneStart(s)..]) == Some(t.offset)
    ensures var z := ZoneStart(s); s[z] == 'Z' || s[z] == '+' || s[z] == '-'
  {
    var z := ZoneStart(s);
    var r := s[z..];
    if s[z] == 'Z' {
      assert r == "Z";
    } else {
      assert r[0] == s[z] && r[3] == s[z + 3] && r[1..3] == s[z + 1..z + 3] && r[4..6] == s[z + 4..];
    }
  }

  /** A fraction is cut in one way only. */
  lemma OneCut(d: string, a: nat, b: nat)
    requires AllDigits(d) && IsCut(d, a) && IsCut(d, b)
    ensures a == b
  {
    var p := Power10(|d|);
    if a < b { Steps(a, b, p); } else if b < a { Steps(b, a, p); }
  }

  lemma Steps(a: nat, b: nat, p: nat)
    requires a < b
    ensures (a + 1) * p <= b * p
  {
  }

  lemma FractionReads(s: string, t: Stamp)
    requires ReadsFraction(s, t) && ReadsZone(s, t)
    ensures ParseFraction(s[HourEnd(s) + 6..]) == (t.nano, s[ZoneStart(s)..])
  {
    var f, z := HourEnd(s) + 6, ZoneStart(s);
    ZoneReads(s, t);
    assert s[f..][0] == s[f];
    if f < z {
      var d := s[f + 1..z];
      NanosCut(d);
      OneCut(d, Nanos(d), t.nano);
      FractionReadsDigits(s, f, z, d);
    }
  }

  lemma FractionReadsDigits(s: string, f: nat, z: nat, d: string)
    requires f + 1 < z < |s| && d == s[f + 1..z] && AllDigits(d) && (s[f] == '.' || s[f] == ',') && !IsDigit(s[z])
    ensures ParseFraction(s[f..]) == (Nanos(d), s[z..])
  {
    var r, rest := s[f..], s[z..];
    assert r[0] == s[f] && r[1] == d[0] && rest[0] == s[z];
    assert r[1..] == d + rest && r[1 + |d|..] == rest;
    LeadingDigitsBack(d, rest);
  }

  /**
   Exactly the texts that are accepted as a timestamp, and what each means: date and time of day that
   exist, in their places, the hour in one digit or two; then, if anything, a point or a comma and the
   digits of a fraction; then Z or a signed offset of at most 24 hours and 60 minutes.
   */
  lemma TimestampExactly(s: string, t: Stamp)
    ensures ParseBound(s) == Some(Bound(t, false)) <==>
            ReadsClock(s, t) && ReadsZone(s, t) && ReadsFraction(s, t) && OnClock(t)
  {
    if ParseBound(s) == Some(Bound(t, false)) {
      TimestampMeans(s);
      ParsedIsValid(s);
    }
    if ReadsClock(s, t) && ReadsZone(s, t) && ReadsFraction(s, t) && OnClock(t) {
      ClockReads(s, t);
      FractionReads(s, t);
      ZoneReads(s, t);
    }
  }

  /** And exactly the texts that are accepted as a bare date. */
  lemma DateExactly(s: string, y: nat, m: nat, d: nat)
    ensures ParseBound(s) == Some(Bound(Stamp(y, m, d, 0, 0, 0, 0, 0), true)) <==>
            && |s| == 10 && s[4] == s[7] == '-' && ValidDate(y, m, d)
            && Reads(s, 0, 4, y) && Reads(s, 5, 7, m) && Reads(s, 8, 10, d)
  {
  }

  // ------------------------------------------------------------ the order of texts

  /** Lexicographic order of texts of one length. */
  predicate TextBefore(a: string, b: string) {
    a != "" && b != "" && (a[0] < b[0] || (a[0] == b[0] && TextBefore(a[1..], b[1..])))
  }

  lemma {:induction false} BeforeSplits(a: string, b: string, x: string, y: string)
    requires |a| == |b|
    ensures TextBefore(a + x, b + y) <==> TextBefore(a, b) || (a == b && TextBefore(x, y))
  {
    if a == "" {
      assert a + x == x && b + y == y;
    } else {
      assert (a + x)[1..] == a[1..] + x && (b + y)[1..] == b[1..] + y;
      BeforeSplits(a[1..], b[1..], x, y);
      assert a == b <==> a[0] == b[0] && a[1..] == b[1..];
    }
  }

  lemma {:induction false} DigitsOrder(u: string, v: string)
    requires |u| == |v| && AllDigits(u) && AllDigits(v)
    ensures TextBefore(u, v) <==> DigitsValue(u) < DigitsValue(v)
    ensures u == v <==> DigitsValue(u) == DigitsValue(v)
  {
    if u != "" {
      var n := |u| - 1;
      DigitsOrder(u[..n], v[..n]);
      assert u == u[..n] + [u[n]] && v == v[..n] + [v[n]];
      BeforeSplits(u[..n], v[..n], [u[n]], [v[n]]);
      assert TextBefore([u[n]], [v[n]]) <==> u[n] < v[n];
    }
  }

  /** Two texts that agree so far go on by their next field, and then by what follows it. */
  lemma FieldOrder(a: string, b: string, i: nat, j: nat, m: nat, n: nat)
    requires |a| == |b| && Reads(a, i, j, m) && Reads(b, i, j, n)
    ensures TextBefore(a[i..], b[i..]) <==> m < n || (m == n && TextBefore(a[j..], b[j..]))
  {
    assert a[i..] == a[i..j] + a[j..] && b[i..] == b[i..j] + b[j..];
    BeforeSplits(a[i..j], b[i..j], a[j..], b[j..]);
    DigitsOrder(a[i..j], b[i..j]);
  }

  lemma SeparatorOrder(a: string, b: string, i: nat)
    requires i < |a| == |b| && a[i] == b[i]
    ensures TextBefore(a[i..], b[i..]) <==> TextBefore(a[i + 1..], b[i + 1..])
  {
    assert a[i..][1..] == a[i + 1..] && b[i..][1..] == b[i + 1..];
  }

  /** Accepted, and of the form yyyy-mm-ddThh:mm:ssZ. */
  predicate UtcForm(s: string) {
    |s| == 20 && s[19] == 'Z' && ParseBound(s).Some?
  }

  lemma UtcFields(s: string)
    requires UtcForm(s)
    ensures !ParseBound(s).value.dateOnly && HourEnd(s) == 13 && ReadsClock(s, ParseBound(s).value.stamp)
    ensures ParseBound(s).value.stamp.nano == 0 && ParseBound(s).value.stamp.offset == 0
  {
    TimestampMeans(s);
  }

  /** Earlier by year, else by month, and so on down to the second. */
  predicate StampBefore(t: Stamp, u: Stamp) {
    DateBefore(t, u) || (SameDate(t, u) && ClockBefore(t, u))
  }

  predicate DateBefore(t: Stamp, u: Stamp) {
    t.year < u.year || (t.year == u.year && (t.month < u.month || (t.month == u.month && t.day < u.day)))
  }

  predicate SameDate(t: Stamp, u: Stamp) {
    t.year == u.year && t.month == u.month && t.day == u.day
  }

  predicate ClockBefore(t: Stamp, u: Stamp) {
    t.hour < u.hour || (t.hour == u.hour && (t.minute < u.minute || (t.minute == u.minute && t.second < u.second)))
  }

  lemma DateFirst(a: string, b: string, t: Stamp, u: Stamp)
    requires |a| == |b| == 20 && HourEnd(a) == HourEnd(b) == 13 && ReadsClock(a, t) && ReadsClock(b, u)
    ensures TextBefore(a, b) <==> DateBefore(t, u) || (SameDate(t, u) && TextBefore(a[10..], b[10..]))
  {
    assert a[0..] == a && b[0..] == b;
    FieldOrder(a, b, 0, 4, t.year, u.year);
    SeparatorOrder(a, b, 4);
    FieldOrder(a, b, 5, 7, t.month, u.month);
    SeparatorOrder(a, b, 7);
    FieldOrder(a, b, 8, 10, t.day, u.day);
  }

  lemma ThenClock(a: string, b: string, t: Stamp, u: Stamp)
    requires |a| == |b| == 20 && HourEnd(a) == HourEnd(b) == 13 && ReadsClock(a, t) && ReadsClock(b, u)
    requires a[19] == b[19]
    ensures TextBefore(a[10..], b[10..]) <==> ClockBefore(t, u)
  {
    SeparatorOrder(a, b, 10);
    FieldOrder(a, b, 11, 13, t.hour, u.hour);
    SeparatorOrder(a, b, 13);
    FieldOrder(a, b, 14, 16, t.minute, u.minute);
    SeparatorOrder(a, b, 16);
    FieldOrder(a, b, 17, 19, t.second, u.second);
    SeparatorOrder(a, b, 19);
    assert a[20..] == "" && b[20..] == "";
  }

  // ------------------------------------------------------------ the order of instants

  /** The first day of a year comes after the last of every earlier one. */
  lemma {:induction false} YearsGrow(x: nat, y: nat)
    requires x < y <= 9999
    ensures DayNumber(x, 12, 31) < DayNumber(y, 1, 1)
  {
    if x + 1 < y {
      YearsGrow(x, y - 1);
      assert DayNumber(y - 1, 1, 1) < DayNumber(y - 1, 12, 31) by { DaysOfYear(y - 1); }
    }
    NextDateIsNextDay(y - 1, 12, 31);
  }

  lemma WithinYear(y: nat, m: nat, d: nat)
    requires ValidDate(y, m, d)
    ensures DayNumber(y, 1, 1) <= DayNumber(y, m, d) <= DayNumber(y, 12, 31)
  {
    MonthsAdd(m, 12, y);
  }

  lemma DatesOrder(t: Stamp, u: Stamp)
    requires ValidStamp(t) && ValidStamp(u) && DateBefore(t, u)
    ensures DayNumber(t.year, t.month, t.day) < DayNumber(u.year, u.month, u.day)
  {
    if t.year < u.year {
      WithinYear(t.year, t.month, t.day);
      WithinYear(u.year, u.month, u.day);
      YearsGrow(t.year, u.year);
    } else if t.month < u.month {
      MonthsAdd(t.month, u.month, t.year);
    }
  }

  predicate WholeUtc(t: Stamp) {
    ValidStamp(t) && t.nano == 0 && t.offset == 0
  }

  lemma Earlier(t: Stamp, u: Stamp)
    requires WholeUtc(t) && WholeUtc(u) && StampBefore(t, u)
    ensures InstantOf(t) < InstantOf(u)
  {
    var day := DayNumber(t.year, t.month, t.day);
    InDays(t, day);
    if DateBefore(t, u) {
      DatesOrder(t, u);
      InDays(u, DayNumber(u.year, u.month, u.day));
    } else {
      InDays(u, day);
    }
  }

  /** An instant as days, and what is less than a day. */
  lemma InDays(t: Stamp, day: int)
    requires WholeUtc(t) && day == DayNumber(t.year, t.month, t.day)
    ensures InstantOf(t) == (day - 719162) * 86_400_000_000_000 + SecondOfDay(t) * 1_000_000_000
    ensures 0 <= SecondOfDay(t) < 86400
  {
  }

  function SecondOfDay(t: Stamp): int {
    3600 * t.hour + 60 * t.minute + t.second
  }

  /** For any two UTC timestamps of the form yyyy-mm-ddThh:mm:ssZ that are accepted, the order of the
      texts is the order of the instants, and equal instants have equal texts. */
  lemma TextOrderIsInstantOrder(a: string, b: string)
    requires UtcForm(a) && UtcForm(b)
    ensures TextBefore(a, b) <==> InstantOf(ParseBound(a).value.stamp) < InstantOf(ParseBound(b).value.stamp)
  {
    var t, u := ParseBound(a).value.stamp, ParseBound(b).value.stamp;
    UtcFields(a);
    UtcFields(b);
    ParsedIsValid(a);
    ParsedIsValid(b);
    DateFirst(a, b, t, u);
    ThenClock(a, b, t, u);
    if StampBefore(t, u) {
      Earlier(t, u);
    } else if StampBefore(u, t) {
      Earlier(u, t);
    } else {
      InDays(t, DayNumber(t.year, t.month, t.day));
      InDays(u, DayNumber(u.year, u.month, u.day));
    }
  }

  // ------------------------------------------------------------ the length of a second

  /** The clock one second on, over minutes, hours, days, months and years. */
  function NextSecond(t: Stamp): Stamp {
    if t.second < 59 then t.(second := t.second + 1)
    else if t.minute < 59 then t.(minute := t.minute + 1, second := 0)
    else if t.hour < 23 then t.(hour := t.hour + 1, minute := 0, second := 0)
    else AddDay(t).(hour := 0, minute := 0, second := 0)
  }

  /** With the next lemma this fixes the instant of every timestamp: each second of the calendar is 10^9
      nanoseconds, counted from the first instant of 1970 in UTC, and a time east of Greenwich is earlier
      by its offset. */
  lemma SecondsCount(t: Stamp)
    requires ValidStamp(t)
    ensures InstantOf(NextSecond(t)) == InstantOf(t) + 1_000_000_000
    ensures InstantOf(t) == InstantOf(t.(offset := 0)) - t.offset * 60_000_000_000
    ensures InstantOf(t) == InstantOf(t.(nano := 0)) + t.nano
  {
    if t.second == 59 && t.minute == 59 && t.hour == 23 {
      NextDayIsDayLater(t);
      LastSecond(t);
      LastSecond(AddDay(t));
    }
  }

  /** The last second of a day ends one day after its midnight. */
  lemma LastSecond(t: Stamp)
    requires t.hour == 23 && t.minute == 59 && t.second == 59
    ensures InstantOf(t) + 1_000_000_000 == InstantOf(t.(hour := 0, minute := 0, second := 0)) + DAY
  {
  }

  lemma EpochIsZero(y: nat)
    requires y == 1970
    ensures InstantOf(Stamp(y, 1, 1, 0, 0, 0, 0, 0)) == 0
  {
    assert DaysBeforeMonth(1, y) == 0;
  }
}

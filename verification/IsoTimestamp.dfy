/** Timezone-aware timestamps, the instant they denote, and their extended ISO 8601 text. */
module IsoTimestamp {
  import opened Common

  // ---------------------------------------------------------------------------------------
  // Fixed-width decimal fields
  // ---------------------------------------------------------------------------------------

  function Pow10(w: nat): nat
  {
    if w == 0 then 1 else 10 * Pow10(w - 1)
  }

  function Field(n: nat, w: nat): (s: string)
    ensures |s| == w
    decreases w
  {
    if w == 0 then "" else Field(n / 10, w - 1) + [('0' as int + n % 10) as char]
  }

  predicate IsDigit(c: char) { '0' <= c <= '9' }

  /** The number a run of digits spells; None when some character is no digit. */
  function Number(s: string): Option<nat>
  {
    if s == "" then Some(0)
    else
      var c := s[|s| - 1];
      var front := Number(s[..|s| - 1]);
      if front.Some? && IsDigit(c) then Some(front.value * 10 + (c as int - '0' as int)) else None
  }

  lemma {:induction false} FieldRoundTrip(n: nat, w: nat)
    requires n < Pow10(w)
    ensures Number(Field(n, w)) == Some(n)
  {
    if w > 0 {
      FieldRoundTrip(n / 10, w - 1);
      assert Field(n, w)[..w - 1] == Field(n / 10, w - 1);
    }
  }

  lemma TwoDigits(n: nat)
    requires n < 100
    ensures |Field(n, 2)| == 2 && Number(Field(n, 2)) == Some(n)
  {
    assert Pow10(1) == 10 && Pow10(2) == 100;
    FieldRoundTrip(n, 2);
  }

  lemma SixDigits(n: nat)
    requires n < 1000000
    ensures |Field(n, 6)| == 6 && Number(Field(n, 6)) == Some(n)
  {
    assert Pow10(1) == 10 && Pow10(2) == 100 && Pow10(3) == 1000 && Pow10(4) == 10000 && Pow10(5) == 100000;
    FieldRoundTrip(n, 6);
  }

  lemma FourDigits(n: nat)
    requires n < 10000
    ensures |Field(n, 4)| == 4 && Number(Field(n, 4)) == Some(n)
  {
    assert Pow10(1) == 10 && Pow10(2) == 100 && Pow10(3) == 1000;
    FieldRoundTrip(n, 4);
  }

  // ---------------------------------------------------------------------------------------
  // Calendar and instants
  // ---------------------------------------------------------------------------------------

  datatype Date = Date(year: nat, month: nat, day: nat)

  datatype Clock = Clock(hour: nat, minute: nat, second: nat, micro: nat)

  /** A local date and time with its offset from UTC in microseconds. */
  datatype Timestamp = Timestamp(date: Date, clock: Clock, offset: int)

  predicate Leap(year: nat) { year % 4 == 0 && (year % 100 != 0 || year % 400 == 0) }

  function DaysIn(year: nat, month: nat): nat
  {
    if month == 2 then (if Leap(year) then 29 else 28)
    else if month == 4 || month == 6 || month == 9 || month == 11 then 30 else 31
  }

  const MINUTE := 60 * 1000000
  const HOUR := 60 * MINUTE
  const DAY := 24 * HOUR

  predicate ValidDate(d: Date)
  {
    1 <= d.year <= 9999 && 1 <= d.month <= 12 && 1 <= d.day <= DaysIn(d.year, d.month)
  }

  predicate ValidClock(c: Clock)
  {
    c.hour < 24 && c.minute < 60 && c.second < 60 && c.micro < 1000000
  }

  predicate Valid(t: Timestamp)
  {
    ValidDate(t.date) && ValidClock(t.clock) && -DAY < t.offset < DAY
  }

  function DaysBeforeMonth(year: nat, month: nat): nat
  {
    if month <= 1 then 0 else DaysBeforeMonth(year, month - 1) + DaysIn(year, month - 1)
  }

  /** Days since 1 January of year 1. */
  function DayNumber(d: Date): int
  {
    var y := d.year as int - 1;
    365 * y + y / 4 - y / 100 + y / 400 + DaysBeforeMonth(d.year, d.month) + d.day - 1
  }

  /** Microseconds of UTC since 1 January of year 1: what two timestamps are compared by. */
  function Instant(t: Timestamp): int
  {
    DayNumber(t.date) * DAY + t.clock.hour * HOUR + t.clock.minute * MINUTE + t.clock.second * 1000000 + t.clock.micro
    - t.offset
  }

  // ---------------------------------------------------------------------------------------
  // Instants follow the calendar
  // ---------------------------------------------------------------------------------------

  /** The calendar's day after `d`. */
  function NextDay(d: Date): Date
  {
    if d.day < DaysIn(d.year, d.month) then Date(d.year, d.month, d.day + 1)
    else if d.month < 12 then Date(d.year, d.month + 1, 1)
    else Date(d.year + 1, 1, 1)
  }

  lemma DaysInYear(year: nat)
    ensures DaysBeforeMonth(year, 12) + 31 == if Leap(year) then 366 else 365
  {
    assert DaysBeforeMonth(year, 2) == 31;
    assert DaysBeforeMonth(year, 3) == 31 + DaysIn(year, 2);
    assert DaysBeforeMonth(year, 5) == DaysBeforeMonth(year, 3) + 61;
    assert DaysBeforeMonth(year, 7) == DaysBeforeMonth(year, 5) + 61;
    assert DaysBeforeMonth(year, 9) == DaysBeforeMonth(year, 7) + 62;
    assert DaysBeforeMonth(year, 11) == DaysBeforeMonth(year, 9) + 61;
    assert DaysBeforeMonth(year, 12) == DaysBeforeMonth(year, 11) + 30;
  }

  lemma Fours(m: nat)
    ensures 4 * m % 4 == 0
  {
  }

  lemma Hundreds(m: nat)
    ensures 100 * m % 100 == 0
  {
  }

  lemma CenturiesAreFourths(year: nat)
    ensures year % 400 == 0 ==> year % 100 == 0
    ensures year % 100 == 0 ==> year % 4 == 0
  {
    Fours(25 * (year / 100));
    Hundreds(4 * (year / 400));
  }

  lemma LeapDays(year: nat)
    requires year >= 1
    ensures var y := year - 1;
            year / 4 - year / 100 + year / 400 == y / 4 - y / 100 + y / 400 + if Leap(year) then 1 else 0
  {
    CenturiesAreFourths(year);
    Quotients(year);
  }

  lemma Quotients(year: nat)
    requires year >= 1
    ensures year / 4 == (year - 1) / 4 + if year % 4 == 0 then 1 else 0
    ensures year / 100 == (year - 1) / 100 + if year % 100 == 0 then 1 else 0
    ensures year / 400 == (year - 1) / 400 + if year % 400 == 0 then 1 else 0
  {
  }

  lemma DaysBeforeYear(year: nat)
    requires year >= 1
    ensures DayNumber(Date(year + 1, 1, 1)) == DayNumber(Date(year, 1, 1)) + if Leap(year) then 366 else 365
  {
    LeapDays(year);
  }

  lemma WithinOneYear(a: Date, b: Date)
    requires a.year == b.year
    ensures DayNumber(b) - DayNumber(a) ==
            DaysBeforeMonth(b.year, b.month) + b.day - DaysBeforeMonth(a.year, a.month) - a.day
  {
  }

  lemma NewYear(d: Date)
    requires ValidDate(d) && d.month == 12 && d.day == 31
    ensures DayNumber(Date(d.year + 1, 1, 1)) == DayNumber(d) + 1
  {
    WithinOneYear(Date(d.year, 1, 1), d);
    DaysInYear(d.year);
    DaysBeforeYear(d.year);
  }

  lemma NextInYear(d: Date)
    requires ValidDate(d) && NextDay(d).year == d.year
    ensures DaysBeforeMonth(d.year, NextDay(d).month) + NextDay(d).day == DaysBeforeMonth(d.year, d.month) + d.day + 1
  {
  }

  lemma NextStaysInYear(d: Date, next: Date)
    requires ValidDate(d) && next == NextDay(d) && next.year == d.year
    ensures DayNumber(next) == DayNumber(d) + 1
  {
    NextInYear(d);
    WithinOneYear(d, next);
  }

  /** Day numbers count the days of the calendar one by one. */
  lemma EveryDayCounts(d: Date)
    requires ValidDate(d)
    ensures DayNumber(NextDay(d)) == DayNumber(d) + 1
  {
    if NextDay(d).year == d.year {
      NextStaysInYear(d, NextDay(d));
    } else {
      NewYear(d);
    }
  }

  predicate EarlierDate(a: Date, b: Date)
  {
    a.year < b.year || (a.year == b.year && (a.month < b.month || (a.month == b.month && a.day < b.day)))
  }

  predicate EarlierClock(a: Clock, b: Clock)
  {
    a.hour < b.hour || (a.hour == b.hour && (a.minute < b.minute || (a.minute == b.minute &&
    (a.second < b.second || (a.second == b.second && a.micro < b.micro)))))
  }

  lemma {:induction false} MonthsInOrder(year: nat, a: nat, b: nat)
    requires 1 <= a < b
    ensures DaysBeforeMonth(year, a) + DaysIn(year, a) <= DaysBeforeMonth(year, b)
    decreases b
  {
    if a + 1 < b { MonthsInOrder(year, a, b - 1); }
  }

  lemma {:induction false} YearsInOrder(a: nat, b: nat)
    requires 1 <= a <= b
    ensures DayNumber(Date(a, 1, 1)) <= DayNumber(Date(b, 1, 1))
    decreases b
  {
    if a < b {
      YearsInOrder(a, b - 1);
      DaysBeforeYear(b - 1);
    }
  }

  lemma WithinYear(d: Date)
    requires ValidDate(d)
    ensures DayNumber(Date(d.year, 1, 1)) <= DayNumber(d) < DayNumber(Date(d.year + 1, 1, 1))
  {
    DaysInYear(d.year);
    DaysBeforeYear(d.year);
    if d.month < 12 { MonthsInOrder(d.year, d.month, 12); }
  }

  lemma DatesInOrder(a: Date, b: Date)
    requires ValidDate(a) && ValidDate(b) && EarlierDate(a, b)
    ensures DayNumber(a) < DayNumber(b)
  {
    if a.year < b.year {
      WithinYear(a);
      WithinYear(b);
      YearsInOrder(a.year + 1, b.year);
    } else if a.month < b.month {
      MonthsInOrder(a.year, a.month, b.month);
    }
  }

  function SecondsOfDay(c: Clock): nat { c.hour * 3600 + c.minute * 60 + c.second }

  function TimeOfDay(c: Clock): nat
  {
    c.hour * HOUR + c.minute * MINUTE + c.second * 1000000 + c.micro
  }

  lemma SecondsInOrder(a: Clock, b: Clock)
    requires ValidClock(a) && ValidClock(b)
    ensures SecondsOfDay(a) < 86400
    ensures SecondsOfDay(a) < SecondsOfDay(b) <==>
            a.hour < b.hour || (a.hour == b.hour &&
                                (a.minute < b.minute || (a.minute == b.minute && a.second < b.second)))
  {
    assert a.hour < b.hour ==> (b.hour - a.hour) * 3600 >= 3600;
  }

  lemma ClocksInOrder(a: Clock, b: Clock)
    requires ValidClock(a) && ValidClock(b)
    ensures TimeOfDay(a) < DAY
    ensures EarlierClock(a, b) <==> TimeOfDay(a) < TimeOfDay(b)
  {
    SecondsInOrder(a, b);
    SecondsInOrder(b, a);
    MicrosDecide(SecondsOfDay(a), SecondsOfDay(b), a.micro, b.micro);
    assert TimeOfDay(a) == SecondsOfDay(a) * 1000000 + a.micro;
    assert TimeOfDay(b) == SecondsOfDay(b) * 1000000 + b.micro;
  }

  lemma MicrosDecide(a: int, b: int, x: nat, y: nat)
    requires x < 1000000 && y < 1000000
    ensures a * 1000000 + x < b * 1000000 + y <==> a < b || (a == b && x < y)
  {
  }

  /** Two timestamps of one offset compare like their dates and times of day; an offset counts its time
      off. */
  lemma InstantsFollowTheCalendar(a: Timestamp, b: Timestamp)
    requires Valid(a) && Valid(b) && a.offset == b.offset
    ensures Instant(a) < Instant(b) <==>
            EarlierDate(a.date, b.date) || (a.date == b.date && EarlierClock(a.clock, b.clock))
    ensures Instant(a) == Instant(a.(offset := 0)) - a.offset
  {
    DaysDecide(DayNumber(a.date), DayNumber(b.date), TimeOfDay(a.clock), TimeOfDay(b.clock));
    ClocksInOrder(a.clock, b.clock);
    ClocksInOrder(b.clock, a.clock);
    if EarlierDate(a.date, b.date) {
      DatesInOrder(a.date, b.date);
    } else if a.date != b.date {
      DatesInOrder(b.date, a.date);
    }
  }

  lemma DaysDecide(a: int, b: int, x: nat, y: nat)
    ensures x < DAY && y < DAY ==> (a * DAY + x < b * DAY + y <==> a < b || (a == b && x < y))
  {
  }

  /** Instants whose UTC year lies in 1..9999; converting any other overflows. */
  predicate InUtcRange(instant: int)
  {
    0 <= instant < DayNumber(Date(10000, 1, 1)) * DAY
  }

  // ---------------------------------------------------------------------------------------
  // Text
  // ---------------------------------------------------------------------------------------

  function PrintDate(d: Date): string
  {
    Field(d.year, 4) + "-" + Field(d.month, 2) + "-" + Field(d.day, 2)
  }

  function PrintHms(hour: nat, minute: nat, second: nat): string
  {
    Field(hour, 2) + ":" + Field(minute, 2) + ":" + Field(second, 2)
  }

  function PrintMicro(micro: nat): string
  {
    if micro == 0 then "" else "." + Field(micro, 6)
  }

  function PrintSeconds(second: nat, micro: nat): string
  {
    if second == 0 && micro == 0 then "" else ":" + Field(second, 2) + PrintMicro(micro)
  }

  /** A span below a day as hours, minutes, seconds and microseconds. */
  function Split(span: nat): (c: Clock)
    requires span < DAY
    ensures ValidClock(c)
    ensures span == c.hour * HOUR + c.minute * MINUTE + (c.second * 1000000 + c.micro)
  {
    assert span / MINUTE == span / 1000000 / 60;
    assert span / HOUR == span / MINUTE / 60;
    Clock(span / HOUR, span / MINUTE % 60, span / 1000000 % 60, span % 1000000)
  }

  /** The magnitude of an offset: hours and minutes, then seconds and microseconds when needed. */
  function PrintSpan(c: Clock): string
  {
    SpanText(Field(c.hour, 2), Field(c.minute, 2), PrintSeconds(c.second, c.micro))
  }

  function SpanText(hour: string, minute: string, rest: string): string
  {
    hour + ":" + minute + rest
  }

  function PrintOffset(offset: int): string
    requires -DAY < offset < DAY
  {
    if offset < 0 then "-" + PrintSpan(Split(-offset)) else "+" + PrintSpan(Split(offset))
  }

  /** datetime.isoformat of an aware timestamp. */
  function Print(t: Timestamp): string
    requires Valid(t)
  {
    PrintDate(t.date) + "T" + PrintHms(t.clock.hour, t.clock.minute, t.clock.second)
    + (PrintMicro(t.clock.micro) + PrintOffset(t.offset))
  }

  function ParseDate(s: string): Option<Date>
  {
    if |s| != 10 || s[4] != '-' || s[7] != '-' then None
    else
      DateOf(Number(s[..4]), Number(s[5..7]), Number(s[8..]))
  }

  function DateOf(y: Option<nat>, m: Option<nat>, d: Option<nat>): Option<Date>
  {
    if y.None? || m.None? || d.None? || !ValidDate(Date(y.value, m.value, d.value)) then None
    else Some(Date(y.value, m.value, d.value))
  }

  function ParseHms(s: string): Option<(nat, nat, nat)>
  {
    if |s| != 8 || s[2] != ':' || s[5] != ':' then None
    else
      match (Number(s[..2]), Number(s[3..5]), Number(s[6..]))
      case (Some(h), Some(m), Some(x)) => Some((h, m, x))
      case _ => None
  }

  /** An optional fraction at the front of `s`, and what follows it. */
  function ParseMicro(s: string): Option<(nat, string)>
  {
    if s == "" || s[0] != '.' then Some((0, s))
    else if |s| < 7 then None
    else
      match Number(s[1..7])
      case Some(n) => Some((n, s[7..]))
      case None => None
  }

  function ParseSpan(s: string): Option<nat>
  {
    if |s| < 5 || s[2] != ':' then None
    else
      SpanOf(Number(s[..2]), Number(s[3..5]), ParseSeconds(s[5..]))
  }

  function SpanOf(h: Option<nat>, m: Option<nat>, seconds: Option<nat>): Option<nat>
  {
    if h.None? || m.None? || seconds.None? || m.value >= 60 then None
    else Some(h.value * HOUR + m.value * MINUTE + seconds.value)
  }

  /** Optional seconds of an offset, with optional fraction, in microseconds. */
  function ParseSeconds(s: string): Option<nat>
  {
    if s == "" then Some(0)
    else if |s| < 3 || s[0] != ':' then None
    else
      SecondsOf(Number(s[1..3]), ParseMicro(s[3..]))
  }

  function SecondsOf(x: Option<nat>, tail: Option<(nat, string)>): Option<nat>
  {
    if x.None? || tail.None? || x.value >= 60 || tail.value.1 != "" then None
    else Some(x.value * 1000000 + tail.value.0)
  }

  function Signed(negative: bool, span: nat): int { if negative then -(span as int) else span }

  function ParseOffset(s: string): Option<int>
  {
    if s == "" || (s[0] != '+' && s[0] != '-') then None
    else
      match ParseSpan(s[1..])
      case Some(span) => if span < DAY then Some(Signed(s[0] == '-', span)) else None
      case None => None
  }

  /** Reads the text `Print` writes; a missing offset, which makes a timestamp naive, is refused. */
  function Parse(s: string): Option<Timestamp>
  {
    if |s| < 19 || s[10] != 'T' then None
    else Assemble(ParseDate(s[..10]), ParseHms(s[11..19]), ParseMicro(s[19..]))
  }

  function Assemble(date: Option<Date>, hms: Option<(nat, nat, nat)>, tail: Option<(nat, string)>): Option<Timestamp>
  {
    if date.None? || hms.None? || tail.None? then None
    else
      var clock := Clock(hms.value.0, hms.value.1, hms.value.2, tail.value.0);
      var offset := ParseOffset(tail.value.1);
      if offset.Some? && ValidClock(clock) then Some(Timestamp(date.value, clock, offset.value)) else None
  }

  // ---------------------------------------------------------------------------------------
  // Round trip
  // ---------------------------------------------------------------------------------------

  lemma DateRoundTrip(d: Date)
    requires ValidDate(d)
    ensures |PrintDate(d)| == 10 && ParseDate(PrintDate(d)) == Some(d)
  {
    FourDigits(d.year);
    TwoDigits(d.month);
    TwoDigits(d.day);
    DateOfParts(Field(d.year, 4), Field(d.month, 2), Field(d.day, 2));
  }

  lemma DateOfParts(y: string, m: string, d: string)
    requires |y| == 4 && |m| == 2 && |d| == 2
    ensures ParseDate(y + "-" + m + "-" + d) == DateOf(Number(y), Number(m), Number(d))
  {
    var s := y + "-" + m + "-" + d;
    assert s[..4] == y && s[5..7] == m && s[8..] == d;
  }

  lemma HmsRoundTrip(h: nat, m: nat, x: nat)
    requires h < 100 && m < 100 && x < 100
    ensures |PrintHms(h, m, x)| == 8 && ParseHms(PrintHms(h, m, x)) == Some((h, m, x))
  {
    var s := PrintHms(h, m, x);
    TwoDigits(h);
    TwoDigits(m);
    TwoDigits(x);
    assert s[..2] == Field(h, 2) && s[3..5] == Field(m, 2) && s[6..] == Field(x, 2);
  }

  lemma MicroRoundTrip(micro: nat, rest: string)
    requires micro < 1000000 && (rest == "" || rest[0] != '.')
    ensures ParseMicro(PrintMicro(micro) + rest) == Some((micro, rest))
  {
    var s := PrintMicro(micro) + rest;
    if micro == 0 {
      assert s == rest;
    } else {
      SixDigits(micro);
      assert s[1..7] == Field(micro, 6) && s[7..] == rest;
    }
  }

  lemma SecondsRoundTrip(x: nat, u: nat)
    requires x < 60 && u < 1000000
    ensures ParseSeconds(PrintSeconds(x, u)) == Some(x * 1000000 + u)
  {
    if x != 0 || u != 0 {
      TwoDigits(x);
      MicroRoundTrip(u, "");
      assert PrintMicro(u) + "" == PrintMicro(u);
      SecondsOfParts(Field(x, 2), PrintMicro(u), x, u);
    }
  }

  lemma SecondsOfParts(a: string, b: string, x: nat, u: nat)
    requires |a| == 2 && x < 60 && Number(a) == Some(x) && ParseMicro(b) == Some((u, ""))
    ensures ParseSeconds(":" + a + b) == Some(x * 1000000 + u)
  {
    var s := ":" + a + b;
    assert s[1..3] == a && s[3..] == b;
  }

  lemma SpanOfParts(a: string, b: string, c: string)
    requires |a| == 2 && |b| == 2
    ensures ParseSpan(SpanText(a, b, c)) == SpanOf(Number(a), Number(b), ParseSeconds(c))
  {
    var s := SpanText(a, b, c);
    assert s[..2] == a && s[3..5] == b && s[5..] == c;
  }

  lemma SpanRoundTrip(c: Clock)
    requires ValidClock(c)
    ensures ParseSpan(PrintSpan(c)) == SpanOf(Some(c.hour), Some(c.minute), Some(c.second * 1000000 + c.micro))
  {
    TwoDigits(c.hour);
    TwoDigits(c.minute);
    SecondsRoundTrip(c.second, c.micro);
    SpanOfParts(Field(c.hour, 2), Field(c.minute, 2), PrintSeconds(c.second, c.micro));
  }

  /** The text of a clock reads back as its length, however the clock was come by. */
  lemma ClockRoundTrip(c: Clock, span: nat)
    requires ValidClock(c) && span == c.hour * HOUR + c.minute * MINUTE + (c.second * 1000000 + c.micro)
    ensures ParseSpan(PrintSpan(c)) == Some(span)
  {
    SpanRoundTrip(c);
  }

  lemma OffsetRoundTrip(offset: int)
    requires -DAY < offset < DAY
    ensures var s := PrintOffset(offset); s != "" && s[0] != '.' && ParseOffset(s) == Some(offset)
  {
    var span := if offset < 0 then -offset else offset;
    var c := Split(span);
    ClockRoundTrip(c, span);
    SignedSpan(PrintSpan(c), span);
  }

  lemma SignedSpan(text: string, span: nat)
    requires ParseSpan(text) == Some(span) && span < DAY
    ensures ParseOffset("+" + text) == Some(span) && ParseOffset("-" + text) == Some(-(span as int))
  {
    assert ("+" + text)[1..] == text && ("-" + text)[1..] == text;
  }

  lemma StampOfParts(a: string, b: string, c: string)
    requires |a| == 10 && |b| == 8
    ensures Parse(a + "T" + b + c) == Assemble(ParseDate(a), ParseHms(b), ParseMicro(c))
  {
    var s := a + "T" + b + c;
    assert s[..10] == a && s[11..19] == b && s[19..] == c;
  }

  /** Every valid aware timestamp is read back field by field from its own text. */
  lemma RoundTrip(t: Timestamp)
    requires Valid(t)
    ensures Parse(Print(t)) == Some(t)
  {
    var c := t.clock;
    var tail := PrintMicro(c.micro) + PrintOffset(t.offset);
    TailRoundTrip(c.micro, t.offset);
    DateRoundTrip(t.date);
    HmsRoundTrip(c.hour, c.minute, c.second);
    StampOfParts(PrintDate(t.date), PrintHms(c.hour, c.minute, c.second), tail);
  }

  lemma TailRoundTrip(micro: nat, offset: int)
    requires micro < 1000000 && -DAY < offset < DAY
    ensures ParseMicro(PrintMicro(micro) + PrintOffset(offset)) == Some((micro, PrintOffset(offset)))
    ensures ParseOffset(PrintOffset(offset)) == Some(offset)
  {
    OffsetRoundTrip(offset);
    MicroRoundTrip(micro, PrintOffset(offset));
  }
}

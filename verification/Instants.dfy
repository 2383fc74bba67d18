/** Timestamps of observation reconciliation: the accepted subset of RFC 3339 section 5.6 and the
    proleptic Gregorian count of UTC microseconds. */
module Instants {
  import opened Outcomes
  import opened Digits

  // --- The calendar --------------------------------------------------------------------------------

  predicate Leap(year: int)
  {
    year % 4 == 0 && (year % 100 != 0 || year % 400 == 0)
  }

  function MonthLength(year: int, month: int): (n: int)
  {
    if month == 2 then (if Leap(year) then 29 else 28)
    else if month in {4, 6, 9, 11} then 30
    else 31
  }

  datatype Date = Date(year: int, month: int, day: int)
  {
    predicate Valid()
    {
      1 <= month <= 12 && 1 <= day <= MonthLength(year, month)
    }
  }

  const FirstDay := Date(1, 1, 1)

  function NextDay(d: Date): (next: Date)
    requires d.Valid()
    ensures next.Valid()
  {
    if d.day < MonthLength(d.year, d.month) then Date(d.year, d.month, d.day + 1)
    else if d.month < 12 then Date(d.year, d.month + 1, 1)
    else Date(d.year + 1, 1, 1)
  }

  function PreviousDay(d: Date): (previous: Date)
    requires d.Valid()
    ensures previous.Valid()
  {
    if d.day > 1 then Date(d.year, d.month, d.day - 1)
    else if d.month > 1 then Date(d.year, d.month - 1, MonthLength(d.year, d.month - 1))
    else Date(d.year - 1, 12, 31)
  }

  // --- Counting days ---------------------------------------------------------------------------------

  /** The lengths of the months before `month`. */
  function DaysBeforeMonth(year: int, month: nat): int
  {
    if month <= 1 then 0 else DaysBeforeMonth(year, month - 1) + MonthLength(year, month - 1)
  }

  function DaysBeforeYear(year: int): int
  {
    var y := year - 1;
    y * 365 + y / 4 - y / 100 + y / 400
  }

  function DayNumber(d: Date): int
    requires d.Valid()
  {
    DaysBeforeYear(d.year) + DaysBeforeMonth(d.year, d.month) + d.day - 1
  }

  lemma MonthTable(year: int)
    ensures var l := if Leap(year) then 1 else 0;
      (DaysBeforeMonth(year, 1) == 0 && DaysBeforeMonth(year, 2) == 31 && DaysBeforeMonth(year, 3) == 59 + l
      && DaysBeforeMonth(year, 4) == 90 + l && DaysBeforeMonth(year, 5) == 120 + l && DaysBeforeMonth(year, 6) == 151 + l
      && DaysBeforeMonth(year, 7) == 181 + l && DaysBeforeMonth(year, 8) == 212 + l && DaysBeforeMonth(year, 9) == 243 + l
      && DaysBeforeMonth(year, 10) == 273 + l && DaysBeforeMonth(year, 11) == 304 + l
      && DaysBeforeMonth(year, 12) == 334 + l)
  {
  }

  /** The closed formula counts 366 days for leap years and 365 for the others, centuries included. */
  lemma YearLength(year: int)
    ensures DaysBeforeYear(year + 1) - DaysBeforeYear(year) == if Leap(year) then 366 else 365
  {
    QuotientSteps(year, 4);
    QuotientSteps(year, 100);
    QuotientSteps(year, 400);
    CenturiesDivide(year);
    assert year + 1 - 1 == year;
  }

  lemma CenturiesDivide(year: int)
    ensures year % 100 == 0 ==> year % 4 == 0
    ensures year % 400 == 0 ==> year % 100 == 0
  {
  }

  lemma QuotientSteps(n: int, k: int)
    requires k in {4, 100, 400}
    ensures n / k - (n - 1) / k == if n % k == 0 then 1 else 0
  {
  }

  /** The next day counts one more, across month ends, leap days and century years. */
  lemma NextDayCountsOneMore(d: Date)
    requires d.Valid()
    ensures DayNumber(NextDay(d)) == DayNumber(d) + 1
  {
    MonthTable(d.year);
    MonthTable(d.year + 1);
    YearLength(d.year);
    hide DaysBeforeYear, DaysBeforeMonth, Leap;
    if d.month < 12 { MonthSteps(d.year, d.month); }
  }

  lemma MonthSteps(year: int, month: nat)
    requires month >= 1
    ensures DaysBeforeMonth(year, month + 1) == DaysBeforeMonth(year, month) + MonthLength(year, month)
  {
  }

  lemma NextOfPrevious(d: Date)
    requires d.Valid()
    ensures NextDay(PreviousDay(d)) == d && PreviousDay(NextDay(d)) == d
  {
  }

  /** The n-th day after the first of January of year 1, counted one day at a time. */
  function NthDay(n: nat): (d: Date)
    ensures d.Valid()
  {
    if n == 0 then FirstDay else NextDay(NthDay(n - 1))
  }

  predicate Earlier(a: Date, b: Date)
  {
    a.year < b.year || (a.year == b.year && (a.month < b.month || (a.month == b.month && a.day < b.day)))
  }

  lemma {:induction false} YearsGrow(a: int, b: int)
    requires a < b
    ensures DaysBeforeYear(a) + (if Leap(a) then 366 else 365) <= DaysBeforeYear(b)
    decreases b - a
  {
    YearLength(a);
    if a + 1 < b { YearsGrow(a + 1, b); }
  }

  lemma {:induction false} MonthsGrow(year: int, m: nat, n: nat)
    requires 1 <= m < n
    ensures DaysBeforeMonth(year, m) + MonthLength(year, m) <= DaysBeforeMonth(year, n)
    decreases n
  {
    MonthSteps(year, n - 1);
    if m < n - 1 { MonthsGrow(year, m, n - 1); }
  }

  lemma WithinYear(d: Date)
    requires d.Valid()
    ensures DaysBeforeYear(d.year) <= DayNumber(d) < DaysBeforeYear(d.year) + (if Leap(d.year) then 366 else 365)
  {
    MonthTable(d.year);
  }

  lemma EarlierCountsLess(a: Date, b: Date)
    requires a.Valid() && b.Valid() && Earlier(a, b)
    ensures DayNumber(a) < DayNumber(b)
  {
    if a.year < b.year {
      YearsGrow(a.year, b.year);
      WithinYear(a);
      WithinYear(b);
    } else if a.month < b.month {
      MonthsGrow(a.year, a.month, b.month);
    }
  }

  /** Day numbers order dates and identify them. */
  lemma DayNumberIsOrder(a: Date, b: Date)
    requires a.Valid() && b.Valid()
    ensures DayNumber(a) < DayNumber(b) <==> Earlier(a, b)
    ensures DayNumber(a) == DayNumber(b) <==> a == b
  {
    hide DayNumber;
    if Earlier(a, b) { EarlierCountsLess(a, b); }
    if Earlier(b, a) { EarlierCountsLess(b, a); }
  }

  lemma {:induction false} NthDayHasNumber(n: nat)
    ensures DayNumber(NthDay(n)) == n && NthDay(n).year >= 1
  {
    if n > 0 {
      NthDayHasNumber(n - 1);
      NextDayCountsOneMore(NthDay(n - 1));
    }
  }

  /** The closed formula is the count: the day with number n is the n-th successor of 0001-01-01. */
  lemma DayNumberCountsDays(d: Date, n: nat)
    requires d.Valid()
    ensures DayNumber(d) == n <==> d == NthDay(n)
  {
    NthDayHasNumber(n);
    DayNumberIsOrder(d, NthDay(n));
  }

  // --- Timestamps ----------------------------------------------------------------------------------------

  datatype Zone = Utc | Offset(minus: bool, hours: nat, minutes: nat)

  datatype Timestamp = Timestamp(year: nat, month: nat, day: nat, hour: nat, minute: nat, second: nat,
                                 fraction: string, zone: Zone)
  {
    function Day(): Date
    {
      Date(year, month, day)
    }

    /** What the code accepts: year 1 or later, no leap seconds, at most six digits of fraction (none at
        all stands for an absent fraction) and an offset of at most fourteen hours. */
    predicate Legal()
    {
      && 1 <= year <= 9999 && Day().Valid() && hour <= 23 && minute <= 59 && second <= 59
      && IsDigits(fraction) && |fraction| <= 6
      && (zone.Offset? ==> zone.minutes <= 59 && zone.hours * 60 + zone.minutes <= 840)
    }

    /** Minutes east of UTC. */
    function Shift(): int
    {
      match zone
      case Utc => 0
      case Offset(minus, hours, minutes) =>
        var m: int := hours * 60 + minutes;
        if minus then -m else m
    }

    function Micros(): nat
      requires IsDigits(fraction) && |fraction| <= 6
    {
      Read(fraction + Zeros(6 - |fraction|))
    }

    /** The text of a timestamp. */
    function Write(): string
      requires Legal()
    {
      WriteClock(Clock(year, month, day, hour, minute, second)) + (WriteFraction(fraction) + WriteZone(zone))
    }
  }

  function WriteFraction(fraction: string): string
  {
    if fraction == "" then "" else "." + fraction
  }

  function WriteZone(zone: Zone): string
    requires zone.Offset? ==> zone.hours <= 99 && zone.minutes <= 99
  {
    match zone
    case Utc => "Z"
    case Offset(minus, h, m) =>
      [if minus then '-' else '+', DigitOf(h / 10), DigitOf(h % 10), ':', DigitOf(m / 10), DigitOf(m % 10)]
  }

  datatype Clock = Clock(year: nat, month: nat, day: nat, hour: nat, minute: nat, second: nat)
  {
    predicate Fits()
    {
      year <= 9999 && month <= 99 && day <= 99 && hour <= 99 && minute <= 99 && second <= 99
    }
  }

  /** YYYY-MM-DDTHH:MM:SS. */
  function WriteClock(c: Clock): string
    requires c.Fits()
  {
    [DigitOf(c.year / 1000), DigitOf(c.year / 100 % 10), DigitOf(c.year / 10 % 10), DigitOf(c.year % 10), '-',
     DigitOf(c.month / 10), DigitOf(c.month % 10), '-', DigitOf(c.day / 10), DigitOf(c.day % 10), 'T',
     DigitOf(c.hour / 10), DigitOf(c.hour % 10), ':', DigitOf(c.minute / 10), DigitOf(c.minute % 10), ':',
     DigitOf(c.second / 10), DigitOf(c.second % 10)]
  }

  // --- Parsing -----------------------------------------------------------------------------------------

  predicate DigitsAt(s: string, i: nat, n: nat)
    requires i + n <= |s|
  {
    forall j | i <= j < i + n :: IsDigit(s[j])
  }

  function TwoAt(s: string, i: nat): (n: nat)
    requires i + 2 <= |s| && DigitsAt(s, i, 2)
    ensures n <= 99
  {
    DigitValue(s[i]) * 10 + DigitValue(s[i + 1])
  }

  predicate IsClock(s: string)
  {
    && |s| == 19 && s[4] == '-' && s[7] == '-' && s[10] == 'T' && s[13] == ':' && s[16] == ':'
    && DigitsAt(s, 0, 4) && DigitsAt(s, 5, 2) && DigitsAt(s, 8, 2)
    && DigitsAt(s, 11, 2) && DigitsAt(s, 14, 2) && DigitsAt(s, 17, 2)
  }

  function ReadClock(s: string): (c: Clock)
    requires IsClock(s)
    ensures c.Fits()
  {
    Clock(TwoAt(s, 0) * 100 + TwoAt(s, 2), TwoAt(s, 5), TwoAt(s, 8), TwoAt(s, 11), TwoAt(s, 14), TwoAt(s, 17))
  }

  function LeadingDigits(s: string): (n: nat)
    ensures n <= |s| && IsDigits(s[..n]) && (n < |s| ==> !IsDigit(s[n]))
  {
    if s != "" && IsDigit(s[0]) then 1 + LeadingDigits(s[1..]) else 0
  }

  function ReadZone(s: string): Option<Zone>
  {
    if s == "Z" then Some(Utc)
    else if |s| == 6 && (s[0] == '+' || s[0] == '-') && DigitsAt(s, 1, 2) && s[3] == ':' && DigitsAt(s, 4, 2) then
      Some(Offset(s[0] == '-', TwoAt(s, 1), TwoAt(s, 4)))
    else None
  }

  /** The fraction digits, and where they end; None if a point is not followed by one to six digits. */
  function ReadFraction(s: string): (r: Option<string>)
    ensures r.Some? ==> |WriteFraction(r.value)| <= |s| && IsDigits(r.value)
  {
    if s == "" || s[0] != '.' then Some("")
    else
      var n := LeadingDigits(s[1..]);
      if 1 <= n <= 6 then Some(s[1..][..n]) else None
  }

  function Parse(s: string): Option<Timestamp>
  {
    if |s| < 19 || !IsClock(s[..19]) then None
    else
      var fraction := ReadFraction(s[19..]);
      if fraction.None? then None
      else
        var zone := ReadZone(s[19..][|WriteFraction(fraction.value)|..]);
        if zone.None? then None
        else
          var c := ReadClock(s[..19]);
          var t := Timestamp(c.year, c.month, c.day, c.hour, c.minute, c.second, fraction.value, zone.value);
          if t.Legal() then Some(t) else None
  }

  lemma TwoDigits(n: nat)
    requires n <= 99
    ensures n / 10 < 10 && n / 10 * 10 + n % 10 == n
  {
  }

  lemma {:induction false} LeadingDigitsOf(a: string, b: string)
    requires IsDigits(a) && (b != "" ==> !IsDigit(b[0]))
    ensures LeadingDigits(a + b) == |a|
  {
    if a == "" {
      assert a + b == b;
    } else {
      assert (a + b)[1..] == a[1..] + b;
      LeadingDigitsOf(a[1..], b);
    }
  }

  lemma ClockIsRead(c: Clock)
    requires c.Fits()
    ensures IsClock(WriteClock(c)) && ReadClock(WriteClock(c)) == c
  {
    var s := WriteClock(c);
    YearDigits(c.year);
    TwoDigits(c.month);
    TwoDigits(c.day);
    TwoDigits(c.hour);
    TwoDigits(c.minute);
    TwoDigits(c.second);
    assert DigitsAt(s, 0, 4) && DigitsAt(s, 5, 2) && DigitsAt(s, 8, 2) && DigitsAt(s, 11, 2);
  }

  lemma YearDigits(y: nat)
    requires y <= 9999
    ensures (y / 1000 * 10 + y / 100 % 10) * 100 + (y / 10 % 10 * 10 + y % 10) == y
  {
  }

  lemma WriteTwo(a: nat, b: nat)
    requires a <= 9 && b <= 9
    ensures (a * 10 + b) / 10 == a && (a * 10 + b) % 10 == b
  {
  }

  lemma WriteTwoAt(s: string, i: nat)
    requires i + 2 <= |s| && DigitsAt(s, i, 2)
    ensures DigitOf(TwoAt(s, i) / 10) == s[i] && DigitOf(TwoAt(s, i) % 10) == s[i + 1]
  {
    WriteTwo(DigitValue(s[i]), DigitValue(s[i + 1]));
  }

  lemma HundredsAndRest(h: nat, r: nat)
    requires h <= 99 && r <= 99
    ensures var y := h * 100 + r;
            (y / 1000 == h / 10 && y / 100 % 10 == h % 10 && y / 10 % 10 == r / 10 && y % 10 == r % 10)
  {
    var a, b, c, d := h / 10, h % 10, r / 10, r % 10;
    var y := a * 1000 + b * 100 + c * 10 + d;
    assert y == h * 100 + r;
    assert y / 10 == a * 100 + b * 10 + c;
    assert y / 100 == a * 10 + b;
    assert y / 1000 == a;
  }

  lemma ClockIsWritten(s: string)
    requires IsClock(s)
    ensures WriteClock(ReadClock(s)) == s
  {
    WriteTwoAt(s, 0);
    WriteTwoAt(s, 2);
    WriteTwoAt(s, 5);
    WriteTwoAt(s, 8);
    WriteTwoAt(s, 11);
    WriteTwoAt(s, 14);
    WriteTwoAt(s, 17);
    HundredsAndRest(TwoAt(s, 0), TwoAt(s, 2));
    hide TwoAt, DigitsAt, DigitOf;
    forall i | 0 <= i < 19 ensures WriteClock(ReadClock(s))[i] == s[i] {
    }
  }

  lemma ZoneIsRead(zone: Zone)
    requires zone.Offset? ==> zone.hours <= 99 && zone.minutes <= 99
    ensures ReadZone(WriteZone(zone)) == Some(zone)
  {
    if zone.Offset? {
      TwoDigits(zone.hours);
      TwoDigits(zone.minutes);
    }
  }

  lemma ZoneIsWritten(s: string)
    requires ReadZone(s).Some?
    ensures ReadZone(s).value.Offset? ==> ReadZone(s).value.hours <= 99 && ReadZone(s).value.minutes <= 99
    ensures WriteZone(ReadZone(s).value) == s
  {
    if s != "Z" {
      WriteTwoAt(s, 1);
      WriteTwoAt(s, 4);
    }
  }

  lemma FractionIsRead(fraction: string, rest: string)
    requires IsDigits(fraction) && |fraction| <= 6 && rest != "" && !IsDigit(rest[0]) && rest[0] != '.'
    ensures ReadFraction(WriteFraction(fraction) + rest) == Some(fraction)
  {
    var s := WriteFraction(fraction) + rest;
    if fraction == "" {
      assert s == rest;
    } else {
      assert s[1..] == fraction + rest;
      LeadingDigitsOf(fraction, rest);
    }
  }

  lemma FractionIsWritten(s: string)
    requires ReadFraction(s).Some?
    ensures |ReadFraction(s).value| <= 6
    ensures var w := WriteFraction(ReadFraction(s).value);
            |w| <= |s| && s == w + s[|w|..]
  {
  }

  /** Every legal timestamp is read back from its text. */
  lemma WrittenIsParsed(t: Timestamp)
    requires t.Legal()
    ensures Parse(t.Write()) == Some(t)
  {
    var c := Clock(t.year, t.month, t.day, t.hour, t.minute, t.second);
    ClockFits(t);
    ClockIsRead(c);
    ZoneIsRead(t.zone);
    FractionIsRead(t.fraction, WriteZone(t.zone));
    hide WriteClock, ReadClock, IsClock, WriteZone, ReadZone, WriteFraction, ReadFraction, Timestamp.Legal;
    var head, w := WriteClock(c), WriteFraction(t.fraction);
    var tail := w + WriteZone(t.zone);
    assert (head + tail)[..19] == head && (head + tail)[19..] == tail;
    assert tail[|w|..] == WriteZone(t.zone);
  }

  lemma ClockFits(t: Timestamp)
    requires t.Legal()
    ensures Clock(t.year, t.month, t.day, t.hour, t.minute, t.second).Fits()
    ensures t.zone.Offset? ==> t.zone.hours <= 14 && t.zone.minutes <= 59
  {
  }

  /** Whatever is parsed is the text of the timestamp read: the parser accepts exactly the grammar. */
  lemma ParsedIsWritten(s: string)
    requires Parse(s).Some?
    ensures Parse(s).value.Legal() && Parse(s).value.Write() == s
  {
    ClockIsWritten(s[..19]);
    FractionIsWritten(s[19..]);
    var t := Parse(s).value;
    ZoneIsWritten(s[19..][|WriteFraction(t.fraction)|..]);
    hide WriteClock, ReadClock, IsClock, WriteZone, ReadZone, WriteFraction, ReadFraction;
    assert s == s[..19] + s[19..];
  }

  // --- Instants ----------------------------------------------------------------------------------------

  /** Microseconds since the start of year 1 in UTC. */
  function Microseconds(t: Timestamp): int
    requires t.Legal()
  {
    (DayNumber(t.Day()) * 86400 + t.hour * 3600 + t.minute * 60 + t.second - t.Shift() * 60) * 1000000 + t.Micros()
  }

  function IntText(n: int): string
  {
    if n < 0 then "-" + NatText(-n) else NatText(n)
  }

  lemma IntTextIsInjective(m: int, n: int)
    requires IntText(m) == IntText(n)
    ensures m == n
  {
    var a: nat, b: nat := if m < 0 then -m else m, if n < 0 then -n else n;
    NatTextIsCanonical(a);
    NatTextIsCanonical(b);
    assert m < 0 ==> IntText(m)[1..] == NatText(a);
    assert n < 0 ==> IntText(n)[1..] == NatText(b);
  }

  /** The key text of a timestamp, None for any other text. */
  function Instant(s: string): Option<string>
  {
    match Parse(s)
    case None => None
    case Some(t) => Some(IntText(Microseconds(t)))
  }

  /** A moment in UTC, field by field. */
  datatype Moment = Moment(day: Date, minuteOfDay: int, second: int, micros: int)

  /** The UTC moment a timestamp names: its local time moved by its offset, over midnight if need be. */
  function UtcOf(t: Timestamp): Moment
    requires t.Legal()
  {
    var minute := t.hour * 60 + t.minute - t.Shift();
    if minute < 0 then Moment(PreviousDay(t.Day()), minute + 1440, t.second, t.Micros())
    else if minute >= 1440 then Moment(NextDay(t.Day()), minute - 1440, t.second, t.Micros())
    else Moment(t.Day(), minute, t.second, t.Micros())
  }

  /** What an accepted timestamp is, field by field. */
  lemma LegalMeans(t: Timestamp)
    ensures t.Legal()
       <==> && 1 <= t.year && t.year <= 9999 && 1 <= t.month && t.month <= 12 && 1 <= t.day
            && t.day <= (if t.month == 2 then (if t.year % 400 == 0 || (t.year % 4 == 0 && t.year % 100 != 0) then 29 else 28)
                         else if t.month in [4, 6, 9, 11] then 30 else 31)
            && t.hour < 24 && t.minute < 60 && t.second < 60 && IsDigits(t.fraction) && |t.fraction| < 7
            && (t.zone.Offset? ==> t.zone.minutes < 60 && (t.zone.hours < 14 || (t.zone.hours == 14 && t.zone.minutes == 0)))
  {
  }

  /** The moment a timestamp names: its own date and time of day, earlier by an offset east of UTC and later by
      one west of it, in a day of 1440 minutes. */
  lemma UtcMeans(t: Timestamp)
    requires t.Legal()
    ensures var m := UtcOf(t);
      && m.second == t.second && m.micros == Read(t.fraction + Zeros(6 - |t.fraction|)) && 0 <= m.minuteOfDay < 1440
      && DayNumber(m.day) * 1440 + m.minuteOfDay
         == DayNumber(Date(year := t.year, month := t.month, day := t.day)) * 1440 + t.hour * 60 + t.minute
            - (match t.zone case Utc => 0
                            case Offset(minus, hours, minutes) => if minus then -60 * hours - minutes else 60 * hours + minutes)
  {
    NextDayCountsOneMore(t.Day());
    NextDayCountsOneMore(PreviousDay(t.Day()));
    NextOfPrevious(t.Day());
    hide DayNumber, Read, NextDay, PreviousDay;
  }

  predicate Sooner(a: Moment, b: Moment)
  {
    || Earlier(a.day, b.day)
    || (a.day == b.day
        && (a.minuteOfDay < b.minuteOfDay
            || (a.minuteOfDay == b.minuteOfDay
                && (a.second < b.second || (a.second == b.second && a.micros < b.micros)))))
  }

  lemma MicrosAreBounded(t: Timestamp)
    requires t.Legal()
    ensures 0 <= t.Micros() < 1000000
  {
    ReadBound(t.fraction + Zeros(6 - |t.fraction|));
    assert Pow10(6) == 1000000;
  }

  function Total(day: int, minute: int, second: int, micros: int): int
  {
    ((day * 1440 + minute) * 60 + second) * 1000000 + micros
  }

  lemma MicrosecondsOfUtc(t: Timestamp)
    requires t.Legal()
    ensures var u := UtcOf(t);
      (u.day.Valid() && 0 <= u.minuteOfDay < 1440 && 0 <= u.second < 60 && 0 <= u.micros < 1000000
       && Microseconds(t) == Total(DayNumber(u.day), u.minuteOfDay, u.second, u.micros))
  {
    MicrosAreBounded(t);
    NextDayCountsOneMore(t.Day());
    NextDayCountsOneMore(PreviousDay(t.Day()));
    NextOfPrevious(t.Day());
    hide DayNumber, NextDay, PreviousDay, Timestamp.Micros;
  }

  lemma TotalsCompare(d: int, m: int, s: int, u: int, d': int, m': int, s': int, u': int)
    requires 0 <= m < 1440 && 0 <= s < 60 && 0 <= u < 1000000
    requires 0 <= m' < 1440 && 0 <= s' < 60 && 0 <= u' < 1000000
    ensures Total(d, m, s, u) < Total(d', m', s', u')
       <==> d < d' || (d == d' && (m < m' || (m == m' && (s < s' || (s == s' && u < u')))))
    ensures Total(d, m, s, u) == Total(d', m', s', u') <==> d == d' && m == m' && s == s' && u == u'
  {
  }

  /** Two accepted timestamps have the same key iff they name the same UTC moment, and their counts are
      ordered as the moments are. */
  lemma SameInstantIffSameUtc(t: Timestamp, u: Timestamp)
    requires t.Legal() && u.Legal()
    ensures Instant(t.Write()) == Instant(u.Write()) <==> UtcOf(t) == UtcOf(u)
    ensures Microseconds(t) < Microseconds(u) <==> Sooner(UtcOf(t), UtcOf(u))
  {
    WrittenIsParsed(t);
    WrittenIsParsed(u);
    MicrosecondsOfUtc(t);
    MicrosecondsOfUtc(u);
    var a, b := UtcOf(t), UtcOf(u);
    DayNumberIsOrder(a.day, b.day);
    hide Microseconds, UtcOf, Parse, Timestamp.Write, Timestamp.Legal, Date.Valid, IntText, DayNumber, Total;
    TotalsCompare(DayNumber(a.day), a.minuteOfDay, a.second, a.micros, DayNumber(b.day), b.minuteOfDay, b.second, b.micros);
    if IntText(Microseconds(t)) == IntText(Microseconds(u)) {
      IntTextIsInjective(Microseconds(t), Microseconds(u));
    }
  }
}

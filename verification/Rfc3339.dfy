/**
 Timestamps as text, section 5.6 of RFC 3339, as Go's time.RFC3339 layout writes
 and reads them: whole seconds, "Z" for UTC, a numeric offset otherwise.
 Instants are nanoseconds counted from 0000-01-01T00:00:00Z.
 */
module Rfc3339 {
  import opened Prelude
  import Text

  const SECOND := 1_000_000_000
  const DAY := 86400

  function Seconds(t: int): int {
    t / SECOND
  }

  // ---- The calendar ----

  predicate IsLeap(y: nat) {
    y % 4 == 0 && (y % 100 != 0 || y % 400 == 0)
  }

  function YearLength(y: nat): nat {
    if IsLeap(y) then 366 else 365
  }

  function MonthLength(y: nat, m: nat): nat {
    if m == 2 then (if IsLeap(y) then 29 else 28)
    else if m in {4, 6, 9, 11} then 30 else 31
  }

  function DaysBeforeYear(y: nat): nat {
    if y == 0 then 0 else DaysBeforeYear(y - 1) + YearLength(y - 1)
  }

  /** Days of the year before month m, counting months from 1. */
  function DaysBeforeMonth(y: nat, m: nat): nat {
    if m <= 1 then 0 else DaysBeforeMonth(y, m - 1) + MonthLength(y, m - 1)
  }

  datatype Date = Date(year: nat, month: nat, day: nat)

  predicate IsDate(d: Date) {
    1 <= d.month <= 12 && 1 <= d.day <= MonthLength(d.year, d.month)
  }

  /** Days since 0000-01-01. */
  function DayNumber(d: Date): nat
    requires IsDate(d)
  {
    DaysBeforeYear(d.year) + DaysBeforeMonth(d.year, d.month) + d.day - 1
  }

  function YearFrom(day: nat, y: nat): (r: nat)
    requires DaysBeforeYear(y) <= day
    ensures DaysBeforeYear(r) <= day < DaysBeforeYear(r + 1)
    decreases day - DaysBeforeYear(y)
  {
    if day < DaysBeforeYear(y + 1) then y else YearFrom(day, y + 1)
  }

  lemma TwelveMonths(y: nat)
    ensures DaysBeforeMonth(y, 13) == YearLength(y)
  {
    var leap := if IsLeap(y) then 1 else 0;
    assert DaysBeforeMonth(y, 2) == 31;
    assert DaysBeforeMonth(y, 3) == 59 + leap;
    assert DaysBeforeMonth(y, 5) == 120 + leap;
    assert DaysBeforeMonth(y, 7) == 181 + leap;
    assert DaysBeforeMonth(y, 9) == 243 + leap;
    assert DaysBeforeMonth(y, 11) == 304 + leap;
  }

  /** The days before each month. */
  lemma MonthStarts(y: nat)
    ensures var leap := if y % 4 == 0 && (y % 100 != 0 || y % 400 == 0) then 1 else 0;
      && DaysBeforeMonth(y, 1) == 0 && DaysBeforeMonth(y, 2) == 31 && DaysBeforeMonth(y, 3) == 59 + leap
      && DaysBeforeMonth(y, 4) == 90 + leap && DaysBeforeMonth(y, 5) == 120 + leap
      && DaysBeforeMonth(y, 6) == 151 + leap && DaysBeforeMonth(y, 7) == 181 + leap
      && DaysBeforeMonth(y, 8) == 212 + leap && DaysBeforeMonth(y, 9) == 243 + leap
      && DaysBeforeMonth(y, 10) == 273 + leap && DaysBeforeMonth(y, 11) == 304 + leap
      && DaysBeforeMonth(y, 12) == 334 + leap && DaysBeforeMonth(y, 13) == 365 + leap
  {
    var leap := if IsLeap(y) then 1 else 0;
    assert DaysBeforeMonth(y, 2) == 31;
    assert DaysBeforeMonth(y, 3) == 59 + leap;
    assert DaysBeforeMonth(y, 5) == 120 + leap;
    assert DaysBeforeMonth(y, 7) == 181 + leap;
    assert DaysBeforeMonth(y, 9) == 243 + leap;
    assert DaysBeforeMonth(y, 11) == 304 + leap;
  }

  function MonthFrom(y: nat, day: nat, m: nat): (r: nat)
    requires 1 <= m <= 12 && DaysBeforeMonth(y, m) <= day < DaysBeforeMonth(y, 13)
    ensures 1 <= r <= 12 && DaysBeforeMonth(y, r) <= day < DaysBeforeMonth(y, r + 1)
    decreases 12 - m
  {
    if day < DaysBeforeMonth(y, m + 1) then m else MonthFrom(y, day, m + 1)
  }

  function DateOf(day: nat): (d: Date)
    ensures IsDate(d) && DayNumber(d) == day
  {
    var y := YearFrom(day, 0);
    var rest := day - DaysBeforeYear(y);
    TwelveMonths(y);
    var m := MonthFrom(y, rest, 1);
    Date(y, m, rest - DaysBeforeMonth(y, m) + 1)
  }

  predicate Before(a: Date, b: Date) {
    a.year < b.year || (a.year == b.year && (a.month < b.month || (a.month == b.month && a.day < b.day)))
  }

  lemma {:induction false} YearsGrow(x: nat, y: nat)
    requires x <= y
    ensures DaysBeforeYear(x) <= DaysBeforeYear(y)
    decreases y
  {
    if x == y {
    } else {
      YearsGrow(x, y - 1);
    }
  }

  lemma {:induction false} MonthsGrow(y: nat, m: nat, n: nat)
    requires 1 <= m <= n
    ensures DaysBeforeMonth(y, m) <= DaysBeforeMonth(y, n)
    decreases n
  {
    if m == n {
    } else {
      MonthsGrow(y, m, n - 1);
    }
  }

  lemma DateBeforeIsSmaller(a: Date, b: Date)
    requires IsDate(a) && IsDate(b) && Before(a, b)
    ensures DayNumber(a) < DayNumber(b)
  {
    MonthsGrow(a.year, a.month + 1, 13);
    TwelveMonths(a.year);
    if a.year < b.year {
      YearsGrow(a.year + 1, b.year);
    } else if a.month < b.month {
      MonthsGrow(a.year, a.month + 1, b.month);
    }
  }

  /** Calendar order is day order. */
  lemma DateOrder(a: Date, b: Date)
    requires IsDate(a) && IsDate(b)
    ensures Before(a, b) <==> DayNumber(a) < DayNumber(b)
    ensures a == b <==> DayNumber(a) == DayNumber(b)
  {
    if Before(a, b) { DateBeforeIsSmaller(a, b); }
    if Before(b, a) { DateBeforeIsSmaller(b, a); }
  }

  // ---- The text ----

  lemma EarlierYear(a: nat, b: nat)
    requires a <= b
    ensures DateOf(a).year <= DateOf(b).year
  {
    DateOrder(DateOf(b), DateOf(a));
  }

  /** Seconds whose wall clock has a four-digit year. */
  predicate FourDigitYear(sec: int) {
    sec >= 0 && DateOf(sec / DAY).year <= 9999
  }

  lemma EarlierFits(a: int, b: int)
    requires 0 <= a <= b && FourDigitYear(b)
    ensures FourDigitYear(a)
  {
    EarlierYear(a / DAY, b / DAY);
  }

  function Joined(a: string, sep: char, b: string, c: string): string {
    a + ([sep] + (b + ([sep] + c)))
  }

  function DateText(d: Date): (s: string)
    ensures |s| == 10
  {
    Joined(Text.Fixed(d.year, 4), '-', Text.Fixed(d.month, 2), Text.Fixed(d.day, 2))
  }

  datatype Clock = Clock(hour: nat, minute: nat, second: nat)

  predicate IsClock(c: Clock) {
    c.hour < 24 && c.minute < 60 && c.second < 60
  }

  function ClockOf(s: nat): (c: Clock)
    requires s < DAY
    ensures IsClock(c) && c.hour * 3600 + c.minute * 60 + c.second == s
  {
    Clock(s / 3600, s / 60 % 60, s % 60)
  }

  function ClockText(c: Clock): (t: string)
    ensures |t| == 8
  {
    Joined(Text.Fixed(c.hour, 2), ':', Text.Fixed(c.minute, 2), Text.Fixed(c.second, 2))
  }

  /** The wall clock, without its zone. */
  function WallText(sec: nat): (s: string)
    ensures |s| == 19
  {
    DateText(DateOf(sec / DAY)) + (['T'] + ClockText(ClockOf(sec % DAY)))
  }

  /** A zone's offset east of UTC, in minutes. */
  predicate IsOffset(offset: int) {
    -1440 < offset < 1440
  }

  function ZoneText(offset: int): string
    requires IsOffset(offset)
  {
    if offset == 0 then "Z"
    else
      var m := if offset < 0 then -offset else offset;
      [if offset < 0 then '-' else '+'] + (Text.Fixed(m / 60, 2) + ([':'] + Text.Fixed(m % 60, 2)))
  }

  function Wall(t: int, offset: int): int {
    Seconds(t) + offset * 60
  }

  /** t.Format(time.RFC3339) of an instant held in the zone. */
  function Format(t: int, offset: int): string
    requires IsOffset(offset) && FourDigitYear(Wall(t, offset))
  {
    WallText(Wall(t, offset)) + ZoneText(offset)
  }

  // ---- Order ----

  lemma JoinedOrder(a: string, b: string, c: string, x: string, y: string, z: string, sep: char)
    requires |a| == |x| && |b| == |y|
    ensures Text.Less(Joined(a, sep, b, c), Joined(x, sep, y, z)) <==>
      Text.Less(a, x) || (a == x && (Text.Less(b, y) || (b == y && Text.Less(c, z))))
  {
    var p, q := [sep] + c, [sep] + z;
    Text.LessConcat(a, x, [sep] + (b + p), [sep] + (y + q));
    Text.LessConcat([sep], [sep], b + p, y + q);
    Text.LessConcat(b, y, p, q);
    Text.LessConcat([sep], [sep], c, z);
    Text.LessIrreflexive([sep]);
  }

  lemma TwoDigits()
    ensures Text.Pow10(2) == 100 && Text.Pow10(4) == 10000
  {
    assert Text.Pow10(1) == 10 && Text.Pow10(3) == 1000;
  }

  lemma DateTextOrder(a: Date, b: Date)
    requires IsDate(a) && IsDate(b) && a.year <= 9999 && b.year <= 9999
    ensures Text.Less(DateText(a), DateText(b)) <==> Before(a, b)
  {
    TwoDigits();
    Text.FixedOrder(a.year, b.year, 4);
    Text.FixedOrder(a.month, b.month, 2);
    Text.FixedOrder(a.day, b.day, 2);
    JoinedOrder(Text.Fixed(a.year, 4), Text.Fixed(a.month, 2), Text.Fixed(a.day, 2),
                Text.Fixed(b.year, 4), Text.Fixed(b.month, 2), Text.Fixed(b.day, 2), '-');
  }

  lemma ClockTextOrder(a: Clock, b: Clock)
    requires IsClock(a) && IsClock(b)
    ensures Text.Less(ClockText(a), ClockText(b)) <==>
      a.hour * 3600 + a.minute * 60 + a.second < b.hour * 3600 + b.minute * 60 + b.second
  {
    TwoDigits();
    Text.FixedOrder(a.hour, b.hour, 2);
    Text.FixedOrder(a.minute, b.minute, 2);
    Text.FixedOrder(a.second, b.second, 2);
    JoinedOrder(Text.Fixed(a.hour, 2), Text.Fixed(a.minute, 2), Text.Fixed(a.second, 2),
                Text.Fixed(b.hour, 2), Text.Fixed(b.minute, 2), Text.Fixed(b.second, 2), ':');
  }

  /** Wall-clock texts compare as the wall clocks do. */
  lemma WallTextOrder(a: nat, b: nat)
    requires FourDigitYear(a) && FourDigitYear(b)
    ensures Text.Less(WallText(a), WallText(b)) <==> a < b
    ensures WallText(a) == WallText(b) <==> a == b
  {
    var d, e := DateOf(a / DAY), DateOf(b / DAY);
    var c, k := ClockOf(a % DAY), ClockOf(b % DAY);
    var x, y := ClockText(c), ClockText(k);
    DateTextOrder(d, e);
    DateTextOrder(e, d);
    DateOrder(d, e);
    DateOrder(e, d);
    ClockTextOrder(c, k);
    Text.LessConcat(DateText(d), DateText(e), ['T'] + x, ['T'] + y);
    Text.LessConcat(['T'], ['T'], x, y);
    Text.LessIrreflexive(['T']);
    Text.LessTotal(DateText(d), DateText(e));
    Text.LessIrreflexive(DateText(d));
    if WallText(a) == WallText(b) {
      assert WallText(a)[..10] == DateText(d) && WallText(b)[..10] == DateText(e);
      assert WallText(a)[11..] == x && WallText(b)[11..] == y;
      ClockTextOrder(k, c);
      Text.LessIrreflexive(x);
    }
  }

  /** UTC timestamps compare as text exactly as their whole seconds do (section 5.1 of RFC 3339). */
  lemma UtcOrder(t: int, u: int)
    requires FourDigitYear(Seconds(t)) && FourDigitYear(Seconds(u))
    ensures Text.AtMost(Format(t, 0), Format(u, 0)) <==> Seconds(t) <= Seconds(u)
  {
    WallTextAtMost(Seconds(t), Seconds(u));
    Text.AtMostSameTail(WallText(Seconds(t)), WallText(Seconds(u)), "Z");
  }

  /** Two equally long texts with suffixes that sort before and at "Z". */
  lemma SuffixOrder(a: string, b: string, zone: string)
    requires |a| == |b| && zone != "" && zone[0] < 'Z'
    ensures Text.AtMost(a + zone, b + "Z") <==> Text.AtMost(a, b)
    ensures Text.AtMost(b + "Z", a + zone) <==> Text.Less(b, a)
  {
    Text.LessConcat(a, b, zone, "Z");
    Text.LessConcat(b, a, "Z", zone);
    assert (a + zone)[|a|] == zone[0] && (b + "Z")[|a|] == 'Z';
  }

  lemma OffsetSign(offset: int)
    requires IsOffset(offset) && offset != 0
    ensures ZoneText(offset) != "" && ZoneText(offset)[0] < 'Z'
  {
  }

  lemma WallTextAtMost(a: nat, b: nat)
    requires FourDigitYear(a) && FourDigitYear(b)
    ensures Text.AtMost(WallText(a), WallText(b)) <==> a <= b
    ensures Text.Less(WallText(b), WallText(a)) <==> b < a
  {
    WallTextOrder(a, b);
    WallTextOrder(b, a);
  }

  /** Against a UTC timestamp a zoned one compares by its wall clock, and sorts first on a tie. */
  lemma ZonedAgainstUtc(t: int, offset: int, u: int)
    requires IsOffset(offset) && offset != 0
    requires FourDigitYear(Wall(t, offset)) && FourDigitYear(Seconds(u))
    ensures Text.AtMost(Format(t, offset), Format(u, 0)) <==> Wall(t, offset) <= Seconds(u)
    ensures Text.AtMost(Format(u, 0), Format(t, offset)) <==> Seconds(u) < Wall(t, offset)
  {
    WallTextAtMost(Wall(t, offset), Seconds(u));
    OffsetSign(offset);
    SuffixOrder(WallText(Wall(t, offset)), WallText(Wall(u, 0)), ZoneText(offset));
  }

  // ---- Reading back ----

  predicate AllDigits(s: string) {
    forall i :: 0 <= i < |s| ==> Text.IsDigit(s[i])
  }

  /** hh:mm:ss on a 24-hour clock. */
  function ParseClock(s: string): Option<Clock> {
    if |s| == 8 && s[2] == ':' && s[5] == ':' && AllDigits(s[..2]) && AllDigits(s[3..5]) && AllDigits(s[6..]) then
      var c := Clock(Text.ParseDigits(s[..2]), Text.ParseDigits(s[3..5]), Text.ParseDigits(s[6..]));
      if IsClock(c) then Some(c) else None
    else None
  }

  function ParseDate(s: string): Option<Date> {
    if |s| == 10 && s[4] == '-' && s[7] == '-' && AllDigits(s[..4]) && AllDigits(s[5..7]) && AllDigits(s[8..]) then
      var d := Date(Text.ParseDigits(s[..4]), Text.ParseDigits(s[5..7]), Text.ParseDigits(s[8..]));
      if IsDate(d) then Some(d) else None
    else None
  }

  function ParseZone(s: string): Option<int> {
    if s == "Z" then Some(0)
    else if |s| == 6 && s[0] in {'+', '-'} && s[3] == ':' && AllDigits(s[1..3]) && AllDigits(s[4..]) then
      var h, m := Text.ParseDigits(s[1..3]), Text.ParseDigits(s[4..]);
      if h <= 24 && m < 60 then Some(if s[0] == '-' then -(h * 60 + m) else h * 60 + m) else None
    else None
  }

  /** time.Parse(time.RFC3339, s), as the UTC second it denotes; fractions are not written, so not read. */
  function Parse(s: string): Option<int> {
    if |s| < 20 || s[10] != 'T' then None
    else
      var date, clock, zone := ParseDate(s[..10]), ParseClock(s[11..19]), ParseZone(s[19..]);
      if date.Some? && clock.Some? && zone.Some?
      then
        var c := clock.value;
        Some(DayNumber(date.value) * DAY + (c.hour * 3600 + c.minute * 60 + c.second) - zone.value * 60)
      else None
  }

  lemma ParseDateText(d: Date)
    requires IsDate(d) && d.year <= 9999
    ensures ParseDate(DateText(d)) == Some(d)
  {
    TwoDigits();
    var s := DateText(d);
    assert s[..4] == Text.Fixed(d.year, 4) && s[5..7] == Text.Fixed(d.month, 2) && s[8..] == Text.Fixed(d.day, 2);
    Text.ParseOfFixed(d.year, 4);
    Text.ParseOfFixed(d.month, 2);
    Text.ParseOfFixed(d.day, 2);
  }

  lemma ParseClockText(c: Clock)
    requires IsClock(c)
    ensures ParseClock(ClockText(c)) == Some(c)
  {
    TwoDigits();
    var s := ClockText(c);
    assert s[..2] == Text.Fixed(c.hour, 2) && s[3..5] == Text.Fixed(c.minute, 2) && s[6..] == Text.Fixed(c.second, 2);
    Text.ParseOfFixed(c.hour, 2);
    Text.ParseOfFixed(c.minute, 2);
    Text.ParseOfFixed(c.second, 2);
  }

  lemma PartsOfZone(sign: char, hours: string, minutes: string)
    requires |hours| == |minutes| == 2
    ensures var s := [sign] + (hours + ([':'] + minutes));
      |s| == 6 && s[0] == sign && s[3] == ':' && s[1..3] == hours && s[4..] == minutes
  {
  }

  lemma ParseSigned(sign: char, hours: string, minutes: string)
    requires |hours| == |minutes| == 2 && AllDigits(hours) && AllDigits(minutes) && sign in {'+', '-'}
    requires Text.ParseDigits(hours) <= 24 && Text.ParseDigits(minutes) < 60
    ensures var m := Text.ParseDigits(hours) * 60 + Text.ParseDigits(minutes);
      ParseZone([sign] + (hours + ([':'] + minutes))) == Some(if sign == '-' then -m else m)
  {
    PartsOfZone(sign, hours, minutes);
    assert |"Z"| == 1;
  }

  lemma ParseZoneText(offset: int)
    requires IsOffset(offset)
    ensures ParseZone(ZoneText(offset)) == Some(offset)
  {
    if offset != 0 {
      var m := if offset < 0 then -offset else offset;
      TwoDigits();
      Text.ParseOfFixed(m / 60, 2);
      Text.ParseOfFixed(m % 60, 2);
      ParseSigned(if offset < 0 then '-' else '+', Text.Fixed(m / 60, 2), Text.Fixed(m % 60, 2));
    }
  }

  lemma PartsOfText(date: string, clock: string, zone: string)
    requires |date| == 10 && |clock| == 8
    ensures var s := (date + (['T'] + clock)) + zone;
      s[10] == 'T' && s[..10] == date && s[11..19] == clock && s[19..] == zone
  {
  }

  lemma ParseAssembled(d: Date, c: Clock, offset: int)
    requires IsDate(d) && d.year <= 9999 && IsClock(c) && IsOffset(offset)
    ensures Parse((DateText(d) + (['T'] + ClockText(c))) + ZoneText(offset)) ==
      Some(DayNumber(d) * DAY + (c.hour * 3600 + c.minute * 60 + c.second) - offset * 60)
  {
    PartsOfText(DateText(d), ClockText(c), ZoneText(offset));
    ParseDateText(d);
    ParseClockText(c);
    ParseZoneText(offset);
  }

  lemma WallOfParts(w: nat, d: Date, c: Clock)
    requires IsDate(d) && DayNumber(d) == w / DAY && c.hour * 3600 + c.minute * 60 + c.second == w % DAY
    ensures DayNumber(d) * DAY + (c.hour * 3600 + c.minute * 60 + c.second) == w
  {
  }

  lemma ParseWall(w: nat, offset: int)
    requires IsOffset(offset) && FourDigitYear(w)
    ensures Parse(WallText(w) + ZoneText(offset)) == Some(w - offset * 60)
  {
    var d, c := DateOf(w / DAY), ClockOf(w % DAY);
    assert WallText(w) == DateText(d) + (['T'] + ClockText(c));
    WallOfParts(w, d, c);
    ParseAssembled(d, c, offset);
  }

  /** Formatting then parsing gives the instant truncated to its second, in every zone. */
  lemma FormatParse(t: int, offset: int)
    requires IsOffset(offset) && FourDigitYear(Wall(t, offset))
    ensures Parse(Format(t, offset)) == Some(Seconds(t))
  {
    ParseWall(Wall(t, offset), offset);
  }

  // ---- The calendar and the text, against fixed points ----

  /** One leap year in four, but not in a hundred, but in four hundred. */
  lemma {:induction false} DaysBeforeYearInClosedForm(y: nat)
    ensures DaysBeforeYear(y) == 365 * y + (y + 3) / 4 - (y + 99) / 100 + (y + 399) / 400
  {
    if y == 0 {
    } else {
      var x := y - 1;
      DaysBeforeYearInClosedForm(x);
      EveryFourth(x);
      EveryHundredth(x);
      EveryFourHundredth(x);
      LeapCounted(x);
    }
  }

  lemma LeapCounted(x: nat)
    ensures YearLength(x) == 365 + (if x % 4 == 0 then 1 else 0) - (if x % 100 == 0 then 1 else 0)
      + (if x % 400 == 0 then 1 else 0)
  {
    assert x % 400 == 0 ==> x % 100 == 0;
    assert x % 100 == 0 ==> x % 4 == 0;
  }

  lemma EveryFourth(x: nat)
    ensures (x + 4) / 4 == (x + 3) / 4 + if x % 4 == 0 then 1 else 0
  {
  }

  lemma EveryHundredth(x: nat)
    ensures (x + 100) / 100 == (x + 99) / 100 + if x % 100 == 0 then 1 else 0
  {
  }

  lemma EveryFourHundredth(x: nat)
    ensures (x + 400) / 400 == (x + 399) / 400 + if x % 400 == 0 then 1 else 0
  {
  }

  /** A day number belongs to one date. */
  lemma DateOfDay(d: Date, day: nat)
    requires IsDate(d) && DayNumber(d) == day
    ensures DateOf(day) == d
  {
    var found := DateOf(day);
    DateOrder(d, found);
  }

  lemma FirstOfJanuary(d: Date)
    requires d.month == 1 && d.day == 1
    ensures IsDate(d) && DayNumber(d) == DaysBeforeYear(d.year)
  {
  }

  /** The first of January of every year, counted in days. */
  lemma NewYear(y: nat)
    ensures DateOf(DaysBeforeYear(y)) == Date(y, 1, 1)
  {
    FirstOfJanuary(Date(y, 1, 1));
    DateOfDay(Date(y, 1, 1), DaysBeforeYear(y));
  }

  lemma DateTextReads(d: Date)
    ensures var s := DateText(d);
      s[..4] == Text.Fixed(d.year, 4) && s[4] == '-' && s[5..7] == Text.Fixed(d.month, 2) && s[7] == '-'
      && s[8..] == Text.Fixed(d.day, 2)
  {
  }

  lemma ClockTextReads(c: Clock)
    ensures var s := ClockText(c);
      s[..2] == Text.Fixed(c.hour, 2) && s[2] == ':' && s[3..5] == Text.Fixed(c.minute, 2) && s[5] == ':'
      && s[6..] == Text.Fixed(c.second, 2)
  {
  }

  /** A zone reads Z, or a sign, hours, a colon and minutes. */
  lemma ZoneTextReads(offset: int)
    requires IsOffset(offset)
    ensures offset == 0 ==> ZoneText(offset) == "Z"
    ensures offset != 0 ==>
      var s, m := ZoneText(offset), if offset < 0 then -offset else offset;
      && |s| == 6 && s[0] == (if offset < 0 then '-' else '+') && s[1..3] == Text.Fixed(m / 60, 2)
      && s[3] == ':' && s[4..] == Text.Fixed(m % 60, 2)
  {
    if offset != 0 {
      var m := if offset < 0 then -offset else offset;
      PartsOfZone(if offset < 0 then '-' else '+', Text.Fixed(m / 60, 2), Text.Fixed(m % 60, 2));
    }
  }

  /** Every timestamp is its date, a T, its wall clock and its zone, at fixed positions. */
  lemma FormatReads(t: int, offset: int)
    requires IsOffset(offset) && FourDigitYear(Wall(t, offset))
    ensures var s, w := Format(t, offset), Wall(t, offset);
      && |s| >= 20 && s[..10] == DateText(DateOf(w / 86400)) && s[10] == 'T'
      && s[11..19] == ClockText(Clock(w % 86400 / 3600, w % 86400 / 60 % 60, w % 86400 % 60))
      && s[19..] == ZoneText(offset)
  {
    var w := Wall(t, offset);
    PartsOfText(DateText(DateOf(w / DAY)), ClockText(ClockOf(w % DAY)), ZoneText(offset));
  }

  lemma MidnightText()
    ensures ClockText(Clock(0, 0, 0)) == "00:00:00"
  {
    assert Text.Fixed(0, 1) == Text.Fixed(0, 0) + ['0'];
    assert Text.Fixed(0, 2) == Text.Fixed(0, 1) + ['0'];
  }

  lemma FirstOfJanuaryText(y: nat)
    ensures DateText(Date(y, 1, 1)) == Text.Fixed(y, 4) + "-01-01"
  {
    assert Text.Fixed(0, 1) == Text.Fixed(0, 0) + ['0'];
    assert Text.Fixed(1, 2) == Text.Fixed(0, 1) + ['1'];
  }

  lemma AtMidnight(t: int, day: nat)
    requires Wall(t, 0) == day * DAY && FourDigitYear(Wall(t, 0))
    ensures Format(t, 0) == DateText(DateOf(day)) + (['T'] + ClockText(Clock(0, 0, 0))) + "Z"
  {
    assert Wall(t, 0) / DAY == day && Wall(t, 0) % DAY == 0;
  }

  /**
   The first instant of every year reads as it should. For y = 1970 it is day 719528,
   where Go's Unix time starts.
   */
  lemma NewYearText(y: nat, t: int)
    requires y <= 9999
    requires t == (365 * y + (y + 3) / 4 - (y + 99) / 100 + (y + 399) / 400) * 86400 * 1_000_000_000
    ensures FourDigitYear(Wall(t, 0)) && Format(t, 0) == Text.Fixed(y, 4) + "-01-01" + "T00:00:00" + "Z"
  {
    var day := DaysBeforeYear(y);
    DaysBeforeYearInClosedForm(y);
    NewYear(y);
    WholeDay(t, day);
    AtMidnight(t, day);
    MidnightText();
    FirstOfJanuaryText(y);
    assert ['T'] + "00:00:00" == "T00:00:00";
  }

  lemma WholeDay(t: int, day: nat)
    requires t == day * 86400 * 1_000_000_000
    ensures Wall(t, 0) == day * DAY && Wall(t, 0) / DAY == day
  {
  }
}

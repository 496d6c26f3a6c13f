/** Reading a timestamp of RFC 3339, section 5.6, into milliseconds since 1970.  Text is ASCII. */
module Rfc3339 {
  import opened Options
  import opened Calendar

  predicate IsDigit(c: char) { '0' <= c <= '9' }

  function DigitOf(c: char): int { c as int - '0' as int }

  function Digits(s: string): int {
    if s == [] then 0 else 10 * Digits(s[..|s| - 1]) + DigitOf(s[|s| - 1])
  }

  predicate AllDigits(s: string) { forall i | 0 <= i < |s| :: IsDigit(s[i]) }

  /** `str::parse::<i64>`, which takes a sign. */
  function ParseInt(s: string): Option<int> {
    var signed := |s| > 0 && (s[0] == '+' || s[0] == '-');
    var digits := if signed then s[1..] else s;
    if digits == [] || !AllDigits(digits) then None
    else Some(if signed && s[0] == '-' then -Digits(digits) else Digits(digits))
  }

  function ParseSlice(s: string, from: nat, to: nat): Option<int>
    requires from <= to
  {
    if to <= |s| then ParseInt(s[from..to]) else None
  }

  /** How many digits follow at `from`. */
  function DigitsFrom(s: string, from: nat): (n: nat)
    ensures from <= |s| ==> from + n <= |s|
    decreases |s| - from
  {
    if from < |s| && IsDigit(s[from]) then 1 + DigitsFrom(s, from + 1) else 0
  }

  /** The first three digits of a fraction, as milliseconds. */
  function Millis(digits: string): int {
    (if |digits| > 0 then 100 * DigitOf(digits[0]) else 0)
    + (if |digits| > 1 then 10 * DigitOf(digits[1]) else 0)
    + (if |digits| > 2 then DigitOf(digits[2]) else 0)
  }

  /** Seconds east of UTC. */
  function ZoneSeconds(zone: string): Option<int> {
    if zone == "Z" then Some(0)
    else if |zone| == 0 || (zone[0] != '+' && zone[0] != '-') then None
    else
      match (ParseSlice(zone, 1, 3), ParseSlice(zone, 4, 6))
      case (Some(hours), Some(minutes)) =>
        Some((if zone[0] == '+' then 1 else -1) * (hours * 3_600 + minutes * 60))
      case _ => None
  }

  datatype Clock = Clock(hour: int, minute: int, second: int)

  /** The fields at their places and in the ranges the code checks. */
  function ParseFields(value: string): Option<(Date, Clock)> {
    if |value| < 19 || value[10] != 'T' then None
    else
      match (ParseInt(value[0..4]), ParseInt(value[5..7]), ParseInt(value[8..10]))
      case (Some(year), Some(month), Some(day)) => (
        match (ParseInt(value[11..13]), ParseInt(value[14..16]), ParseInt(value[17..19]))
        case (Some(hour), Some(minute), Some(second)) =>
          if 1 <= month <= 12 && 1 <= day <= 31 && hour <= 23 && minute <= 59 && second <= 60
          then Some((Date(year, month, day), Clock(hour, minute, second)))
          else None
        case _ => None)
      case _ => None
  }

  function FractionAt(value: string): string
    requires |value| >= 19
  {
    if |value| > 19 && value[19] == '.' then value[20..20 + DigitsFrom(value, 20)] else ""
  }

  function ZoneAt(value: string): string
    requires |value| >= 19
  {
    if |value| > 19 && value[19] == '.' then value[20 + DigitsFrom(value, 20)..] else value[19..]
  }

  function Instant(days: int, clock: Clock, offset: int, millis: int): int {
    (days * 86_400 + clock.hour * 3_600 + clock.minute * 60 + clock.second - offset) * 1_000 + millis
  }

  function ParsedMs(value: string): Option<int> {
    match ParseFields(value)
    case None => None
    case Some((date, clock)) =>
      match (ZoneSeconds(ZoneAt(value)), DaysFromCivil(date))
      case (Some(offset), Some(days)) => Some(Instant(days, clock, offset, Millis(FractionAt(value))))
      case _ => None
  }

  /** The fraction's loop: up to three digits are weighed, all are skipped. */
  method ReadFraction(value: string) returns (millis: int, offset: nat)
    requires |value| > 19 && value[19] == '.'
    ensures millis == Millis(FractionAt(value))
    ensures offset <= |value| && value[offset..] == ZoneAt(value)
  {
    offset, millis := 20, 0;
    var index, weight := 0, 100;
    while index < 3 && 20 + index < |value| && IsDigit(value[20 + index])
      invariant 0 <= index <= 3 && 20 + index <= |value|
      invariant weight == if index == 0 then 100 else if index == 1 then 10 else 1
      invariant AllDigits(value[20..20 + index])
      invariant millis == Millis(value[20..20 + index])
    {
      assert value[20..20 + index + 1] == value[20..20 + index] + [value[20 + index]];
      millis := millis + DigitOf(value[20 + index]) * weight;
      weight := if index == 0 then 10 else 1;
      index := index + 1;
    }
    FirstDigits(value, 20, index);
    var count := 0;
    while 20 + count < |value| && IsDigit(value[20 + count])
      invariant 20 + count <= |value|
      invariant DigitsFrom(value, 20) == count + DigitsFrom(value, 20 + count)
    {
      count := count + 1;
    }
    offset := 20 + count;
  }

  /** `parse_rfc3339_ms`. */
  method ParseRfc3339Ms(value: string) returns (ms: Option<int>)
    ensures ms == ParsedMs(value)
  {
    hide DaysFromCivil, ZoneSeconds, Millis, Instant, DigitsFrom, ParseInt;
    ms := None;
    var fields := ParseFields(value);
    if fields.Some? {
      var offset, millis := 19, 0;
      EmptyFraction();
      if |value| > 19 && value[19] == '.' {
        millis, offset := ReadFraction(value);
      }
      var zone := ZoneSeconds(value[offset..]);
      if zone.Some? {
        var days := DaysFromCivil(fields.value.0);
        if days.Some? {
          ms := Some(Instant(days.value, fields.value.1, zone.value, millis));
        }
      }
    }
  }

  lemma EmptyFraction()
    ensures Millis("") == 0
  {
  }

  /** Reading at most three digits is reading the first three of all of them. */
  lemma FirstDigits(s: string, from: nat, n: nat)
    requires from + n <= |s| && n <= 3 && AllDigits(s[from..from + n])
    requires n == 3 || from + n == |s| || !IsDigit(s[from + n])
    ensures Millis(s[from..from + n]) == Millis(s[from..from + DigitsFrom(s, from)])
  {
    DigitsReach(s, from, n);
    var all := s[from..from + DigitsFrom(s, from)];
    assert s[from..from + n] == all[..n];
  }

  lemma {:induction false} DigitsReach(s: string, from: nat, n: nat)
    requires from + n <= |s| && AllDigits(s[from..from + n])
    ensures DigitsFrom(s, from) == n + DigitsFrom(s, from + n)
    decreases n
  {
    if n > 0 {
      var digits := s[from..from + n];
      assert IsDigit(digits[0]) && digits[0] == s[from];
      assert s[from + 1..from + n] == digits[1..];
      DigitsReach(s, from + 1, n - 1);
    }
  }

  // ---- writing ------------------------------------------------------------------------------

  function Digit(n: int): char
    requires 0 <= n < 10
  {
    (n + '0' as int) as char
  }

  function Two(n: int): string
    requires 0 <= n < 100
  {
    [Digit(n / 10), Digit(n % 10)]
  }

  function Four(n: int): string
    requires 0 <= n < 10_000
  {
    Two(n / 100) + Two(n % 100)
  }

  datatype Zone = Utc | Offset(east: bool, hours: int, minutes: int)

  predicate IsZone(zone: Zone) { zone.Utc? || (0 <= zone.hours < 24 && 0 <= zone.minutes < 60) }

  function WriteZone(zone: Zone): string
    requires IsZone(zone)
  {
    if zone.Utc? then "Z" else [if zone.east then '+' else '-'] + Two(zone.hours) + ":" + Two(zone.minutes)
  }

  function EastOf(zone: Zone): int {
    if zone.Utc? then 0
    else if zone.east then zone.hours * 3_600 + zone.minutes * 60 else -(zone.hours * 3_600 + zone.minutes * 60)
  }

  predicate IsClock(clock: Clock) {
    0 <= clock.hour < 24 && 0 <= clock.minute < 60 && 0 <= clock.second <= 60
  }

  function WriteFields(date: Date, clock: Clock): string
    requires IsDate(date) && 0 <= date.year < 10_000 && IsClock(clock)
  {
    Four(date.year) + "-" + Two(date.month) + "-" + Two(date.day) + "T"
    + Two(clock.hour) + ":" + Two(clock.minute) + ":" + Two(clock.second)
  }

  function WriteFraction(fraction: string): string { if fraction == "" then "" else "." + fraction }

  lemma TwoParses(n: int)
    requires 0 <= n < 100
    ensures ParseInt(Two(n)) == Some(n)
  {
    assert Two(n)[..1] == [Two(n)[0]] && Two(n)[..1][..0] == [];
    assert Digits(Two(n)[..1]) == n / 10;
  }

  lemma FourParses(n: int)
    requires 0 <= n < 10_000
    ensures ParseInt(Four(n)) == Some(n)
  {
    var s := Four(n);
    assert s[..3][..2] == Two(n / 100);
    TwoParses(n / 100);
    assert s[..3][2] == Digit(n % 100 / 10) && s[3] == Digit(n % 100 % 10);
    assert Digits(s[..3]) == 10 * (n / 100) + n % 100 / 10;
    assert AllDigits(s);
  }

  lemma FieldsParse(date: Date, clock: Clock, rest: string)
    requires IsDate(date) && 0 <= date.year < 10_000 && IsClock(clock)
    ensures |WriteFields(date, clock)| == 19
    ensures ParseFields(WriteFields(date, clock) + rest) == Some((date, clock))
  {
    hide ParseInt, Digits;
    var value := WriteFields(date, clock) + rest;
    FourParses(date.year);
    TwoParses(date.month);
    TwoParses(date.day);
    TwoParses(clock.hour);
    TwoParses(clock.minute);
    TwoParses(clock.second);
    assert value[0..4] == Four(date.year);
    assert value[5..7] == Two(date.month);
    assert value[8..10] == Two(date.day);
    assert value[11..13] == Two(clock.hour);
    assert value[14..16] == Two(clock.minute);
    assert value[17..19] == Two(clock.second);
  }

  lemma ZoneParses(zone: Zone)
    requires IsZone(zone)
    ensures ZoneSeconds(WriteZone(zone)) == Some(EastOf(zone))
  {
    hide ParseInt, Digits;
    if zone.Offset? {
      var s := WriteZone(zone);
      TwoParses(zone.hours);
      TwoParses(zone.minutes);
      assert s[1..3] == Two(zone.hours) && s[4..6] == Two(zone.minutes);
    }
  }

  lemma FractionParses(head: string, fraction: string, zone: Zone)
    requires |head| == 19 && AllDigits(fraction) && IsZone(zone)
    ensures var value := head + WriteFraction(fraction) + WriteZone(zone);
      FractionAt(value) == fraction && ZoneAt(value) == WriteZone(zone)
  {
    var tail := WriteZone(zone);
    var value := head + WriteFraction(fraction) + tail;
    if fraction == "" {
      assert value[19] == tail[0] && value[19..] == tail;
    } else {
      assert value[20..20 + |fraction|] == fraction;
      DigitsReach(value, 20, |fraction|);
      assert value[20 + |fraction|] == tail[0];
      assert value[20 + |fraction|..] == tail;
    }
  }

  /** Every timestamp written in the standard's form, with an upper-case T and Z, any fraction and
      any zone, is read as the instant it names, to the millisecond. */
  lemma ReadsWhatIsWritten(date: Date, clock: Clock, fraction: string, zone: Zone)
    requires IsDate(date) && 0 <= date.year < 10_000 && IsClock(clock) && AllDigits(fraction) && IsZone(zone)
    ensures DaysFromCivil(date).Some?
    ensures ParsedMs(WriteFields(date, clock) + WriteFraction(fraction) + WriteZone(zone))
         == Some(Instant(DaysFromCivil(date).value, clock, EastOf(zone), Millis(fraction)))
  {
    hide DaysFromCivil, ParseFields, ZoneSeconds, WriteFields, WriteZone, WriteFraction, FractionAt, ZoneAt, Millis, Instant;
    var head := WriteFields(date, clock);
    FieldsParse(date, clock, WriteFraction(fraction) + WriteZone(zone));
    assert head + WriteFraction(fraction) + WriteZone(zone) == head + (WriteFraction(fraction) + WriteZone(zone));
    FractionParses(head, fraction, zone);
    ZoneParses(zone);
    WithinYear(date);
  }

  // ---- and nothing else ---------------------------------------------------------------------

  /** A timestamp of the standard's form with an upper-case T and Z. */
  ghost predicate IsTimestamp(value: string) {
    exists date: Date, clock: Clock, fraction: string, zone: Zone ::
      IsWritten(value, date, clock, fraction, zone)
  }

  ghost predicate IsWritten(value: string, date: Date, clock: Clock, fraction: string, zone: Zone) {
    && IsDate(date) && 0 <= date.year < 10_000 && IsClock(clock) && AllDigits(fraction) && IsZone(zone)
    && value == WriteFields(date, clock) + WriteFraction(fraction) + WriteZone(zone)
  }

  /** Separators where they belong and nothing but digits in the fields. */
  predicate FieldsInPlace(value: string) {
    && |value| >= 19
    && value[4] == '-' && value[7] == '-' && value[10] == 'T' && value[13] == ':' && value[16] == ':'
    && AllDigits(value[0..4]) && AllDigits(value[5..7]) && AllDigits(value[8..10])
    && AllDigits(value[11..13]) && AllDigits(value[14..16]) && AllDigits(value[17..19])
  }

  predicate ZoneInPlace(zone: string) {
    || zone == "Z"
    || (&& |zone| == 6 && (zone[0] == '+' || zone[0] == '-') && zone[3] == ':'
        && AllDigits(zone[1..3]) && AllDigits(zone[4..6]) && Digits(zone[1..3]) < 24 && Digits(zone[4..6]) < 60)
  }

  /** What a caller can check on the text: fields in place, a digit after a point, and a zone that
      is "Z" or a whole offset in range. */
  predicate InPlace(value: string) {
    && FieldsInPlace(value)
    && (|value| > 19 && value[19] == '.' ==> FractionAt(value) != "")
    && ZoneInPlace(ZoneAt(value))
  }

  lemma TwoDigits(s: string)
    requires |s| == 2
    ensures Digits(s) == 10 * DigitOf(s[0]) + DigitOf(s[1])
  {
    assert s[..1] == [s[0]] && s[..1][..0] == [];
    assert Digits(s[..1]) == DigitOf(s[0]);
  }

  lemma TwoIsWritten(s: string, n: int)
    requires |s| == 2 && AllDigits(s) && n == 10 * DigitOf(s[0]) + DigitOf(s[1])
    ensures 0 <= n < 100 && Two(n) == s
  {
    assert n / 10 == DigitOf(s[0]) && n % 10 == DigitOf(s[1]);
  }

  lemma DigitsOfTwo(s: string)
    requires |s| == 2 && AllDigits(s)
    ensures Digits(s) == 10 * DigitOf(s[0]) + DigitOf(s[1]) && 0 <= Digits(s) < 100
    ensures ParseInt(s) == Some(Digits(s)) && Two(Digits(s)) == s
  {
    hide Digits, Two;
    TwoDigits(s);
    TwoIsWritten(s, Digits(s));
    assert IsDigit(s[0]);
  }

  lemma FourDigits(s: string)
    requires |s| == 4
    ensures Digits(s) == 10 * (10 * Digits(s[..2]) + DigitOf(s[2])) + DigitOf(s[3])
  {
    assert s[..3][..2] == s[..2] && s[..3][2] == s[2];
  }

  lemma DigitsOfFour(s: string)
    requires |s| == 4 && AllDigits(s)
    ensures 0 <= Digits(s) < 10_000 && ParseInt(s) == Some(Digits(s)) && Four(Digits(s)) == s
  {
    hide Digits, Two;
    FourDigits(s);
    DigitsOfTwo(s[..2]);
    DigitsOfTwo(s[2..]);
    var high, low := Digits(s[..2]), Digits(s[2..]);
    assert Digits(s) == 100 * high + low && Digits(s) / 100 == high && Digits(s) % 100 == low;
    assert s == s[..2] + s[2..];
  }

  lemma TwoIsDigits(n: int)
    requires 0 <= n < 100
    ensures |Two(n)| == 2 && AllDigits(Two(n)) && Digits(Two(n)) == n
  {
    TwoParses(n);
    DigitsOfTwo(Two(n));
  }

  lemma WrittenFieldsInPlace(date: Date, clock: Clock, rest: string)
    requires IsDate(date) && 0 <= date.year < 10_000 && IsClock(clock)
    ensures FieldsInPlace(WriteFields(date, clock) + rest)
  {
    hide Digits, Two;
    TwoIsDigits(date.year / 100);
    TwoIsDigits(date.year % 100);
    TwoIsDigits(date.month);
    TwoIsDigits(date.day);
    TwoIsDigits(clock.hour);
    TwoIsDigits(clock.minute);
    TwoIsDigits(clock.second);
    PartsInPlace(Four(date.year), Two(date.month), Two(date.day), Two(clock.hour), Two(clock.minute), Two(clock.second), rest);
  }

  /** Where the parts of a written timestamp are. */
  lemma PartsInPlace(year: string, month: string, day: string, hour: string, minute: string, second: string, rest: string)
    requires |year| == 4 && |month| == 2 && |day| == 2 && |hour| == 2 && |minute| == 2 && |second| == 2
    ensures var value := year + "-" + month + "-" + day + "T" + hour + ":" + minute + ":" + second + rest;
      && |value| >= 19
      && value[4] == '-' && value[7] == '-' && value[10] == 'T' && value[13] == ':' && value[16] == ':'
      && value[0..4] == year && value[5..7] == month && value[8..10] == day
      && value[11..13] == hour && value[14..16] == minute && value[17..19] == second
  {
    var p1 := year + "-" + month;
    var p2 := p1 + "-" + day;
    var p3 := p2 + "T" + hour;
    var p4 := p3 + ":" + minute;
    var p5 := p4 + ":" + second;
    var value := p5 + rest;
    assert p1[0..4] == year && p1[4] == '-' && p1[5..7] == month;
    assert p2[..7] == p1 && p2[7] == '-' && p2[8..10] == day;
    assert p3[..10] == p2 && p3[10] == 'T' && p3[11..13] == hour;
    assert p4[..13] == p3 && p4[13] == ':' && p4[14..16] == minute;
    assert p5[..16] == p4 && p5[16] == ':' && p5[17..19] == second;
    assert value[..19] == p5;
    assert value[0..4] == p1[0..4] && value[5..7] == p1[5..7] && value[8..10] == p2[8..10];
    assert value[11..13] == p3[11..13] && value[14..16] == p4[14..16] && value[17..19] == p5[17..19];
  }

  lemma WrittenZoneInPlace(zone: Zone)
    requires IsZone(zone)
    ensures ZoneInPlace(WriteZone(zone)) && |WriteZone(zone)| > 0 && WriteZone(zone)[0] != '.'
  {
    hide Digits;
    if zone.Offset? {
      var s := WriteZone(zone);
      TwoIsDigits(zone.hours);
      TwoIsDigits(zone.minutes);
      assert s[1..3] == Two(zone.hours) && s[4..6] == Two(zone.minutes);
    }
  }

  lemma WrittenIsInPlace(value: string, date: Date, clock: Clock, fraction: string, zone: Zone)
    requires IsWritten(value, date, clock, fraction, zone)
    ensures InPlace(value) && ParsedMs(value).Some?
  {
    hide FieldsInPlace, ZoneInPlace, WriteFields, WriteZone, ParsedMs, FractionAt, ZoneAt, IsZone, IsClock;
    var head, tail := WriteFields(date, clock), WriteZone(zone);
    assert value == head + (WriteFraction(fraction) + tail);
    WrittenFieldsInPlace(date, clock, WriteFraction(fraction) + tail);
    FieldsParse(date, clock, WriteFraction(fraction) + tail);
    FractionParses(head, fraction, zone);
    WrittenZoneInPlace(zone);
    ReadsWhatIsWritten(date, clock, fraction, zone);
    NoPointAfter(head, tail);
  }

  lemma NoPointAfter(head: string, tail: string)
    requires |head| == 19 && |tail| > 0 && tail[0] != '.'
    ensures |head + (WriteFraction("") + tail)| > 19 && (head + (WriteFraction("") + tail))[19] != '.'
  {
  }

  lemma ZoneOf(s: string) returns (zone: Zone)
    requires ZoneInPlace(s)
    ensures IsZone(zone) && WriteZone(zone) == s
  {
    if s == "Z" {
      zone := Utc;
    } else {
      DigitsOfTwo(s[1..3]);
      DigitsOfTwo(s[4..6]);
      zone := Offset(s[0] == '+', Digits(s[1..3]), Digits(s[4..6]));
      assert s == [s[0]] + s[1..3] + [s[3]] + s[4..6];
    }
  }

  lemma FieldsAreWritten(value: string)
    requires FieldsInPlace(value) && ParseFields(value).Some? && IsDate(ParseFields(value).value.0)
    ensures var (date, clock) := ParseFields(value).value;
      0 <= date.year < 10_000 && IsClock(clock) && value[..19] == WriteFields(date, clock)
  {
    hide Digits, ParseInt, Two, Four;
    DigitsOfFour(value[0..4]);
    DigitsOfTwo(value[5..7]);
    DigitsOfTwo(value[8..10]);
    DigitsOfTwo(value[11..13]);
    DigitsOfTwo(value[14..16]);
    DigitsOfTwo(value[17..19]);
    Spelled(value);
  }

  lemma Spelled(value: string)
    requires |value| >= 19
    ensures value[..19] == value[0..4] + [value[4]] + value[5..7] + [value[7]] + value[8..10] + [value[10]]
                           + value[11..13] + [value[13]] + value[14..16] + [value[16]] + value[17..19]
  {
  }

  lemma FractionAndZone(value: string)
    requires |value| >= 19 && (|value| > 19 && value[19] == '.' ==> FractionAt(value) != "")
    ensures AllDigits(FractionAt(value)) && value == value[..19] + WriteFraction(FractionAt(value)) + ZoneAt(value)
  {
    if |value| > 19 && value[19] == '.' {
      DigitsFromAreDigits(value, 20);
      assert value == value[..19] + [value[19]] + value[20..20 + DigitsFrom(value, 20)] + value[20 + DigitsFrom(value, 20)..];
    } else {
      assert value == value[..19] + "" + value[19..];
    }
  }

  lemma {:induction false} DigitsFromAreDigits(s: string, from: nat)
    requires from <= |s|
    ensures AllDigits(s[from..from + DigitsFrom(s, from)])
    decreases |s| - from
  {
    if from < |s| && IsDigit(s[from]) {
      DigitsFromAreDigits(s, from + 1);
      assert s[from..from + DigitsFrom(s, from)] == [s[from]] + s[from + 1..from + DigitsFrom(s, from)];
    }
  }

  /** The parser reads more than timestamps.  For every text it reads: the text is a timestamp
      exactly when it is in place. */
  lemma ReadTextIsTimestampIff(value: string)
    ensures ParsedMs(value).Some? ==> (IsTimestamp(value) <==> InPlace(value))
    ensures IsTimestamp(value) <==> ParsedMs(value).Some? && InPlace(value)
  {
    hide IsWritten, FieldsInPlace, ZoneInPlace, ParseFields, DaysFromCivil, ZoneSeconds, FractionAt, ZoneAt;
    if IsTimestamp(value) {
      var date: Date, clock: Clock, fraction: string, zone: Zone :| IsWritten(value, date, clock, fraction, zone);
      WrittenIsInPlace(value, date, clock, fraction, zone);
    }
    if ParsedMs(value).Some? && InPlace(value) {
      var (date, clock) := ParseFields(value).value;
      ReadDateIsDate(value);
      FieldsAreWritten(value);
      LongEnough(value);
      FractionAndZone(value);
      var zone := ZoneOf(ZoneAt(value));
      WrittenTogether(value, date, clock, zone);
    }
  }

  lemma LongEnough(value: string)
    requires FieldsInPlace(value)
    ensures |value| >= 19
  {
  }

  lemma ReadDateIsDate(value: string)
    requires ParsedMs(value).Some?
    ensures ParseFields(value).Some? && IsDate(ParseFields(value).value.0)
  {
    hide DaysFromCivil, ZoneSeconds, FractionAt, ZoneAt, ParseInt;
    RefusedIff(ParseFields(value).value.0);
  }

  lemma WrittenTogether(value: string, date: Date, clock: Clock, zone: Zone)
    requires |value| >= 19 && IsDate(date) && 0 <= date.year < 10_000 && IsClock(clock) && IsZone(zone)
    requires value[..19] == WriteFields(date, clock) && WriteZone(zone) == ZoneAt(value) && AllDigits(FractionAt(value))
    requires value == value[..19] + WriteFraction(FractionAt(value)) + ZoneAt(value)
    ensures IsWritten(value, date, clock, FractionAt(value), zone)
  {
  }

  /** A lower-case t or z, which section 5.6 also allows, is refused. */
  lemma LowerCaseIsRefused(value: string)
    ensures |value| > 10 && value[10] == 't' ==> ParsedMs(value) == None
    ensures |value| >= 19 && ZoneAt(value) == "z" ==> ParsedMs(value) == None
  {
    hide DaysFromCivil, ParseInt, DigitsFrom, ZoneSeconds, Millis;
    SmallZone("z");
  }

  lemma SmallZone(zone: string)
    requires |zone| > 0 && zone[0] == 'z'
    ensures ZoneSeconds(zone) == None
  {
    assert zone[0] != "Z"[0];
  }

  /** One text that is read and not in place: an hour of "-1" is the hour before midnight. */
  lemma SignedHourIsAccepted()
    ensures ParsedMs("1970-01-01T-1:00:00Z") == Some(-3_600_000) && !InPlace("1970-01-01T-1:00:00Z")
  {
    hide ParseFields, DaysFromCivil, Digits, ZoneInPlace;
    var value := "1970-01-01T-1:00:00Z";
    FieldsOfExample(value);
    assert !IsDigit(value[11..13][0]);
    assert value[19..] == "Z";
    WalkIsCounted(0);
  }

  lemma FieldsOfExample(value: string)
    requires value == "1970-01-01T-1:00:00Z"
    ensures ParseFields(value) == Some((EPOCH, Clock(-1, 0, 0)))
  {
    hide ParseInt, Four, Two;
    FourParses(1970);
    TwoParses(1);
    TwoParses(0);
    MinusOne();
    ExampleSlices(value);
  }

  lemma ExampleSlices(value: string)
    requires value == "1970-01-01T-1:00:00Z"
    ensures value[0..4] == Four(1970) && value[5..7] == Two(1) && value[8..10] == Two(1)
    ensures value[11..13] == "-1" && value[14..16] == Two(0) && value[17..19] == Two(0)
  {
    hide Two, Four;
    ExampleNumbers();
    assert value[0..4] == "1970" && value[5..7] == "01" && value[8..10] == "01";
    assert value[11..13] == "-1" && value[14..16] == "00" && value[17..19] == "00";
  }

  lemma ExampleNumbers()
    ensures Four(1970) == "1970" && Two(1) == "01" && Two(0) == "00"
  {
    assert Two(19) == "19" && Two(70) == "70";
  }

  lemma MinusOne()
    ensures ParseInt("-1") == Some(-1)
  {
    assert "-1"[1..] == "1" && "1"[..0] == "";
    assert Digits("1") == 1;
  }
}

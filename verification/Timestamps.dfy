/**
 Stored timestamps: `YYYY-MM-DDTHH:MM:SS.ffffffZ`, always 27 characters, always UTC.
 The text form follows sections 5.1 and 5.6 of RFC 3339; both adapters sort by it.
 */
module Timestamps {
  import opened Outcomes
  import opened Text
  import opened Radix

  const DAY: int := 86_400_000_000  // microseconds

  /** The fields of a proleptic Gregorian date and time of day. */
  datatype CivilTime = CivilTime(year: nat, month: nat, day: nat,
                                 hour: nat, minute: nat, second: nat, micro: nat)

  predicate IsLeap(year: nat) {
    year % 4 == 0 && (year % 100 != 0 || year % 400 == 0)
  }

  function DaysInMonth(year: nat, month: nat): nat {
    if month == 2 then (if IsLeap(year) then 29 else 28)
    else if month in {4, 6, 9, 11} then 30
    else 31
  }

  predicate IsDate(year: nat, month: nat, day: nat) {
    1 <= year <= 9999 && 1 <= month <= 12 && 1 <= day <= DaysInMonth(year, month)
  }

  predicate IsCivil(c: CivilTime) {
    IsDate(c.year, c.month, c.day) && c.hour < 24 && c.minute < 60 && c.second < 60 && c.micro < 1_000_000
  }

  type UtcTime = c: CivilTime | IsCivil(c) witness CivilTime(1, 1, 1, 0, 0, 0, 0)

  /** Field-by-field comparison, as two datetimes of one zone compare. */
  predicate Earlier(a: CivilTime, b: CivilTime) {
    || a.year < b.year
    || (a.year == b.year && (a.month < b.month
    || (a.month == b.month && (a.day < b.day
    || (a.day == b.day && (a.hour < b.hour
    || (a.hour == b.hour && (a.minute < b.minute
    || (a.minute == b.minute && (a.second < b.second
    || (a.second == b.second && a.micro < b.micro)))))))))))
  }

  // ----- text form -----

  function TimeText(c: CivilTime): string {
    Digits(c.hour, 2, DECIMAL) + [':'] + (
    Digits(c.minute, 2, DECIMAL) + [':'] + (
    Digits(c.second, 2, DECIMAL) + ['.'] + (
    Digits(c.micro, 6, DECIMAL) + ['Z'] + "")))
  }

  /** encode_timestamp of a value already in UTC. */
  function Encode(c: UtcTime): string {
    Digits(c.year, 4, DECIMAL) + ['-'] + (
    Digits(c.month, 2, DECIMAL) + ['-'] + (
    Digits(c.day, 2, DECIMAL) + ['T'] + TimeText(c)))
  }

  /** One fixed-width field and its separator, and the text behind them. */
  function ReadField(text: string, width: nat, separator: char): Option<(nat, string)> {
    if |text| > width && (forall i :: 0 <= i < width ==> text[i] in DECIMAL) && text[width] == separator
    then Some((Value(text[..width], DECIMAL), text[width + 1..]))
    else None
  }

  /** decode_timestamp on the stored shape; anything else is malformed. */
  function Decode(text: string): Option<UtcTime> {
    var year :- ReadField(text, 4, '-');
    var month :- ReadField(year.1, 2, '-');
    var day :- ReadField(month.1, 2, 'T');
    var hour :- ReadField(day.1, 2, ':');
    var minute :- ReadField(hour.1, 2, ':');
    var second :- ReadField(minute.1, 2, '.');
    var micro :- ReadField(second.1, 6, 'Z');
    var c := CivilTime(year.0, month.0, day.0, hour.0, minute.0, second.0, micro.0);
    if micro.1 == "" && IsCivil(c) then Some(c) else None
  }

  lemma DecimalPowers()
    ensures Power(2, DECIMAL) == 100 && Power(4, DECIMAL) == 10_000 && Power(6, DECIMAL) == 1_000_000
  {
    assert Power(3, DECIMAL) == 1000 && Power(5, DECIMAL) == 100_000;
  }

  lemma FieldDecides(n: nat, m: nat, width: nat, separator: char, a: string, b: string)
    requires n < Power(width, DECIMAL) && m < Power(width, DECIMAL)
    ensures Before(Digits(n, width, DECIMAL) + [separator] + a, Digits(m, width, DECIMAL) + [separator] + b)
       <==> n < m || (n == m && Before(a, b))
  {
    var p, q := Digits(n, width, DECIMAL), Digits(m, width, DECIMAL);
    EqualWidthPrefixes(p + [separator], q + [separator], a, b);
    EqualWidthPrefixes(p, q, [separator], [separator]);
    BeforeIsIrreflexive([separator]);
    DigitsKeepOrder(n, m, width, DECIMAL);
    SameDigits(n, m, width, DECIMAL);
    if p + [separator] == q + [separator] {
      EqualWidthParts(p, q, [separator], [separator]);
    }
  }

  lemma FieldReadsBack(n: nat, width: nat, separator: char, rest: string)
    requires n < Power(width, DECIMAL)
    ensures ReadField(Digits(n, width, DECIMAL) + [separator] + rest, width, separator) == Some((n, rest))
  {
    var text := Digits(n, width, DECIMAL) + [separator] + rest;
    assert text[..width] == Digits(n, width, DECIMAL) && text[width + 1..] == rest;
    assert forall i :: 0 <= i < width ==> text[i] == Digits(n, width, DECIMAL)[i];
    ValueOfDigits(n, width, DECIMAL);
  }

  lemma TimeTextKeepsOrder(a: UtcTime, b: UtcTime)
    ensures Before(TimeText(a), TimeText(b)) <==>
      a.hour < b.hour || (a.hour == b.hour && (a.minute < b.minute || (a.minute == b.minute
      && (a.second < b.second || (a.second == b.second && a.micro < b.micro)))))
  {
    DecimalPowers();
    var aMicro, bMicro := Digits(a.micro, 6, DECIMAL) + ['Z'] + "", Digits(b.micro, 6, DECIMAL) + ['Z'] + "";
    var aSecond, bSecond := Digits(a.second, 2, DECIMAL) + ['.'] + aMicro, Digits(b.second, 2, DECIMAL) + ['.'] + bMicro;
    var aMinute, bMinute := Digits(a.minute, 2, DECIMAL) + [':'] + aSecond, Digits(b.minute, 2, DECIMAL) + [':'] + bSecond;
    FieldDecides(a.micro, b.micro, 6, 'Z', "", "");
    FieldDecides(a.second, b.second, 2, '.', aMicro, bMicro);
    FieldDecides(a.minute, b.minute, 2, ':', aSecond, bSecond);
    FieldDecides(a.hour, b.hour, 2, ':', aMinute, bMinute);
  }

  /** Text order is field order. */
  lemma EncodeKeepsOrder(a: UtcTime, b: UtcTime)
    ensures Before(Encode(a), Encode(b)) <==> Earlier(a, b)
  {
    hide Digits, TimeText, Power, Before;
    DecimalPowers();
    TimeTextKeepsOrder(a, b);
    var aDay, bDay := Digits(a.day, 2, DECIMAL) + ['T'] + TimeText(a), Digits(b.day, 2, DECIMAL) + ['T'] + TimeText(b);
    var aMonth, bMonth := Digits(a.month, 2, DECIMAL) + ['-'] + aDay, Digits(b.month, 2, DECIMAL) + ['-'] + bDay;
    FieldDecides(a.day, b.day, 2, 'T', TimeText(a), TimeText(b));
    FieldDecides(a.month, b.month, 2, '-', aDay, bDay);
    FieldDecides(a.year, b.year, 4, '-', aMonth, bMonth);
  }

  /** Every stored timestamp reads back exactly. */
  lemma DecodeInvertsEncode(c: UtcTime)
    ensures Decode(Encode(c)) == Some(c)
    ensures |Encode(c)| == 27
  {
    DecimalPowers();
    var micro := Digits(c.micro, 6, DECIMAL) + ['Z'] + "";
    var second := Digits(c.second, 2, DECIMAL) + ['.'] + micro;
    var minute := Digits(c.minute, 2, DECIMAL) + [':'] + second;
    var day := Digits(c.day, 2, DECIMAL) + ['T'] + TimeText(c);
    var month := Digits(c.month, 2, DECIMAL) + ['-'] + day;
    FieldReadsBack(c.micro, 6, 'Z', "");
    FieldReadsBack(c.second, 2, '.', micro);
    FieldReadsBack(c.minute, 2, ':', second);
    FieldReadsBack(c.hour, 2, ':', minute);
    FieldReadsBack(c.day, 2, 'T', TimeText(c));
    FieldReadsBack(c.month, 2, '-', day);
    FieldReadsBack(c.year, 4, '-', month);
  }

  /** The number that decimal digits are read as. */
  function Number(s: string): nat
    requires forall i | 0 <= i < |s| :: '0' <= s[i] <= '9'
  {
    if s == "" then 0 else 10 * Number(s[..|s| - 1]) + (s[|s| - 1] - '0') as int
  }

  lemma {:induction false} DigitsAreNumbers(n: nat, width: nat)
    requires n < Power(width, DECIMAL)
    ensures forall i | 0 <= i < width :: '0' <= Digits(n, width, DECIMAL)[i] <= '9'
    ensures Number(Digits(n, width, DECIMAL)) == n
  {
    if width > 0 {
      var s := Digits(n, width, DECIMAL);
      DigitsAreNumbers(n / 10, width - 1);
      assert s[..width - 1] == Digits(n / 10, width - 1, DECIMAL);
      DecimalDigit(n % 10);
    }
  }

  lemma DecimalDigit(d: nat)
    requires d < 10
    ensures '0' <= DECIMAL[d] <= '9' && (DECIMAL[d] - '0') as int == d
  {
    var s := DECIMAL;
    assert s[0] == '0' && s[1] == '1' && s[2] == '2' && s[3] == '3' && s[4] == '4';
    assert s[5] == '5' && s[6] == '6' && s[7] == '7' && s[8] == '8' && s[9] == '9';
  }

  /** A stretch of a text is this field's decimal numeral. */
  ghost predicate Shows(s: string, from: nat, to: nat, n: nat) {
    && from <= to <= |s| && (forall i | from <= i < to :: '0' <= s[i] <= '9')
    && Number(s[from..to]) == n
  }

  lemma ShowsDigits(s: string, from: nat, width: nat, n: nat)
    requires from + width <= |s| && n < Power(width, DECIMAL) && s[from..from + width] == Digits(n, width, DECIMAL)
    ensures Shows(s, from, from + width, n)
  {
    DigitsAreNumbers(n, width);
    assert forall i | from <= i < from + width :: s[i] == s[from..from + width][i - from];
  }

  lemma TimeTextLayout(c: UtcTime)
    ensures var s := TimeText(c);
            && |s| == 16 && s[2] == ':' && s[5] == ':' && s[8] == '.' && s[15] == 'Z'
            && s[0..2] == Digits(c.hour, 2, DECIMAL) && s[3..5] == Digits(c.minute, 2, DECIMAL)
            && s[6..8] == Digits(c.second, 2, DECIMAL) && s[9..15] == Digits(c.micro, 6, DECIMAL)
  {
    hide Power;
  }

  lemma FieldComesFirst(field: string, separator: char, rest: string)
    ensures var s := field + [separator] + rest;
            s[..|field|] == field && s[|field|] == separator && s[|field| + 1..] == rest
  {
  }

  lemma DateLayout(c: UtcTime)
    ensures var s := Encode(c);
            && |s| == 27 && s[4] == '-' && s[7] == '-' && s[10] == 'T' && s[11..] == TimeText(c)
            && s[0..4] == Digits(c.year, 4, DECIMAL) && s[5..7] == Digits(c.month, 2, DECIMAL)
            && s[8..10] == Digits(c.day, 2, DECIMAL)
  {
    hide Power, TimeText, Digits;
    TimeTextLayout(c);
    var day := Digits(c.day, 2, DECIMAL) + ['T'] + TimeText(c);
    var month := Digits(c.month, 2, DECIMAL) + ['-'] + day;
    var s := Encode(c);
    FieldComesFirst(Digits(c.day, 2, DECIMAL), 'T', TimeText(c));
    FieldComesFirst(Digits(c.month, 2, DECIMAL), '-', day);
    FieldComesFirst(Digits(c.year, 4, DECIMAL), '-', month);
    assert s[5..] == month && s[5..][3..] == day;
    assert s[8..] == day && s[11..] == day[3..];
    assert s[5..7] == month[..2] && s[8..10] == day[..2] && s[7] == month[2] && s[10] == day[2];
  }

  /** The stored text shows year, month, day, hour, minute, second and microsecond as RFC 3339 writes them. */
  lemma EncodeShowsFields(c: UtcTime)
    ensures var s := Encode(c);
            && |s| == 27 && s[4] == '-' && s[7] == '-' && s[10] == 'T' && s[13] == ':' && s[16] == ':' && s[19] == '.'
            && s[26] == 'Z'
            && Shows(s, 0, 4, c.year) && Shows(s, 5, 7, c.month) && Shows(s, 8, 10, c.day)
            && Shows(s, 11, 13, c.hour) && Shows(s, 14, 16, c.minute) && Shows(s, 17, 19, c.second)
            && Shows(s, 20, 26, c.micro)
  {
    hide Shows, TimeText, Encode, Digits;
    DecimalPowers();
    DateLayout(c);
    TimeTextLayout(c);
    var s, time := Encode(c), TimeText(c);
    assert s[11..13] == time[0..2] && s[14..16] == time[3..5] && s[17..19] == time[6..8] && s[20..26] == time[9..15];
    assert s[13] == time[2] && s[16] == time[5] && s[19] == time[8] && s[26] == time[15];
    ShowsDigits(s, 0, 4, c.year);
    ShowsDigits(s, 5, 2, c.month);
    ShowsDigits(s, 8, 2, c.day);
    ShowsDigits(s, 11, 2, c.hour);
    ShowsDigits(s, 14, 2, c.minute);
    ShowsDigits(s, 17, 2, c.second);
    ShowsDigits(s, 20, 6, c.micro);
  }

  // ----- instants -----

  function DaysBeforeYear(year: nat): int
    requires year >= 1
  {
    (year - 1) * 365 + (year - 1) / 4 - (year - 1) / 100 + (year - 1) / 400
  }

  function DaysBeforeMonth(year: nat, month: nat): nat
  {
    if month <= 1 then 0 else DaysBeforeMonth(year, month - 1) + DaysInMonth(year, month - 1)
  }

  function Ordinal(year: nat, month: nat, day: nat): int
    requires year >= 1
  {
    DaysBeforeYear(year) + DaysBeforeMonth(year, month) + day
  }

  function TimeOfDay(c: CivilTime): nat {
    ((c.hour * 60 + c.minute) * 60 + c.second) * 1_000_000 + c.micro
  }

  /** Microseconds on one time line, the same for every zone once the offset is taken off. */
  function Instant(c: CivilTime): int
    requires c.year >= 1
  {
    Ordinal(c.year, c.month, c.day) * DAY + TimeOfDay(c)
  }

  lemma MonthTable(year: nat)
    ensures DaysBeforeMonth(year, 13) == (if IsLeap(year) then 366 else 365)
  {
    assert DaysBeforeMonth(year, 2) == 31;
    assert DaysBeforeMonth(year, 3) == 31 + DaysInMonth(year, 2);
    assert DaysBeforeMonth(year, 5) == DaysBeforeMonth(year, 3) + 61;
    assert DaysBeforeMonth(year, 7) == DaysBeforeMonth(year, 5) + 61;
    assert DaysBeforeMonth(year, 9) == DaysBeforeMonth(year, 7) + 62;
    assert DaysBeforeMonth(year, 11) == DaysBeforeMonth(year, 9) + 61;
    assert DaysBeforeMonth(year, 13) == DaysBeforeMonth(year, 11) + 61;
  }

  lemma LeapDays(year: nat)
    requires year >= 1
    ensures year / 4 == (year - 1) / 4 + (if year % 4 == 0 then 1 else 0)
    ensures year / 100 == (year - 1) / 100 + (if year % 100 == 0 then 1 else 0)
    ensures year / 400 == (year - 1) / 400 + (if year % 400 == 0 then 1 else 0)
  {
  }

  lemma LeapCenturies(year: nat)
    ensures year % 100 == 0 ==> year % 4 == 0
    ensures year % 400 == 0 ==> year % 100 == 0
  {
    var centuries, cycles := year / 100, year / 400;
    assert year % 100 == 0 ==> year == 4 * (25 * centuries);
    assert year % 400 == 0 ==> year == 100 * (4 * cycles);
  }

  lemma YearLength(year: nat)
    requires year >= 1
    ensures DaysBeforeYear(year + 1) == DaysBeforeYear(year) + DaysBeforeMonth(year, 13)
  {
    MonthTable(year);
    LeapDays(year);
    LeapCenturies(year);
  }

  /** The Gregorian calendar repeats after 400 years of 146097 days, and 1970 begins on day 719163. */
  lemma CalendarRepeats(year: nat)
    requires year >= 1
    ensures DaysBeforeYear(year + 400) == DaysBeforeYear(year) + 146_097
    ensures Ordinal(1970, 1, 1) == 719_163
  {
    assert (year - 1 + 400) / 4 == (year - 1) / 4 + 100;
    assert (year - 1 + 400) / 100 == (year - 1) / 100 + 4;
    assert (year - 1 + 400) / 400 == (year - 1) / 400 + 1;
    assert DaysBeforeMonth(1970, 1) == 0;
    hide DaysBeforeMonth;
  }

  lemma {:induction false} LaterMonth(year: nat, month: nat, later: nat)
    requires 1 <= month < later
    ensures DaysBeforeMonth(year, later) >= DaysBeforeMonth(year, month) + DaysInMonth(year, month)
  {
    if month + 1 < later {
      LaterMonth(year, month, later - 1);
    }
  }

  lemma {:induction false} LaterYear(year: nat, later: nat)
    requires 1 <= year < later
    ensures DaysBeforeYear(later) >= DaysBeforeYear(year) + DaysBeforeMonth(year, 13)
  {
    YearLength(later - 1);
    if year + 1 < later {
      LaterYear(year, later - 1);
    }
  }

  lemma DayInYear(year: nat, month: nat, day: nat)
    requires IsDate(year, month, day)
    ensures Ordinal(year, month, day) <= DaysBeforeYear(year) + DaysBeforeMonth(year, 13)
  {
    LaterMonth(year, month, 13);
  }

  lemma EarlierDay(a: UtcTime, b: UtcTime)
    requires a.year < b.year || (a.year == b.year && (a.month < b.month || (a.month == b.month && a.day < b.day)))
    ensures Ordinal(a.year, a.month, a.day) < Ordinal(b.year, b.month, b.day)
  {
    if a.year < b.year {
      LaterYear(a.year, b.year);
      DayInYear(a.year, a.month, a.day);
    } else if a.month < b.month {
      LaterMonth(a.year, a.month, b.month);
    }
  }

  lemma TimeOfDayBound(c: UtcTime)
    ensures TimeOfDay(c) < DAY
  {
  }

  lemma EarlierIsSooner(a: UtcTime, b: UtcTime)
    requires Earlier(a, b)
    ensures Instant(a) < Instant(b)
  {
    TimeOfDayBound(a);
    if a.year != b.year || a.month != b.month || a.day != b.day {
      EarlierDay(a, b);
    }
  }

  /** Field order is chronological order, and a UTC value is determined by its instant. */
  lemma EarlierIffSooner(a: UtcTime, b: UtcTime)
    ensures Earlier(a, b) <==> Instant(a) < Instant(b)
    ensures a == b <==> Instant(a) == Instant(b)
  {
    if Earlier(a, b) {
      EarlierIsSooner(a, b);
    } else if Earlier(b, a) {
      EarlierIsSooner(b, a);
    }
  }

  // ----- normalization to UTC -----

  /** An aware datetime: local fields and the zone's offset, strictly within a day. */
  datatype AwareTime = AwareTime(local: UtcTime, offset: int)

  predicate IsAware(a: AwareTime) {
    -DAY < a.offset < DAY
  }

  function AwareInstant(a: AwareTime): int {
    Instant(a.local) - a.offset
  }

  function NextDay(year: nat, month: nat, day: nat): Option<(nat, nat, nat)> {
    if day < DaysInMonth(year, month) then Some((year, month, day + 1))
    else if month < 12 then Some((year, month + 1, 1))
    else if year < 9999 then Some((year + 1, 1, 1))
    else None
  }

  function PreviousDay(year: nat, month: nat, day: nat): Option<(nat, nat, nat)> {
    if day > 1 then Some((year, month, (day - 1) as nat))
    else if month > 1 then Some((year, (month - 1) as nat, DaysInMonth(year, (month - 1) as nat)))
    else if year > 1 then Some(((year - 1) as nat, 12, 31))
    else None
  }

  function AtTime(year: nat, month: nat, day: nat, time: nat): (c: UtcTime)
    requires IsDate(year, month, day) && time < DAY
    ensures TimeOfDay(c) == time && (c.year, c.month, c.day) == (year, month, day)
  {
    CivilTime(year, month, day, time / 3_600_000_000, time / 60_000_000 % 60, time / 1_000_000 % 60, time % 1_000_000)
  }

  lemma NextDayOrdinal(year: nat, month: nat, day: nat)
    requires IsDate(year, month, day) && NextDay(year, month, day).Some?
    ensures var next := NextDay(year, month, day).value;
            IsDate(next.0, next.1, next.2) && Ordinal(next.0, next.1, next.2) == Ordinal(year, month, day) + 1
  {
    YearLength(year);
  }

  lemma PreviousDayOrdinal(year: nat, month: nat, day: nat)
    requires IsDate(year, month, day) && PreviousDay(year, month, day).Some?
    ensures var previous := PreviousDay(year, month, day).value;
            IsDate(previous.0, previous.1, previous.2)
            && Ordinal(previous.0, previous.1, previous.2) == Ordinal(year, month, day) - 1
  {
    if day == 1 && month == 1 {
      YearLength((year - 1) as nat);
    }
  }

  /** ensure_utc: shift to UTC, or fail when the shift leaves years 1 to 9999. */
  function ToUtc(a: AwareTime): (utc: Option<UtcTime>)
    requires IsAware(a)
    ensures utc.Some? ==> Instant(utc.value) == AwareInstant(a)
  {
    var c := a.local;
    var time := TimeOfDay(c) - a.offset;
    TimeOfDayBound(c);
    if time < 0 then
      var previous :- PreviousDay(c.year, c.month, c.day);
      PreviousDayOrdinal(c.year, c.month, c.day);
      Some(AtTime(previous.0, previous.1, previous.2, (time + DAY) as nat))
    else if time >= DAY then
      var next :- NextDay(c.year, c.month, c.day);
      NextDayOrdinal(c.year, c.month, c.day);
      Some(AtTime(next.0, next.1, next.2, (time - DAY) as nat))
    else
      Some(AtTime(c.year, c.month, c.day, time as nat))
  }

  /** Normalization fails exactly when no UTC value in range has the instant. */
  lemma ToUtcFailsOutOfRange(a: AwareTime)
    requires IsAware(a)
    ensures ToUtc(a).None? <==> forall c: UtcTime :: Instant(c) != AwareInstant(a)
  {
    if ToUtc(a).Some? {
      assert Instant(ToUtc(a).value) == AwareInstant(a);
    } else {
      forall c: UtcTime
        ensures Instant(c) != AwareInstant(a)
      {
        OutOfRange(a, c);
      }
    }
  }

  lemma OutOfRange(a: AwareTime, c: UtcTime)
    requires IsAware(a) && ToUtc(a).None?
    ensures Instant(c) != AwareInstant(a)
  {
    var first, last := CivilTime(1, 1, 1, 0, 0, 0, 0), CivilTime(9999, 12, 31, 23, 59, 59, 999_999);
    EarlierIffSooner(first, c);
    EarlierIffSooner(c, last);
    assert !Earlier(c, first) && !Earlier(last, c);
    TimeOfDayBound(a.local);
    if TimeOfDay(a.local) - a.offset < 0 {
      EarlierIffSooner(c, first);
      assert a.local.year == 1 && a.local.month == 1 && a.local.day == 1;
      assert AwareInstant(a) < Instant(first);
    } else {
      EarlierIffSooner(last, c);
      assert a.local.year == 9999 && a.local.month == 12 && a.local.day == 31;
      assert AwareInstant(a) > Instant(last);
    }
  }

  /** Of two readings of the same clock, the one further east comes first. */
  lemma EastIsEarlier(a: AwareTime, b: AwareTime)
    requires IsAware(a) && IsAware(b) && ToUtc(a).Some? && ToUtc(b).Some?
    requires a.local == b.local && a.offset > b.offset
    ensures Earlier(ToUtc(a).value, ToUtc(b).value)
  {
    EarlierIffSooner(ToUtc(a).value, ToUtc(b).value);
  }

  /**
   Over all aware datetimes that have a UTC form: the stored texts sort as the instants
   do, are equal only for one instant, and decode to the normalized value.
   */
  lemma StoredTextIsChronological(a: AwareTime, b: AwareTime)
    requires IsAware(a) && IsAware(b) && ToUtc(a).Some? && ToUtc(b).Some?
    ensures var x, y := Encode(ToUtc(a).value), Encode(ToUtc(b).value);
            && (Before(x, y) <==> AwareInstant(a) < AwareInstant(b))
            && (x == y <==> AwareInstant(a) == AwareInstant(b))
            && Decode(x) == ToUtc(a)
  {
    var u, v := ToUtc(a).value, ToUtc(b).value;
    EncodeKeepsOrder(u, v);
    EarlierIffSooner(u, v);
    DecodeInvertsEncode(u);
    DecodeInvertsEncode(v);
  }
}

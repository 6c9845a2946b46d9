/**
 The strict timestamp parser (a subset of section 5.6 of RFC 3339) and the
 printer of the status timestamps.
 */
module Timestamps {
  import opened Wrappers
  import opened ByteStrings
  import opened Calendar
  import opened Decimals

  const DASH: byte := 45
  const DOT: byte := 46
  const COLON: byte := 58
  const LETTER_T: byte := 84
  const LETTER_Z: byte := 90
  const PLUS: byte := 43

  /** is_valid_rfc3339_utc: exactly YYYY-MM-DDTHH:MM:SSZ with a real calendar date. */
  predicate IsValidRfc3339Utc(s: Bytes) {
    && |s| == 20 && s[19] == LETTER_Z
    && s[4] == DASH && s[7] == DASH && s[10] == LETTER_T && s[13] == COLON && s[16] == COLON
    && var year, month, day := ParsedDigits(s[0..4]), ParsedDigits(s[5..7]), ParsedDigits(s[8..10]);
       var hour, minute, second := ParsedDigits(s[11..13]), ParsedDigits(s[14..16]), ParsedDigits(s[17..19]);
    && year.Some? && month.Some? && day.Some? && hour.Some? && minute.Some? && second.Some?
    && 1 <= month.value <= 12 && day.value != 0 && day.value <= DaysInMonth(year.value, month.value)
    && hour.value <= 23 && minute.value <= 59 && second.value <= 59
  }

  function UnixSeconds(s: Bytes): Option<int> {
    if !IsValidRfc3339Utc(s) then None else
    var days := DaysFromCivil(Value(s[0..4]), Value(s[5..7]), Value(s[8..10]));
    Some(days * 86_400 + Value(s[11..13]) * 3_600 + Value(s[14..16]) * 60 + Value(s[17..19]))
  }

  // ------------------------------------------------- order

  datatype Fields = Fields(date: Date, hour: int, minute: int, second: int) {
    predicate Valid() { date.Valid() && 0 <= hour <= 23 && 0 <= minute <= 59 && 0 <= second <= 59 }

    function SecondOfDay(): int { hour * 3_600 + minute * 60 + second }

    predicate Before(that: Fields) {
      date.Before(that.date) || (date == that.date && SecondOfDay() < that.SecondOfDay())
    }

    function Unix(): int { DaysFromCivil(date.year, date.month, date.day) * 86_400 + SecondOfDay() }
  }

  function FieldsOf(s: Bytes): (f: Fields)
    requires IsValidRfc3339Utc(s)
    ensures f.Valid() && UnixSeconds(s) == Some(f.Unix())
  {
    Fields(Date(Value(s[0..4]), Value(s[5..7]), Value(s[8..10])),
           Value(s[11..13]), Value(s[14..16]), Value(s[17..19]))
  }

  lemma UnixMonotone(f: Fields, g: Fields)
    requires f.Valid() && g.Valid() && f.Before(g)
    ensures f.Unix() < g.Unix()
  {
    if f.date.Before(g.date) { DaysFromCivilMonotone(f.date, g.date); }
  }

  /** Byte order of two texts with a number of the same width at the same place. */
  lemma LessByField(s: Bytes, t: Bytes, i: nat, j: nat)
    requires i <= j <= |s| == |t| && AllDigits(s[i..j]) && AllDigits(t[i..j])
    ensures var v, w := Value(s[i..j]), Value(t[i..j]);
            Less(s[i..], t[i..]) <==> v < w || (v == w && Less(s[j..], t[j..]))
  {
    assert s[i..] == s[i..j] + s[j..] && t[i..] == t[i..j] + t[j..];
    LessOfConcat(s[i..j], s[j..], t[i..j], t[j..]);
    LessIsNumeric(s[i..j], t[i..j]);
  }

  lemma LessOfSeparator(s: Bytes, t: Bytes, i: nat)
    requires i < |s| == |t| && s[i] == t[i]
    ensures Less(s[i..], t[i..]) <==> Less(s[i + 1..], t[i + 1..])
  {
    assert s[i..][1..] == s[i + 1..] && t[i..][1..] == t[i + 1..];
  }

  /** What matters for order: digits in the time fields and equal bytes around them. */
  ghost predicate TimeShaped(s: Bytes) {
    && |s| == 20 && s[13] == s[16] == COLON && s[19] == LETTER_Z
    && AllDigits(s[11..13]) && AllDigits(s[14..16]) && AllDigits(s[17..19])
  }

  lemma TimeLessByFields(s: Bytes, t: Bytes)
    requires TimeShaped(s) && TimeShaped(t)
    ensures var h, m, x := Value(s[11..13]), Value(s[14..16]), Value(s[17..19]);
            var h', m', x' := Value(t[11..13]), Value(t[14..16]), Value(t[17..19]);
            Less(s[11..], t[11..]) <==> h < h' || (h == h' && (m < m' || (m == m' && x < x')))
  {
    LessByField(s, t, 11, 13);
    LessOfSeparator(s, t, 13);
    LessByField(s, t, 14, 16);
    LessOfSeparator(s, t, 16);
    LessByField(s, t, 17, 19);
    assert s[19..] == [LETTER_Z] == t[19..];
    assert !Less([LETTER_Z], [LETTER_Z]);
  }

  lemma TimeLess(s: Bytes, t: Bytes)
    requires IsValidRfc3339Utc(s) && IsValidRfc3339Utc(t)
    ensures Less(s[11..], t[11..]) <==> FieldsOf(s).SecondOfDay() < FieldsOf(t).SecondOfDay()
  {
    TimeLessByFields(s, t);
    FieldOrderIsSecondOrder(FieldsOf(s), FieldsOf(t));
  }

  lemma FieldOrderIsSecondOrder(f: Fields, g: Fields)
    requires f.Valid() && g.Valid()
    ensures f.SecondOfDay() < g.SecondOfDay() <==>
            f.hour < g.hour || (f.hour == g.hour && (f.minute < g.minute || (f.minute == g.minute && f.second < g.second)))
  {
  }

  ghost predicate DateShaped(s: Bytes) {
    && |s| == 20 && s[4] == s[7] == DASH && s[10] == LETTER_T
    && AllDigits(s[0..4]) && AllDigits(s[5..7]) && AllDigits(s[8..10])
  }

  lemma DateLessByFields(s: Bytes, t: Bytes)
    requires DateShaped(s) && DateShaped(t)
    ensures var d := Date(Value(s[0..4]), Value(s[5..7]), Value(s[8..10]));
            var e := Date(Value(t[0..4]), Value(t[5..7]), Value(t[8..10]));
            Less(s, t) <==> d.Before(e) || (d == e && Less(s[11..], t[11..]))
  {
    assert s[0..] == s && t[0..] == t;
    LessByField(s, t, 0, 4);
    LessOfSeparator(s, t, 4);
    LessByField(s, t, 5, 7);
    LessOfSeparator(s, t, 7);
    LessByField(s, t, 8, 10);
    LessOfSeparator(s, t, 10);
  }

  lemma DateLess(s: Bytes, t: Bytes)
    requires IsValidRfc3339Utc(s) && IsValidRfc3339Utc(t)
    ensures var d, e := FieldsOf(s).date, FieldsOf(t).date;
            Less(s, t) <==> d.Before(e) || (d == e && Less(s[11..], t[11..]))
  {
    DateLessByFields(s, t);
  }

  /** For all accepted strings, byte order is order in time. */
  lemma ByteOrderIsTimeOrder(s: Bytes, t: Bytes)
    requires IsValidRfc3339Utc(s) && IsValidRfc3339Utc(t)
    ensures Less(s, t) <==> UnixSeconds(s).value < UnixSeconds(t).value
  {
    DateLess(s, t);
    TimeLess(s, t);
    var f, g := FieldsOf(s), FieldsOf(t);
    if f.Before(g) {
      UnixMonotone(f, g);
    } else if g.Before(f) {
      UnixMonotone(g, f);
    } else {
      assert f.date == g.date && f.SecondOfDay() == g.SecondOfDay();
    }
  }

  // ------------------------------------------------- printing

  /** chrono_timestamp for a second and a microsecond reading of the clock. */
  function ChronoTimestamp(secs: nat, micros: nat): Bytes {
    PrintedSeconds(secs) + [DOT] + Formatted(micros, 6) + [PLUS, ZERO, ZERO, COLON, ZERO, ZERO]
  }

  function PrintedSeconds(secs: nat): Bytes {
    var d := DaysToYmd(secs / 86_400);
    CivilOfYmdOfDays(secs / 86_400);
    YmdNotBeforeEpoch(secs / 86_400);
    var t := secs % 86_400;
    PrintedDateTime(d, t / 3_600, t % 3_600 / 60, t % 60)
  }

  function PrintedDateTime(d: Date, h: nat, m: nat, s: nat): Bytes
    requires d.Valid() && d.year >= 0
  {
    Formatted(d.year, 4) + [DASH] + Formatted(d.month, 2) + [DASH] + Formatted(d.day, 2) + [LETTER_T] +
    Formatted(h, 2) + [COLON] + Formatted(m, 2) + [COLON] + Formatted(s, 2)
  }

  lemma NotBeforeEpoch(d: Date)
    requires d.Valid() && DaysFromCivil(d.year, d.month, d.day) >= 0
    ensures d.year >= 1970
  {
    assert DaysFromCivil(1970, 1, 1) == 0;
    if d.year < 1970 { DaysFromCivilMonotone(d, Date(1970, 1, 1)); }
  }

  lemma YmdNotBeforeEpoch(days: nat)
    ensures DaysToYmd(days).year >= 1970
  {
    CivilOfYmdOfDays(days);
    NotBeforeEpoch(DaysToYmd(days));
  }

  /** 10000-01-01T00:00:00Z. */
  const YEAR_10000 := 253_402_300_800

  lemma FourDigitYears(d: Date)
    requires d.Valid()
    ensures d.year <= 9999 <==> DaysFromCivil(d.year, d.month, d.day) < 2_932_897
  {
    var e := Date(10_000, 1, 1);
    assert DaysFromCivil(10_000, 1, 1) == 2_932_897;
    if d.Before(e) {
      DaysFromCivilMonotone(d, e);
    } else if e.Before(d) {
      DaysFromCivilMonotone(e, d);
    }
  }

  lemma FieldParses(n: nat, w: nat)
    requires (w == 2 && n < 100) || (w == 4 && n < 10_000)
    ensures |Formatted(n, w)| == w && ParsedDigits(Formatted(n, w)) == Some(n)
  {
    assert Pow10(2) == 100;
    assert Pow10(4) == 10_000 by { assert Pow10(3) == 1000; }
    PaddedValue(n, w);
  }

  /** Where the fields of a date-time lie, whatever their bytes. */
  lemma FieldsLieThere(year: Bytes, month: Bytes, day: Bytes, h: Bytes, m: Bytes, s: Bytes)
    requires |year| == 4 && |month| == |day| == |h| == |m| == |s| == 2
    ensures var z := year + [DASH] + month + [DASH] + day + [LETTER_T] + h + [COLON] + m + [COLON] + s + [LETTER_Z];
            && |z| == 20 && z[4] == z[7] == DASH && z[10] == LETTER_T && z[13] == z[16] == COLON && z[19] == LETTER_Z
            && z[0..4] == year && z[5..7] == month && z[8..10] == day
            && z[11..13] == h && z[14..16] == m && z[17..19] == s
  {
    var date := year + [DASH] + month + [DASH] + day;
    var z := year + [DASH] + month + [DASH] + day + [LETTER_T] + h + [COLON] + m + [COLON] + s + [LETTER_Z];
    assert z == date + ([LETTER_T] + h + [COLON] + m + [COLON] + s + [LETTER_Z]);
    assert date[0..4] == year && date[5..7] == month && date[8..10] == day;
    var time := [LETTER_T] + h + [COLON] + m + [COLON] + s + [LETTER_Z];
    assert time[1..3] == h && time[4..6] == m && time[7..9] == s;
    assert forall i :: 0 <= i < 10 ==> z[i] == date[i] && z[10 + i] == time[i];
  }

  /** A text with these numbers in its fields is the timestamp of that second. */
  lemma FieldsMakeTimestamp(z: Bytes, d: Date, h: nat, m: nat, s: nat)
    requires |z| == 20 && z[4] == z[7] == DASH && z[10] == LETTER_T && z[13] == z[16] == COLON && z[19] == LETTER_Z
    requires ParsedDigits(z[0..4]) == Some(d.year) && ParsedDigits(z[5..7]) == Some(d.month)
    requires ParsedDigits(z[8..10]) == Some(d.day) && ParsedDigits(z[11..13]) == Some(h)
    requires ParsedDigits(z[14..16]) == Some(m) && ParsedDigits(z[17..19]) == Some(s)
    requires d.Valid() && h < 24 && m < 60 && s < 60
    ensures UnixSeconds(z) == Some(Fields(d, h, m, s).Unix())
  {
  }

  /** A printed date-time of 19 bytes, field by field. */
  lemma PrintedFields(d: Date, h: nat, m: nat, s: nat)
    requires d.Valid() && 0 <= d.year <= 9999 && h < 24 && m < 60 && s < 60
    ensures var t := PrintedDateTime(d, h, m, s);
            |t| == 19 && UnixSeconds(t + [LETTER_Z]) == Some(Fields(d, h, m, s).Unix())
  {
    FieldParses(d.year, 4);
    FieldParses(d.month, 2);
    FieldParses(d.day, 2);
    FieldParses(h, 2);
    FieldParses(m, 2);
    FieldParses(s, 2);
    FieldsLieThere(Formatted(d.year, 4), Formatted(d.month, 2), Formatted(d.day, 2),
                   Formatted(h, 2), Formatted(m, 2), Formatted(s, 2));
    FieldsMakeTimestamp(PrintedDateTime(d, h, m, s) + [LETTER_Z], d, h, m, s);
  }

  lemma SplitTimeOfDay(t: nat)
    requires t < 86_400
    ensures var h, m, s := t / 3_600, t % 3_600 / 60, t % 60;
            h < 24 && m < 60 && s < 60 && h * 3_600 + m * 60 + s == t
  {
  }

  lemma SplitDay(secs: nat)
    ensures secs / 86_400 * 86_400 + secs % 86_400 == secs
    ensures secs < YEAR_10000 <==> secs / 86_400 < 2_932_897
  {
  }

  lemma LongYearIsLonger(d: Date, h: nat, m: nat, s: nat)
    requires d.Valid() && d.year > 9999 && h < 24 && m < 60 && s < 60
    ensures |PrintedDateTime(d, h, m, s)| > 19
  {
    LongYear(d.year);
    FieldParses(d.month, 2);
    FieldParses(d.day, 2);
    FieldParses(h, 2);
    FieldParses(m, 2);
    FieldParses(s, 2);
  }

  lemma PrintedDateTimeParses(d: Date, h: nat, m: nat, s: nat)
    requires d.Valid() && d.year >= 0 && h < 24 && m < 60 && s < 60
    ensures UnixSeconds(PrintedDateTime(d, h, m, s) + [LETTER_Z]) ==
            if d.year <= 9999 then Some(Fields(d, h, m, s).Unix()) else None
  {
    if d.year <= 9999 { PrintedFields(d, h, m, s); } else { LongYearIsLonger(d, h, m, s); }
  }

  lemma UnixOfParts(d: Date, secs: nat, t: nat)
    requires DaysFromCivil(d.year, d.month, d.day) == secs / 86_400 && t == secs % 86_400
    ensures Fields(d, t / 3_600, t % 3_600 / 60, t % 60).Unix() == secs
  {
    SplitDay(secs);
    SplitTimeOfDay(t);
  }

  /**
   Round trip, exactly: the date-time part that is printed before the fraction,
   closed with `Z`, parses back to the same second before year 10000; from then on it
   is rejected.
   */
  lemma PrintedParsesBack(secs: nat, micros: nat)
    ensures PrintedSeconds(secs) + [DOT] <= ChronoTimestamp(secs, micros)
    ensures UnixSeconds(PrintedSeconds(secs) + [LETTER_Z]) == if secs < YEAR_10000 then Some(secs) else None
  {
    var d := DaysToYmd(secs / 86_400);
    CivilOfYmdOfDays(secs / 86_400);
    YmdNotBeforeEpoch(secs / 86_400);
    FourDigitYears(d);
    SplitDay(secs);
    var t := secs % 86_400;
    SplitTimeOfDay(t);
    UnixOfParts(d, secs, t);
    PrintedDateTimeParses(d, t / 3_600, t % 3_600 / 60, t % 60);
  }

  lemma LongYear(year: nat)
    requires year > 9999
    ensures |Formatted(year, 4)| > 4 && IsDigit(Formatted(year, 4)[4])
  {
    assert Pow10(4) == 10_000 by { assert Pow10(3) == 1000; }
    ShortestLong(year, 4);
  }
}

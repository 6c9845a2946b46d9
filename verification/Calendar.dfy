/**
 The two hand-written Gregorian conversions, one per direction, and the calendar
 they are measured against: month lengths, leap years and "the next day".
 */
module Calendar {

  /** Division of machine integers: toward zero. */
  function TruncDiv(a: int, b: int): int
    requires b > 0
  {
    if a >= 0 then a / b else -((-a) / b)
  }

  predicate IsLeapYear(year: int) {
    (year % 4 == 0 && year % 100 != 0) || year % 400 == 0
  }

  function DaysInMonth(year: int, month: int): int {
    if month == 1 || month == 3 || month == 5 || month == 7 || month == 8 || month == 10 || month == 12 then 31
    else if month == 4 || month == 6 || month == 9 || month == 11 then 30
    else if month == 2 then (if IsLeapYear(year) then 29 else 28)
    else 0
  }

  datatype Date = Date(year: int, month: int, day: int) {
    predicate Valid() { 1 <= month <= 12 && 1 <= day <= DaysInMonth(year, month) }

    function Next(): Date {
      if day < DaysInMonth(year, month) then Date(year, month, day + 1)
      else if month < 12 then Date(year, month + 1, 1)
      else Date(year + 1, 1, 1)
    }

    /** Chronological order. */
    predicate Before(that: Date) {
      year < that.year || (year == that.year && (month < that.month || (month == that.month && day < that.day)))
    }
  }

  /** days_from_civil: civil date to days since 1970-01-01. */
  function DaysFromCivil(year: int, month: int, day: int): int {
    var y := if month <= 2 then year - 1 else year;
    var era := TruncDiv(if y >= 0 then y else y - 399, 400);
    var yearOfEra := y - era * 400;
    var monthShifted := if month > 2 then month - 3 else month + 9;
    var dayOfYear := TruncDiv(153 * monthShifted + 2, 5) + day - 1;
    var dayOfEra := yearOfEra * 365 + TruncDiv(yearOfEra, 4) - TruncDiv(yearOfEra, 100) + dayOfYear;
    era * 146_097 + dayOfEra - 719_468
  }

  // ------------------------------------------------- years that start in March

  /** Days before March 1st of year y, counted from March 1st of year 0. */
  function YearStart(y: int): int { 365 * y + y / 4 - y / 100 + y / 400 }

  /** Days before the first of the month that is mp months after March. */
  function MonthStart(mp: int): int { (153 * mp + 2) / 5 }

  /** Days of an era before its year yoe. */
  function EraYearStart(yoe: int): int { 365 * yoe + yoe / 4 - yoe / 100 }

  function YearOfEraDay(doe: int): int {
    (doe - doe / 1460 + doe / 36_524 - doe / 146_096) / 365
  }

  /** The tail of days_to_ymd, once the day of the March year is known. */
  function DateOfMarchDay(y: int, doy: int): Date {
    var mp := (5 * doy + 2) / 153;
    var m := if mp < 10 then mp + 3 else mp - 9;
    Date(if m <= 2 then y + 1 else y, m, doy - MonthStart(mp) + 1)
  }

  /** days_to_ymd: days since 1970-01-01 to civil date, on unsigned integers. */
  function DaysToYmd(days: nat): Date {
    var n := days + 719_468;
    var era := n / 146_097;
    var doe := n - era * 146_097;
    var yoe := YearOfEraDay(doe);
    DateOfMarchDay(yoe + era * 400, doe - EraYearStart(yoe))
  }

  function MarchYear(year: int, month: int): int { if month <= 2 then year - 1 else year }

  function MarchMonth(month: int): int { if month > 2 then month - 3 else month + 9 }

  lemma EraYears(y: int)
    ensures var era := TruncDiv(if y >= 0 then y else y - 399, 400);
            era == y / 400 && 0 <= y - era * 400 < 400
  {
  }

  lemma YearStartWithinEra(era: int, yoe: int)
    requires 0 <= yoe < 400
    ensures YearStart(era * 400 + yoe) == era * 146_097 + yoe * 365 + yoe / 4 - yoe / 100
  {
    assert (era * 400 + yoe) / 400 == era;
    assert (era * 400 + yoe) / 100 == era * 4 + yoe / 100;
    assert (era * 400 + yoe) / 4 == era * 100 + yoe / 4;
  }

  /** The conversion is year start plus month start plus day. */
  lemma DaysFromCivilIsSum(year: int, month: int, day: int)
    requires 1 <= month <= 12
    ensures DaysFromCivil(year, month, day) ==
            YearStart(MarchYear(year, month)) + MonthStart(MarchMonth(month)) + day - 1 - 719_468
  {
    var y := MarchYear(year, month);
    EraYears(y);
    YearStartWithinEra(y / 400, y - y / 400 * 400);
  }

  /** March years have 365 days, or 366 when they contain a February 29th. */
  lemma YearLength(y: int)
    ensures YearStart(y + 1) == YearStart(y) + (if IsLeapYear(y + 1) then 366 else 365)
  {
    DivStep(y, 4);
    DivStep(y, 100);
    DivStep(y, 400);
    Divides(y + 1);
  }

  lemma Divides(z: int)
    ensures z % 400 == 0 ==> z % 100 == 0
    ensures z % 100 == 0 ==> z % 4 == 0
  {
    if z % 400 == 0 { RemainderBy100(z, 4 * (z / 400), 0); }
    if z % 100 == 0 { RemainderBy4(z, 25 * (z / 100), 0); }
  }

  lemma DivStep(y: int, k: int)
    requires k == 4 || k == 100 || k == 400
    ensures (y + 1) / k == y / k + (if (y + 1) % k == 0 then 1 else 0)
  {
  }

  lemma {:induction false} YearStartMonotone(y: int, z: int)
    requires y < z
    ensures YearStart(y) + 365 <= YearStart(z)
    ensures IsLeapYear(y + 1) ==> YearStart(y) + 366 <= YearStart(z)
    decreases z - y
  {
    YearLength(z - 1);
    if y < z - 1 { YearStartMonotone(y, z - 1); }
  }

  /** Month starts agree with the month lengths, February last. */
  lemma MonthLength(year: int, month: int)
    requires 1 <= month <= 12 && month != 2
    ensures MonthStart(MarchMonth(month)) + DaysInMonth(year, month) == MonthStart(MarchMonth(month) + 1)
    ensures MonthStart(11) == 337
  {
  }

  /**
   Stepping to the next calendar day adds exactly one, for every valid date of the
   proleptic calendar, also before year 0.
   */
  lemma NextDayAddsOne(d: Date)
    requires d.Valid()
    ensures d.Next().Valid()
    ensures DaysFromCivil(d.Next().year, d.Next().month, d.Next().day) ==
            DaysFromCivil(d.year, d.month, d.day) + 1
  {
    var n := d.Next();
    DaysFromCivilIsSum(d.year, d.month, d.day);
    DaysFromCivilIsSum(n.year, n.month, n.day);
    NextDayInMarchYear(d);
  }

  lemma NextDayInMarchYear(d: Date)
    requires d.Valid()
    ensures var n := d.Next();
            && n.Valid()
            && YearStart(MarchYear(n.year, n.month)) + MonthStart(MarchMonth(n.month)) + n.day ==
               YearStart(MarchYear(d.year, d.month)) + MonthStart(MarchMonth(d.month)) + d.day + 1
  {
    if d.day == DaysInMonth(d.year, d.month) {
      if d.month == 2 {
        YearLength(d.year - 1);
      } else {
        MonthLength(d.year, d.month);
      }
    }
  }

  // ------------------------------------------------- the inverse

  /** A day of a March year: what the forward conversion adds up. */
  ghost predicate DayOfYear(y: int, doy: int) {
    0 <= doy <= 365 && (doy == 365 ==> IsLeapYear(y + 1))
  }

  /** The month formula inverts the month starts. */
  lemma MonthOfDay(mp: int, day: int)
    requires 0 <= mp <= 11 && 1 <= day
    requires MonthStart(mp) + day <= (if mp == 11 then 366 else MonthStart(mp + 1))
    ensures var doy := MonthStart(mp) + day - 1; (5 * doy + 2) / 153 == mp
  {
  }

  lemma DayHasMonth(doy: int) returns (mp: int, day: int)
    requires 0 <= doy <= 365
    ensures 0 <= mp <= 11 && 1 <= day && doy == MonthStart(mp) + day - 1
    ensures MonthStart(mp) + day <= (if mp == 11 then 366 else MonthStart(mp + 1))
    ensures mp == (5 * doy + 2) / 153
  {
    mp := (5 * doy + 2) / 153;
    day := doy - MonthStart(mp) + 1;
  }

  /**
   The year formula inverts the year starts of one 400-year era.  The year is split
   into centuries c, leap cycles q and years r of a cycle.
   */
  lemma YearOfDay(c: int, q: int, r: int, doy: int)
    requires 0 <= c < 4 && 0 <= q < 25 && 0 <= r < 4
    requires 0 <= doy <= 365 && (doy == 365 ==> r == 3 && (q < 24 || c == 3))
    ensures var yoe := 100 * c + 4 * q + r; var doe := EraYearStart(yoe) + doy;
            && 0 <= doe < 146_097
            && (doe - doe / 1460 + doe / 36_524 - doe / 146_096) / 365 == yoe
  {
    var yoe := 100 * c + 4 * q + r;
    assert yoe / 4 == 25 * c + q && yoe / 100 == c;
    var doe := 36_524 * c + 1461 * q + 365 * r + doy;
    assert EraYearStart(yoe) + doy == doe;
    CorrectionsOfDay(c, q, r, doy, doe);
  }

  /** The three corrections of the year formula, each on its own. */
  lemma CorrectionsOfDay(c: int, q: int, r: int, doy: int, doe: int)
    requires 0 <= c < 4 && 0 <= q < 25 && 0 <= r < 4
    requires 0 <= doy <= 365 && (doy == 365 ==> r == 3 && (q < 24 || c == 3))
    requires doe == 36_524 * c + 1461 * q + 365 * r + doy
    ensures 0 <= doe < 146_097
    ensures (doe - doe / 1460 + doe / 36_524 - doe / 146_096) / 365 == 100 * c + 4 * q + r
  {
    var x := 24 * c + q + 365 * r + doy;
    QuotientIs(doe, 1460, 25 * c + q + if x >= 1460 then 1 else 0);
    if doe == 146_096 {
      assert c == 3 && q == 24 && r == 3 && doy == 365;
    } else {
      QuotientIs(doe, 146_096, 0);
      QuotientIs(doe, 36_524, c);
    }
  }

  lemma QuotientIs(a: int, k: int, q: int)
    requires k == 1460 || k == 36_524 || k == 146_096
    requires k * q <= a < k * q + k
    ensures a / k == q
  {
    if k == 1460 {
      assert a / 1460 == q;
    } else if k == 36_524 {
      assert a / 36_524 == q;
    } else {
      assert a / 146_096 == q;
    }
  }

  lemma RemainderBy4(a: int, q: int, r: int)
    requires a == 4 * q + r && 0 <= r < 4
    ensures a % 4 == r
  {
  }

  lemma RemainderBy100(a: int, q: int, r: int)
    requires a == 100 * q + r && 0 <= r < 100
    ensures a % 100 == r
  {
  }

  lemma RemainderBy400(a: int, q: int, r: int)
    requires a == 400 * q + r && 0 <= r < 400
    ensures a % 400 == r
  {
  }

  /** Remainders do not see whole multiples. */
  lemma ShiftedRemainder(t: int, z: int)
    ensures (4 * t + z) % 4 == z % 4 && (100 * t + z) % 100 == z % 100 && (400 * t + z) % 400 == z % 400
  {
    RemainderBy4(4 * t + z, t + z / 4, z % 4);
    RemainderBy100(100 * t + z, t + z / 100, z % 100);
    RemainderBy400(400 * t + z, t + z / 400, z % 400);
  }

  lemma LeapWithinEra(era: int, yoe: int)
    requires 0 <= yoe < 400
    ensures IsLeapYear(era * 400 + yoe + 1) <==> IsLeapYear(yoe + 1)
  {
    ShiftedRemainder(era, yoe + 1);
    ShiftedRemainder(4 * era, yoe + 1);
    ShiftedRemainder(100 * era, yoe + 1);
  }

  lemma LeapByCycle(c: int, q: int, r: int)
    requires 0 <= c < 4 && 0 <= q < 25 && 0 <= r < 4
    ensures IsLeapYear(100 * c + 4 * q + r + 1) <==> r == 3 && (q < 24 || c == 3)
  {
    ShiftedRemainder(25 * c + q, r + 1);
    ShiftedRemainder(c, 4 * q + r + 1);
  }

  lemma EraOfDay(era: nat, doe: int)
    requires 0 <= doe < 146_097
    ensures (era * 146_097 + doe) / 146_097 == era
  {
  }

  lemma YearOfEraDayInverts(yoe: int, doy: int)
    requires 0 <= yoe < 400 && 0 <= doy <= 365 && (doy == 365 ==> IsLeapYear(yoe + 1))
    ensures 0 <= EraYearStart(yoe) + doy < 146_097
    ensures YearOfEraDay(EraYearStart(yoe) + doy) == yoe
  {
    var c, q, r := yoe / 100, yoe % 100 / 4, yoe % 4;
    assert yoe == 100 * c + 4 * q + r;
    LeapByCycle(c, q, r);
    YearOfDay(c, q, r, doy);
  }

  lemma DaysToYmdUnfolds(days: nat, era: int, doe: int)
    requires (days + 719_468) / 146_097 == era && days + 719_468 == era * 146_097 + doe
    ensures var yoe := YearOfEraDay(doe);
            DaysToYmd(days) == DateOfMarchDay(yoe + era * 400, doe - EraYearStart(yoe))
  {
    var n := days + 719_468;
    assert n - n / 146_097 * 146_097 == doe;
  }

  /** The backward conversion at the doy-th day of a March year. */
  lemma DaysToYmdOfMarchYear(era: nat, yoe: int, doy: int, days: nat)
    requires 0 <= yoe < 400 && 0 <= doy <= 365 && (doy == 365 ==> IsLeapYear(yoe + 1))
    requires days + 719_468 == era * 146_097 + EraYearStart(yoe) + doy
    ensures DaysToYmd(days) == DateOfMarchDay(era * 400 + yoe, doy)
  {
    var doe := EraYearStart(yoe) + doy;
    YearOfEraDayInverts(yoe, doy);
    EraOfDay(era, doe);
    DaysToYmdUnfolds(days, era, doe);
    assert YearOfEraDay(doe) == yoe && doe - EraYearStart(yoe) == doy;
  }

  /** Every day count from the epoch lies in some March year of some era. */
  lemma DayHasMarchYear(days: nat) returns (era: nat, yoe: int, doy: int)
    ensures 0 <= yoe < 400 && 0 <= doy <= 365 && (doy == 365 ==> IsLeapYear(yoe + 1))
    ensures days + 719_468 == era * 146_097 + EraYearStart(yoe) + doy
  {
    var n := days + 719_468;
    era := n / 146_097;
    var doe := n - era * 146_097;
    var c := if doe == 146_096 then 3 else doe / 36_524;
    var inCentury := doe - 36_524 * c;
    var q := inCentury / 1461;
    var inCycle := inCentury - 1461 * q;
    var r := if inCycle == 1460 then 3 else inCycle / 365;
    yoe, doy := 100 * c + 4 * q + r, inCycle - 365 * r;
    assert yoe / 4 == 25 * c + q && yoe / 100 == c;
    LeapByCycle(c, q, r);
  }

  /** The doy-th day of a March year is a valid date, and converts to its day count. */
  lemma MarchDayConverts(era: int, yoe: int, doy: int)
    requires 0 <= yoe < 400 && 0 <= doy <= 365 && (doy == 365 ==> IsLeapYear(yoe + 1))
    ensures var d := DateOfMarchDay(era * 400 + yoe, doy);
            && d.Valid()
            && DaysFromCivil(d.year, d.month, d.day) == era * 146_097 + EraYearStart(yoe) + doy - 719_468
  {
    var mp, day := DayHasMonth(doy);
    var d := DateOfMarchDay(era * 400 + yoe, doy);
    LeapWithinEra(era, yoe);
    MarchDayValid(era * 400 + yoe, mp, day, d);
    DaysFromCivilIsSum(d.year, d.month, d.day);
    YearStartWithinEra(era, yoe);
  }

  lemma MarchDayValid(y: int, mp: int, day: int, d: Date)
    requires 0 <= mp <= 11 && 1 <= day
    requires MonthStart(mp) + day <= (if mp == 11 then (if IsLeapYear(y + 1) then 366 else 365) else MonthStart(mp + 1))
    requires d == if mp < 10 then Date(y, mp + 3, day) else Date(y + 1, mp - 9, day)
    ensures d.Valid() && MarchMonth(d.month) == mp && MarchYear(d.year, d.month) == y
  {
    if d.month != 2 { MonthLength(d.year, d.month); } else { assert MonthStart(11) == 337; }
  }

  /** `days_from_civil` undoes `days_to_ymd` for every day from the epoch on. */
  lemma CivilOfYmdOfDays(days: nat)
    ensures var d := DaysToYmd(days); d.Valid() && DaysFromCivil(d.year, d.month, d.day) == days
  {
    var era, yoe, doy := DayHasMarchYear(days);
    DaysToYmdOfMarchYear(era, yoe, doy, days);
    MarchDayConverts(era, yoe, doy);
  }

  lemma DateOfMarchDayInverts(d: Date, y: int, doy: int)
    requires d.Valid() && y == MarchYear(d.year, d.month) && doy == MonthStart(MarchMonth(d.month)) + d.day - 1
    ensures DateOfMarchDay(y, doy) == d
  {
    if d.month != 2 { MonthLength(d.year, d.month); } else { assert MonthStart(11) == 337; }
    MonthOfDay(MarchMonth(d.month), d.day);
  }

  /** `days_to_ymd` undoes `days_from_civil` for every valid date from 1970 on. */
  lemma YmdOfDaysFromCivil(d: Date)
    requires d.Valid() && d.year >= 1970
    ensures DaysFromCivil(d.year, d.month, d.day) >= 0
    ensures DaysToYmd(DaysFromCivil(d.year, d.month, d.day)) == d
  {
    EpochIsNotLate(d);
    DaysFromCivilIsSum(d.year, d.month, d.day);
    YmdOfSum(d, DaysFromCivil(d.year, d.month, d.day));
  }

  lemma YmdOfSum(d: Date, days: nat)
    requires d.Valid() && d.year >= 1970
    requires days + 719_468 == YearStart(MarchYear(d.year, d.month)) + MonthStart(MarchMonth(d.month)) + d.day - 1
    ensures DaysToYmd(days) == d
  {
    DayWithinMarchYear(d);
    var y, doy := MarchYear(d.year, d.month), MonthStart(MarchMonth(d.month)) + d.day - 1;
    DateOfMarchDayInverts(d, y, doy);
    YmdOfMarchDay(y, doy, days);
    assert DaysToYmd(days) == DateOfMarchDay(y, doy);
  }

  lemma YmdOfMarchDay(y: nat, doy: int, days: nat)
    requires DayOfYear(y, doy) && days + 719_468 == YearStart(y) + doy
    ensures DaysToYmd(days) == DateOfMarchDay(y, doy)
  {
    var era, yoe := y / 400, y % 400;
    assert y == era * 400 + yoe;
    YearStartWithinEra(era, yoe);
    LeapWithinEra(era, yoe);
    DaysToYmdOfMarchYear(era, yoe, doy, days);
  }

  lemma EpochIsNotLate(d: Date)
    requires d.Valid() && d.year >= 1970
    ensures DaysFromCivil(d.year, d.month, d.day) >= 0
  {
    DaysFromCivilIsSum(d.year, d.month, d.day);
    assert YearStart(1969) == 719_162 && YearStart(1970) == 719_527;
    var y := MarchYear(d.year, d.month);
    if y > 1969 { YearStartMonotone(1969, y); }
  }

  /** The forward conversion is strictly monotone, so it never maps two dates to one day. */
  lemma DaysFromCivilMonotone(d: Date, e: Date)
    requires d.Valid() && e.Valid() && d.Before(e)
    ensures DaysFromCivil(d.year, d.month, d.day) < DaysFromCivil(e.year, e.month, e.day)
  {
    DaysFromCivilIsSum(d.year, d.month, d.day);
    DaysFromCivilIsSum(e.year, e.month, e.day);
    var y, z := MarchYear(d.year, d.month), MarchYear(e.year, e.month);
    if y < z {
      DayWithinMarchYear(d);
      YearStartMonotone(y, z);
    } else {
      MonthsDoNotOverlap(d, e);
    }
  }

  lemma DayWithinMarchYear(d: Date)
    requires d.Valid()
    ensures var doy := MonthStart(MarchMonth(d.month)) + d.day - 1;
            0 <= doy < (if IsLeapYear(MarchYear(d.year, d.month) + 1) then 366 else 365)
  {
    if d.month != 2 { MonthLength(d.year, d.month); } else { assert MonthStart(11) == 337; }
  }

  lemma MonthsDoNotOverlap(d: Date, e: Date)
    requires d.Valid() && e.Valid() && d.Before(e)
    requires MarchYear(d.year, d.month) == MarchYear(e.year, e.month)
    ensures MonthStart(MarchMonth(d.month)) + d.day < MonthStart(MarchMonth(e.month)) + e.day
  {
    var m, n := MarchMonth(d.month), MarchMonth(e.month);
    assert m <= n;
    if m < n {
      MonthLength(d.year, d.month);
      assert MonthStart(m + 1) <= MonthStart(n);
    }
  }
}

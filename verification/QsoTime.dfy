/** Dates and times of contacts: conversion between day numbers and the Gregorian calendar. */
module QsoTime {
  import opened Sums
  import opened AdifText
  import opened AdifRoundTrip
  import AdifMeaning

  /** Division that rounds towards zero. */
  function TruncDiv(a: int, b: int): int
    requires b > 0
  {
    if a >= 0 then a / b else -(-a / b)
  }

  datatype Date = Date(year: int, month: int, day: int)

  /** The date of a day counted from 1 January 1970. */
  function CivilFromDays(days: int): Date {
    var z := days + 719_468;
    var era := TruncDiv(if z >= 0 then z else z - 146_096, 146_097);
    DateInEra(era, z - era * 146_097)
  }

  /** The date of a day of an era. Years begin in March for this purpose. */
  function DateInEra(era: int, doe: int): Date {
    var yoe := TruncDiv(doe - TruncDiv(doe, 1_460) + TruncDiv(doe, 36_524) - TruncDiv(doe, 146_096), 365);
    var y := yoe + era * 400;
    var doy := doe - (365 * yoe + TruncDiv(yoe, 4) - TruncDiv(yoe, 100));
    var mp := TruncDiv(5 * doy + 2, 153);
    var day := doy - TruncDiv(153 * mp + 2, 5) + 1;
    var month := mp + if mp < 10 then 3 else -9;
    Date(y + if month <= 2 then 1 else 0, month, day)
  }

  /** The day number that the date formula gives, whether or not there is such a date. */
  function DayNumber(date: Date): int {
    var year := date.year - if date.month <= 2 then 1 else 0;
    var era := TruncDiv(if year >= 0 then year else year - 399, 400);
    var yoe := year - era * 400;
    var mp := date.month + if date.month > 2 then -3 else 9;
    var doy := TruncDiv(153 * mp + 2, 5) + date.day - 1;
    var doe := yoe * 365 + TruncDiv(yoe, 4) - TruncDiv(yoe, 100) + doy;
    era * 146_097 + doe - 719_468
  }

  /** The day number of a date. Converting back finds out whether there is such a date. */
  function DaysFromCivil(date: Date): Option<int> {
    if !(1 <= date.month <= 12) || !(1 <= date.day <= 31) then None
    else if CivilFromDays(DayNumber(date)) == date then Some(DayNumber(date))
    else None
  }

  // ----- the calendar -----

  predicate IsLeapYear(year: int) {
    year % 4 == 0 && (year % 100 != 0 || year % 400 == 0)
  }

  function DaysInMonth(year: int, month: int): int
    requires 1 <= month <= 12
  {
    if month == 2 then (if IsLeapYear(year) then 29 else 28)
    else if month in {4, 6, 9, 11} then 30
    else 31
  }

  predicate IsDate(d: Date) {
    1 <= d.month <= 12 && 1 <= d.day <= DaysInMonth(d.year, d.month)
  }

  function NextDay(d: Date): Date
    requires IsDate(d)
  {
    if d.day < DaysInMonth(d.year, d.month) then d.(day := d.day + 1)
    else if d.month < 12 then Date(d.year, d.month + 1, 1)
    else Date(d.year + 1, 1, 1)
  }

  // ----- years that begin in March, counted in eras of 400 -----

  /** The last such year of every fourth has a leap day at its end, but for three centuries of four. */
  function YearLength(yoe: int): int {
    if yoe % 4 == 3 && (yoe % 100 != 99 || yoe == 399) then 366 else 365
  }

  predicate InYear(yoe: int, doy: int) {
    0 <= yoe < 400 && 0 <= doy < YearLength(yoe)
  }

  function DayOfEra(yoe: int, doy: int): int {
    365 * yoe + yoe / 4 - yoe / 100 + doy
  }

  /** Centuries, groups of four years and single years. */
  lemma YearParts(yoe: int) returns (a: int, b: int, c: int)
    requires 0 <= yoe < 400
    ensures 0 <= a < 4 && 0 <= b < 25 && 0 <= c < 4 && yoe == 100 * a + 4 * b + c
    ensures yoe / 4 == 25 * a + b && yoe / 100 == a
    ensures YearLength(yoe) == 366 <==> c == 3 && (b < 24 || a == 3)
  {
    a := yoe / 100;
    b := (yoe % 100) / 4;
    c := yoe % 4;
  }

  lemma Quotients(a: int, b: int, c: int, doy: int)
    requires 0 <= a < 4 && 0 <= b < 25 && 0 <= c < 4 && 0 <= doy < 366
    requires doy == 365 ==> c == 3 && (b < 24 || a == 3)
    ensures var doe := 36_524 * a + 1_461 * b + 365 * c + doy;
            && 0 <= doe <= 146_096
            && doe / 36_524 - doe / 146_096 == a
            && (doe / 1_460 == 25 * a + b || (doe / 1_460 == 25 * a + b + 1 && doy > 0))
            && (doy == 365 ==> doe / 1_460 == 25 * a + b + 1)
  {
    var doe := 36_524 * a + 1_461 * b + 365 * c + doy;
    var left := 24 * a + b + 365 * c + doy;
    assert doe == 1_460 * (25 * a + b) + left;
    assert 0 <= left < 2_920;
  }

  /** The year formula finds the year of a day of the era. */
  lemma YearOfEra(yoe: int, doy: int)
    requires InYear(yoe, doy)
    ensures var doe := DayOfEra(yoe, doy);
            0 <= doe <= 146_096 && (doe - doe / 1_460 + doe / 36_524 - doe / 146_096) / 365 == yoe
  {
    var a, b, c := YearParts(yoe);
    Quotients(a, b, c, doy);
    var doe := DayOfEra(yoe, doy);
    assert doe == 36_524 * a + 1_461 * b + 365 * c + doy;
    var n := doe - doe / 1_460 + doe / 36_524 - doe / 146_096;
    assert 365 * yoe <= n < 365 * yoe + 365;
    hide DayOfEra, InYear;
    WholeYears(n, yoe);
  }

  lemma WholeYears(n: int, years: int)
    requires 365 * years <= n < 365 * years + 365
    ensures n / 365 == years
  {
  }

  /** Every day of an era is in some year. */
  lemma EraDay(doe: int) returns (yoe: int, doy: int)
    requires 0 <= doe <= 146_096
    ensures InYear(yoe, doy) && DayOfEra(yoe, doy) == doe
  {
    var a := if doe == 146_096 then 3 else doe / 36_524;
    var r := doe - 36_524 * a;
    var b := r / 1_461;
    var s := r - 1_461 * b;
    var c := if s == 1_460 then 3 else s / 365;
    yoe := 100 * a + 4 * b + c;
    doy := s - 365 * c;
    assert 0 <= a < 4 && 0 <= r <= 36_524 && 0 <= b < 25 && 0 <= c < 4;
    assert yoe / 4 == 25 * a + b && yoe / 100 == a && yoe % 4 == c;
    assert doy == 365 ==> c == 3 && (b < 24 || a == 3);
    assert yoe % 100 == 4 * b + c;
  }

  // ----- months that begin in March -----

  function MonthStart(mp: int): int {
    (153 * mp + 2) / 5
  }

  lemma MonthOfDay(mp: int, doy: int)
    requires 0 <= mp < 12 && MonthStart(mp) <= doy < MonthStart(mp + 1)
    ensures (5 * doy + 2) / 153 == mp
  {
  }

  lemma DayInMonth(doy: int)
    requires 0 <= doy < 366
    ensures var mp := (5 * doy + 2) / 153;
            0 <= mp < 12 && MonthStart(mp) <= doy < MonthStart(mp + 1)
  {
  }

  /** The lengths of the months from March to January. */
  lemma MonthLength(mp: int, year: int)
    requires 0 <= mp < 11
    ensures MonthStart(mp + 1) - MonthStart(mp) == DaysInMonth(year, mp + if mp < 10 then 3 else -9)
  {
  }

  // ----- the two conversions -----

  function Civil(era: int, yoe: int, doy: int): Date {
    var mp := (5 * doy + 2) / 153;
    var month := mp + if mp < 10 then 3 else -9;
    Date(yoe + era * 400 + (if month <= 2 then 1 else 0), month, doy - MonthStart(mp) + 1)
  }

  lemma EraOf(era: int, doe: int)
    requires 0 <= doe < 146_097
    ensures var z := era * 146_097 + doe;
            TruncDiv(if z >= 0 then z else z - 146_096, 146_097) == era
  {
    var z := era * 146_097 + doe;
    if z < 0 {
      var m := -(z - 146_096);
      assert m == -era * 146_097 + (146_096 - doe);
      assert m / 146_097 == -era;
    }
  }

  /** Days convert to the date of their era, year and day of the year. */
  lemma FromDays(era: int, yoe: int, doy: int)
    requires InYear(yoe, doy)
    ensures CivilFromDays(era * 146_097 + DayOfEra(yoe, doy) - 719_468) == Civil(era, yoe, doy)
  {
    var doe := DayOfEra(yoe, doy);
    YearOfEra(yoe, doy);
    EraOf(era, doe);
    InEra(era, yoe, doy);
    hide DateInEra, DayOfEra, InYear, Civil, TruncDiv;
    assert era * 146_097 + doe - 719_468 + 719_468 - era * 146_097 == doe;
  }

  /** The year that the year formula gives. */
  function YearFormula(doe: int): int {
    (doe - doe / 1_460 + doe / 36_524 - doe / 146_096) / 365
  }

  lemma InEra(era: int, yoe: int, doy: int)
    requires InYear(yoe, doy)
    ensures DateInEra(era, DayOfEra(yoe, doy)) == Civil(era, yoe, doy)
  {
    hide DateInEra, InYear, DayOfEra, Civil, YearFormula;
    var doe := DayOfEra(yoe, doy);
    YearFound(yoe, doy);
    DaysIntoYear(yoe, doy);
    DivisionsAgree(era, doe);
  }

  lemma YearFound(yoe: int, doy: int)
    requires InYear(yoe, doy)
    ensures 0 <= DayOfEra(yoe, doy) <= 146_096 && YearFormula(DayOfEra(yoe, doy)) == yoe >= 0
  {
    YearOfEra(yoe, doy);
    hide DayOfEra;
  }

  lemma DaysIntoYear(yoe: int, doy: int)
    requires InYear(yoe, doy)
    ensures 0 <= DayOfEra(yoe, doy) - DayOfEra(yoe, 0) == doy
  {
  }

  /** Nothing is negative inside an era, so it makes no difference which way division rounds. */
  lemma DivisionsAgree(era: int, doe: int)
    requires 0 <= doe <= 146_096
    requires 0 <= YearFormula(doe) && 0 <= doe - DayOfEra(YearFormula(doe), 0)
    ensures DateInEra(era, doe) == Civil(era, YearFormula(doe), doe - DayOfEra(YearFormula(doe), 0))
  {
    YearBounds(doe);
  }

  lemma YearBounds(doe: int)
    requires 0 <= doe <= 146_096
    ensures doe - doe / 1_460 + doe / 36_524 - doe / 146_096 >= 0
  {
  }

  lemma ModFour(q: int, k: int)
    ensures (4 * q + k) % 4 == k % 4
  {
    assert 4 * q + k == 4 * (q + k / 4) + k % 4;
  }

  lemma ModHundred(q: int, k: int)
    ensures (100 * q + k) % 100 == k % 100
  {
    assert 100 * q + k == 100 * (q + k / 100) + k % 100;
  }

  lemma ModFourHundred(q: int, k: int)
    ensures (400 * q + k) % 400 == k % 400
  {
    assert 400 * q + k == 400 * (q + k / 400) + k % 400;
  }

  /** Leap years repeat every 400 years. */
  lemma LeapCycle(era: int, k: int)
    ensures IsLeapYear(era * 400 + k) <==> IsLeapYear(k)
  {
    ModFour(100 * era, k);
    ModHundred(4 * era, k);
    ModFourHundred(era, k);
    assert era * 400 + k == 4 * (100 * era) + k == 100 * (4 * era) + k == 400 * era + k;
  }

  lemma NextMultiples(n: int)
    ensures (n + 1) % 4 == 0 <==> n % 4 == 3
    ensures (n + 1) % 100 == 0 <==> n % 100 == 99
  {
  }

  lemma LeapAtEnd(yoe: int)
    requires 0 <= yoe < 400
    ensures IsLeapYear(yoe + 1) <==> YearLength(yoe) == 366
  {
    NextMultiples(yoe);
    assert (yoe + 1) % 400 == 0 <==> yoe == 399;
  }

  lemma EraOfYear(era: int, yoe: int)
    requires 0 <= yoe < 400
    ensures var year := era * 400 + yoe;
            TruncDiv(if year >= 0 then year else year - 399, 400) == era
  {
  }

  lemma FourHundred(era: int, yoe: int)
    requires 0 <= yoe < 400
    ensures var year := era * 400 + yoe;
            TruncDiv(if year >= 0 then year else year - 399, 400) == era
    ensures IsLeapYear(era * 400 + yoe + 1) <==> YearLength(yoe) == 366
  {
    hide TruncDiv, IsLeapYear, YearLength;
    EraOfYear(era, yoe);
    LeapCycle(era, yoe + 1);
    LeapAtEnd(yoe);
  }

  /** A date converts to the day of its era, year and day of the year. */
  lemma ToDays(era: int, yoe: int, doy: int)
    requires InYear(yoe, doy)
    ensures IsDate(Civil(era, yoe, doy))
    ensures DayNumber(Civil(era, yoe, doy)) == era * 146_097 + DayOfEra(yoe, doy) - 719_468
  {
    DayInMonth(doy);
    FourHundred(era, yoe);
    var mp := (5 * doy + 2) / 153;
    if mp < 11 { MonthLength(mp, Civil(era, yoe, doy).year); }
  }

  /** Every date is that of some era, year and day of the year. */
  lemma DateParts(d: Date) returns (era: int, yoe: int, doy: int)
    requires IsDate(d)
    ensures InYear(yoe, doy) && Civil(era, yoe, doy) == d
  {
    var year := d.year - if d.month <= 2 then 1 else 0;
    era, yoe := year / 400, year % 400;
    var mp := d.month + if d.month > 2 then -3 else 9;
    doy := MonthStart(mp) + d.day - 1;
    FourHundred(era, yoe);
    if mp < 11 { MonthLength(mp, d.year); }
    MonthOfDay(mp, doy);
  }

  /** Every day is one of some era, year and day of the year. */
  lemma DaysParts(days: int) returns (era: int, yoe: int, doy: int)
    ensures InYear(yoe, doy) && days == era * 146_097 + DayOfEra(yoe, doy) - 719_468
    ensures CivilFromDays(days) == Civil(era, yoe, doy)
  {
    var z := days + 719_468;
    era := z / 146_097;
    hide CivilFromDays, Civil, InYear, DayOfEra;
    yoe, doy := EraDay(z % 146_097);
    FromDays(era, yoe, doy);
  }

  /** Converting a day number gives a date with that number. */
  lemma DaysToDate(days: int)
    ensures IsDate(CivilFromDays(days)) && DayNumber(CivilFromDays(days)) == days
  {
    hide CivilFromDays, DayNumber, Civil, InYear, DayOfEra;
    var era, yoe, doy := DaysParts(days);
    ToDays(era, yoe, doy);
  }

  lemma DateToDays(d: Date)
    requires IsDate(d)
    ensures CivilFromDays(DayNumber(d)) == d
  {
    var era, yoe, doy := DateParts(d);
    hide CivilFromDays, DayNumber, Civil, InYear, DayOfEra;
    FromDays(era, yoe, doy);
    ToDays(era, yoe, doy);
  }

  /** A date has a day number exactly if the calendar has it, and the conversions undo each other. */
  lemma DatesAndDays(d: Date, days: int)
    ensures DaysFromCivil(d).Some? <==> IsDate(d)
    ensures DaysFromCivil(d) == Some(days) <==> CivilFromDays(days) == d
  {
    DaysToDate(days);
    DaysToDate(DayNumber(d));
    if IsDate(d) { DateToDays(d); }
  }

  // ----- one day at a time -----

  /** Counting day numbers up walks through the calendar. */
  lemma NextDayNumber(d: Date)
    requires IsDate(d)
    ensures IsDate(NextDay(d)) && DayNumber(NextDay(d)) == DayNumber(d) + 1
  {
    hide CivilFromDays, DayNumber, Civil, DayOfEra, NextDay, IsDate;
    var era, yoe, doy := DateParts(d);
    ToDays(era, yoe, doy);
    NextParts(era, yoe, doy);
    if doy + 1 < YearLength(yoe) {
      ToDays(era, yoe, doy + 1);
      NextInYear(yoe, doy);
    } else if yoe < 399 {
      ToDays(era, yoe + 1, 0);
      YearEnds(yoe, doy);
    } else {
      ToDays(era + 1, 0, 0);
      EraEnds();
    }
  }

  lemma NextInYear(yoe: int, doy: int)
    ensures DayOfEra(yoe, doy + 1) == DayOfEra(yoe, doy) + 1
  {
  }

  lemma EraEnds()
    ensures YearLength(399) == 366 && DayOfEra(399, 365) == 146_096 && DayOfEra(0, 0) == 0
  {
  }

  lemma YearEnds(yoe: int, doy: int)
    requires 0 <= yoe < 399 && doy + 1 == YearLength(yoe)
    ensures DayOfEra(yoe + 1, 0) == DayOfEra(yoe, doy) + 1
  {
    var a, b, c := YearParts(yoe);
    var a', b', c' := YearParts(yoe + 1);
  }

  /** The next day is the next of the year, or the first of the next year. */
  lemma NextParts(era: int, yoe: int, doy: int)
    requires InYear(yoe, doy) && IsDate(Civil(era, yoe, doy))
    ensures NextDay(Civil(era, yoe, doy)) ==
            if doy + 1 < YearLength(yoe) then Civil(era, yoe, doy + 1)
            else if yoe < 399 then Civil(era, yoe + 1, 0)
            else Civil(era + 1, 0, 0)
  {
    var mp := (5 * doy + 2) / 153;
    DayInMonth(doy);
    FourHundred(era, yoe);
    if mp < 11 {
      MonthLength(mp, Civil(era, yoe, doy).year);
      if doy + 1 < MonthStart(mp + 1) { MonthOfDay(mp, doy + 1); } else { MonthOfDay(mp + 1, doy + 1); }
    } else if doy + 1 < YearLength(yoe) {
      MonthOfDay(mp, doy + 1);
    }
  }

  lemma Epoch()
    ensures CivilFromDays(0) == Date(1970, 1, 1)
  {
    var yoe, doy := 369, 306;
    assert DayOfEra(yoe, doy) == 135_080;
    FromDays(4, yoe, doy);
    hide CivilFromDays;
  }

  /** The calendar has its epoch on 1 January 1970 and goes on one day at a time, in both directions. */
  lemma CalendarWalk(days: int)
    ensures CivilFromDays(0) == Date(1970, 1, 1)
    ensures IsDate(CivilFromDays(days))
    ensures CivilFromDays(days + 1) == NextDay(CivilFromDays(days))
  {
    hide CivilFromDays, DayNumber, NextDay, IsDate;
    Epoch();
    DaysToDate(days);
    NextDayNumber(CivilFromDays(days));
    DateToDays(NextDay(CivilFromDays(days)));
  }

  // ----- years -----

  /** The days from the epoch to the first of January of a year. */
  function YearStart(year: int): int {
    var y := year - 1;
    365 * y + y / 4 - y / 100 + y / 400 - 719_162
  }

  lemma EraYears(y: int)
    ensures y / 400 * 146_097 + 365 * (y % 400) + y % 400 / 4 - y % 400 / 100 == 365 * y + y / 4 - y / 100 + y / 400
  {
    var era, yoe := y / 400, y % 400;
    assert y == 400 * era + yoe;
    assert y / 4 == 100 * era + yoe / 4;
    assert y / 100 == 4 * era + yoe / 100;
  }

  lemma NumberInYear(era: int, yoe: int, doy: int)
    requires InYear(yoe, doy)
    ensures var n := era * 146_097 + DayOfEra(yoe, doy) - 719_468;
            var year := Civil(era, yoe, doy).year;
            YearStart(year) <= n < YearStart(year + 1)
  {
    var y := era * 400 + yoe;
    assert y / 400 == era && y % 400 == yoe;
    EraYears(y);
    DayInMonth(doy);
    FourHundred(era, yoe);
    YearLengths(y);
  }

  lemma QuotientStep(y: int, k: int)
    requires k in {4, 100, 400}
    ensures y / k - (y - 1) / k == if y % k == 0 then 1 else 0
  {
  }

  lemma YearLengths(y: int)
    ensures YearStart(y + 1) - YearStart(y) == if IsLeapYear(y) then 366 else 365
    ensures YearStart(y + 2) - YearStart(y + 1) == if IsLeapYear(y + 1) then 366 else 365
  {
    OneYear(y);
    OneYear(y + 1);
    hide YearStart, IsLeapYear;
  }

  function Every(y: int, k: int): int
    requires k > 0
  {
    if y % k == 0 then 1 else 0
  }

  lemma LeapCount(y: int)
    ensures (if IsLeapYear(y) then 1 else 0) == Every(y, 4) - Every(y, 100) + Every(y, 400)
  {
    MultiplesOf(y);
  }

  lemma MultiplesOf(y: int)
    ensures y % 400 == 0 ==> y % 100 == 0
    ensures y % 100 == 0 ==> y % 4 == 0
  {
    if y % 400 == 0 {
      assert y == 400 * (y / 400);
      FourHundreds(y / 400);
    }
    if y % 100 == 0 {
      assert y == 100 * (y / 100);
      Hundreds(y / 100);
    }
  }

  lemma FourHundreds(n: int)
    ensures (400 * n) % 100 == 0
  {
    assert 400 * n == 100 * (4 * n);
  }

  lemma Hundreds(n: int)
    ensures (100 * n) % 4 == 0
  {
    assert 100 * n == 4 * (25 * n);
  }

  lemma OneYear(y: int)
    ensures YearStart(y + 1) - YearStart(y) == if IsLeapYear(y) then 366 else 365
  {
    LeapCount(y);
    QuotientStep(y, 4);
    QuotientStep(y, 100);
    QuotientStep(y, 400);
    hide IsLeapYear;
  }

  /** Later years have later days. */
  lemma YearsInOrder(a: int, b: int)
    requires a <= b
    ensures YearStart(a) <= YearStart(b)
  {
  }

  /** A day is in a year or later exactly if it is not before that year began. */
  lemma YearOfDays(days: int, year: int)
    ensures CivilFromDays(days).year >= year <==> days >= YearStart(year)
  {
    hide YearStart, CivilFromDays, Civil, InYear, DayOfEra;
    var era, yoe, doy := DaysParts(days);
    NumberInYear(era, yoe, doy);
    var own := CivilFromDays(days).year;
    if own >= year { YearsInOrder(year, own); } else { YearsInOrder(own + 1, year); }
  }

  lemma EpochYear(days: int)
    requires days >= 0
    ensures CivilFromDays(days).year >= 1970 && IsDate(CivilFromDays(days))
  {
    YearOfDays(days, 1970);
    DaysToDate(days);
  }

  // ----- text -----

  /** At least so many digits. */
  function Pad(n: nat, width: nat): string {
    var digits := Decimal(n);
    if |digits| >= width then digits else Zeros(width - |digits|) + digits
  }

  function Zeros(n: nat): string {
    seq(n, i => '0')
  }

  predicate AllDigits(s: string) {
    forall i :: 0 <= i < |s| ==> IsDigit(s[i])
  }

  function QsoDatetimeAdif(epoch: int): Option<(string, string)> {
    if epoch < 0 then None else
      EpochYear(DayOf(epoch));
      Some((DateString(CivilFromDays(DayOf(epoch))), TimeString(SecondsOf(epoch))))
  }

  function DayOf(epoch: nat): nat {
    epoch / 86_400
  }

  function SecondsOf(epoch: nat): nat {
    epoch % 86_400
  }

  function DateString(d: Date): string
    requires IsDate(d) && d.year >= 0
  {
    Pad(d.year, 4) + Pad(d.month, 2) + Pad(d.day, 2)
  }

  function TimeString(seconds: nat): string {
    Pad(HourOf(seconds), 2) + Pad(MinuteOf(seconds), 2) + Pad(SecondOf(seconds), 2)
  }

  function HourOf(seconds: nat): nat {
    seconds / 3_600
  }

  function MinuteOf(seconds: nat): nat {
    seconds % 3_600 / 60
  }

  function SecondOf(seconds: nat): nat {
    seconds % 60
  }

  function QsoEpoch(date: string, time: string): Option<int> {
    if |date| != 8 || !AllDigits(date) then None else
      var t := Trim(time);
      if |t| !in {4, 6} || !AllDigits(t) then None else
        DigitsAreNumbers(date[0..4]);
        DigitsAreNumbers(date[4..6]);
        DigitsAreNumbers(date[6..8]);
        DigitsAreNumbers(t[0..2]);
        DigitsAreNumbers(t[2..4]);
        var hour, minute := Number(t[0..2]).value, Number(t[2..4]).value;
        var second := if |t| == 6 then (DigitsAreNumbers(t[4..6]); Number(t[4..6]).value) else 0;
        if hour > 23 || minute > 59 || second > 59 then None else
          match DaysFromCivil(Date(Number(date[0..4]).value, Number(date[4..6]).value, Number(date[6..8]).value))
          case None => None
          case Some(days) => Some(days * 86_400 + hour * 3_600 + minute * 60 + second)
  }

  lemma {:induction false} DigitsAreNumbers(s: string)
    requires AllDigits(s)
    ensures Number(s).Some?
  {
    if s != "" {
      DigitsAreNumbers(s[..|s| - 1]);
    }
  }

  function Pow10(n: nat): nat {
    if n == 0 then 1 else 10 * Pow10(n - 1)
  }

  /** How many digits a number has. */
  lemma {:induction false} DecimalLength(n: nat, width: nat)
    requires width > 0
    ensures |Decimal(n)| <= width <==> n < Pow10(width)
    decreases n
  {
    if n >= 10 {
      if width > 1 {
        DecimalLength(n / 10, width - 1);
      }
    } else {
      PowerGrows(width);
    }
  }

  lemma {:induction false} PowerGrows(width: nat)
    requires width > 0
    ensures Pow10(width) >= 10
  {
    if width > 1 { PowerGrows(width - 1); }
  }

  lemma {:induction false} LeadingZeros(zeros: nat, digits: string)
    requires AllDigits(digits)
    ensures Number(Zeros(zeros) + digits) == Number(digits)
    decreases |digits|, zeros
  {
    var all := Zeros(zeros) + digits;
    if digits != "" {
      LeadingZeros(zeros, digits[..|digits| - 1]);
      assert all[..|all| - 1] == Zeros(zeros) + digits[..|digits| - 1];
    } else if zeros > 0 {
      LeadingZeros(zeros - 1, "");
      assert all[..|all| - 1] == Zeros(zeros - 1) + "";
    }
  }

  /** Padded numbers have their width, if it suffices, and are read back. */
  lemma PadShape(n: nat, width: nat)
    requires width > 0
    ensures AllDigits(Pad(n, width)) && Number(Pad(n, width)) == Some(n)
    ensures if n < Pow10(width) then |Pad(n, width)| == width else |Pad(n, width)| > width
  {
    DecimalShape(n);
    DecimalLength(n, width);
    hide Decimal, Number, Pow10;
    if |Decimal(n)| < width { LeadingZeros(width - |Decimal(n)|, Decimal(n)); }
  }

  /** Three numbers side by side are found again. */
  lemma Columns(a: string, b: string, c: string)
    ensures var all := a + b + c;
            && all[..|a|] == a && all[|a|..|a| + |b|] == b && all[|a| + |b|..] == c
            && (AllDigits(a) && AllDigits(b) && AllDigits(c) ==> AllDigits(all))
  {
  }

  lemma DigitsAreTrimmed(s: string)
    requires AllDigits(s) && s != ""
    ensures Trim(s) == s
  {
    TrimmedEnds(s);
  }

  /** The first second after the year 9999. */
  const END_OF_TIME: int := 253_402_300_800

  lemma LastYear(epoch: int)
    requires epoch >= 0
    ensures CivilFromDays(DayOf(epoch)).year < Pow10(4) <==> epoch < END_OF_TIME
  {
    YearOfDays(DayOf(epoch), 10_000);
    assert Pow10(4) == 10_000 by { assert Pow10(2) == 100; }
    assert YearStart(10_000) == 2_932_897;
  }

  /** The number of the parts of a time of day. */
  lemma TimeParts(seconds: nat)
    requires seconds < 86_400
    ensures HourOf(seconds) <= 23 && MinuteOf(seconds) <= 59 && SecondOf(seconds) <= 59
    ensures HourOf(seconds) * 3_600 + MinuteOf(seconds) * 60 + SecondOf(seconds) == seconds
  {
  }

  lemma TwoDigits(n: nat)
    requires n < 100
    ensures |Pad(n, 2)| == 2 && AllDigits(Pad(n, 2)) && Number(Pad(n, 2)) == Some(n)
  {
    PadShape(n, 2);
    assert Pow10(2) == 100 by { assert Pow10(1) == 10; }
  }

  /** The text of a time of day is read back. */
  lemma TimeText(seconds: nat)
    requires seconds < 86_400
    ensures var time := TimeString(seconds);
            && Trim(time) == time && |time| == 6 && AllDigits(time)
            && Number(time[0..2]) == Some(HourOf(seconds))
            && Number(time[2..4]) == Some(MinuteOf(seconds))
            && Number(time[4..6]) == Some(SecondOf(seconds))
  {
    TimeParts(seconds);
    hide Pad, Number, Trim, HourOf, MinuteOf, SecondOf;
    var a, b, c := Pad(HourOf(seconds), 2), Pad(MinuteOf(seconds), 2), Pad(SecondOf(seconds), 2);
    TwoDigits(HourOf(seconds));
    TwoDigits(MinuteOf(seconds));
    TwoDigits(SecondOf(seconds));
    Columns(a, b, c);
    DigitsAreTrimmed(a + b + c);
  }

  /** The text of a date is read back, as long as its year has four digits. */
  lemma DateText(d: Date)
    requires IsDate(d) && d.year >= 0
    ensures var date := DateString(d);
            && (|date| == 8 <==> d.year < Pow10(4))
            && (|date| == 8 ==>
                  && AllDigits(date) && Number(date[0..4]) == Some(d.year)
                  && Number(date[4..6]) == Some(d.month) && Number(date[6..8]) == Some(d.day))
  {
    var a, b, c := Pad(d.year, 4), Pad(d.month, 2), Pad(d.day, 2);
    PadShape(d.year, 4);
    TwoDigits(d.month);
    TwoDigits(d.day);
    hide Pad, Number, Pow10;
    Columns(a, b, c);
  }

  /**
   The text of an epoch is read back as that epoch, from 1970 exactly to the end of the year 9999; from
   then on the date has too many digits and is rejected.
   */
  lemma EpochRoundTrip(epoch: int)
    requires epoch >= 0
    ensures QsoDatetimeAdif(epoch).Some?
    ensures var (date, time) := QsoDatetimeAdif(epoch).value;
            QsoEpoch(date, time) == if epoch < END_OF_TIME then Some(epoch) else None
  {
    hide CivilFromDays, DaysFromCivil, Pow10, IsDate, QsoEpoch, DateString, TimeString, DayOf, SecondsOf;
    EpochYear(DayOf(epoch));
    DatesAndDays(CivilFromDays(DayOf(epoch)), DayOf(epoch));
    LastYear(epoch);
    DayAndSeconds(epoch);
    TextRoundTrip(CivilFromDays(DayOf(epoch)), DayOf(epoch), SecondsOf(epoch));
  }

  lemma DayAndSeconds(epoch: nat)
    ensures SecondsOf(epoch) < 86_400 && DayOf(epoch) * 86_400 + SecondsOf(epoch) == epoch
  {
  }

  lemma TextRoundTrip(d: Date, days: int, seconds: nat)
    requires IsDate(d) && d.year >= 0 && DaysFromCivil(d) == Some(days) && seconds < 86_400
    ensures QsoEpoch(DateString(d), TimeString(seconds)) ==
            if d.year < Pow10(4) then Some(days * 86_400 + seconds) else None
  {
    hide Number, Trim, AllDigits, DaysFromCivil, Pow10, IsDate, QsoEpoch, DateString, TimeString, HourOf, MinuteOf, SecondOf;
    DateText(d);
    TimeText(seconds);
    TimeParts(seconds);
    if |DateString(d)| == 8 {
      EpochOfText(DateString(d), TimeString(seconds), d, days, HourOf(seconds), MinuteOf(seconds), SecondOf(seconds));
    } else {
      LongDate(DateString(d), TimeString(seconds));
    }
  }

  lemma LongDate(date: string, time: string)
    requires |date| != 8
    ensures QsoEpoch(date, time) == None
  {
  }

  lemma EpochOfText(date: string, time: string, d: Date, days: int, hour: int, minute: int, second: int)
    requires |date| == 8 && AllDigits(date) && DaysFromCivil(d) == Some(days)
    requires Number(date[0..4]) == Some(d.year) && Number(date[4..6]) == Some(d.month) && Number(date[6..8]) == Some(d.day)
    requires Trim(time) == time && |time| == 6 && AllDigits(time)
    requires Number(time[0..2]) == Some(hour) && Number(time[2..4]) == Some(minute) && Number(time[4..6]) == Some(second)
    requires hour <= 23 && minute <= 59 && second <= 59
    ensures QsoEpoch(date, time) == Some(days * 86_400 + hour * 3_600 + minute * 60 + second)
  {
    hide Number, Trim, AllDigits, DaysFromCivil;
    assert Date(d.year, d.month, d.day) == d;
  }

  /** Digit strings of one length that write one number are the same. */
  lemma {:induction false} OneWriting(a: string, b: string)
    requires AllDigits(a) && AllDigits(b) && |a| == |b| && Number(a) == Number(b)
    ensures a == b
  {
    DigitsAreNumbers(a);
    DigitsAreNumbers(b);
    if a != "" {
      DigitsAreNumbers(a[..|a| - 1]);
      DigitsAreNumbers(b[..|b| - 1]);
      OneWriting(a[..|a| - 1], b[..|b| - 1]);
      assert a == a[..|a| - 1] + [a[|a| - 1]] && b == b[..|b| - 1] + [b[|b| - 1]];
    }
  }

  lemma {:induction false} NumberBound(s: string)
    requires AllDigits(s)
    ensures Number(s).Some? && Number(s).value < Pow10(|s|)
  {
    if s != "" {
      NumberBound(s[..|s| - 1]);
    }
  }

  /** Writing the number of some digits with as many digits gives the digits. */
  lemma PadNumber(s: string)
    requires AllDigits(s) && s != ""
    ensures Number(s).Some? && Pad(Number(s).value, |s|) == s
  {
    NumberBound(s);
    PadShape(Number(s).value, |s|);
    OneWriting(Pad(Number(s).value, |s|), s);
  }

  lemma DateStringOf(date: string, d: Date)
    requires |date| == 8 && AllDigits(date) && IsDate(d) && d.year >= 0
    requires Number(date[0..4]) == Some(d.year) && Number(date[4..6]) == Some(d.month) && Number(date[6..8]) == Some(d.day)
    ensures DateString(d) == date
  {
    hide Number, Pad;
    PadNumber(date[0..4]);
    PadNumber(date[4..6]);
    PadNumber(date[6..8]);
    assert date == date[0..4] + date[4..6] + date[6..8];
  }

  lemma TimeStringOf(time: string, hour: nat, minute: nat, second: nat)
    requires |time| == 6 && AllDigits(time) && hour <= 23 && minute <= 59 && second <= 59
    requires Number(time[0..2]) == Some(hour) && Number(time[2..4]) == Some(minute) && Number(time[4..6]) == Some(second)
    ensures TimeString(hour * 3_600 + minute * 60 + second) == time
  {
    hide Number, Pad;
    PadNumber(time[0..2]);
    PadNumber(time[2..4]);
    PadNumber(time[4..6]);
    PartsOfTime(hour, minute, second);
    hide HourOf, MinuteOf, SecondOf;
    assert time == time[0..2] + time[2..4] + time[4..6];
  }

  lemma PartsOfTime(hour: nat, minute: nat, second: nat)
    requires minute <= 59 && second <= 59
    ensures var t := hour * 3_600 + minute * 60 + second;
            HourOf(t) == hour && MinuteOf(t) == minute && SecondOf(t) == second
  {
  }

  lemma PartsOfEpoch(days: nat, seconds: nat)
    requires seconds < 86_400
    ensures DayOf(days * 86_400 + seconds) == days && SecondsOf(days * 86_400 + seconds) == seconds
  {
  }

  /** What QsoEpoch has found when it accepts a date and a time with seconds. */
  lemma Accepted(date: string, time: string) returns (d: Date, days: int, hour: nat, minute: nat, second: nat)
    requires QsoEpoch(date, time).Some? && |Trim(time)| == 6
    ensures var t := Trim(time);
            && |date| == 8 && AllDigits(date) && AllDigits(t) && hour <= 23 && minute <= 59 && second <= 59
            && Number(date[0..4]) == Some(d.year) && Number(date[4..6]) == Some(d.month) && Number(date[6..8]) == Some(d.day)
            && Number(t[0..2]) == Some(hour) && Number(t[2..4]) == Some(minute) && Number(t[4..6]) == Some(second)
            && DaysFromCivil(d) == Some(days) && d.year >= 0
            && QsoEpoch(date, time) == Some(days * 86_400 + hour * 3_600 + minute * 60 + second)
  {
    var t := Trim(time);
    DigitsAreNumbers(date[0..4]);
    DigitsAreNumbers(date[4..6]);
    DigitsAreNumbers(date[6..8]);
    DigitsAreNumbers(t[0..2]);
    DigitsAreNumbers(t[2..4]);
    DigitsAreNumbers(t[4..6]);
    hide Number, Trim, AllDigits, DaysFromCivil;
    d := Date(Number(date[0..4]).value, Number(date[4..6]).value, Number(date[6..8]).value);
    days := DaysFromCivil(d).value;
    hour, minute, second := Number(t[0..2]).value, Number(t[2..4]).value, Number(t[4..6]).value;
  }

  /** A date and a time with seconds that are accepted, from 1970 on, are printed as they were written. */
  lemma TextRoundTripBack(date: string, time: string)
    requires QsoEpoch(date, time).Some? && |Trim(time)| == 6 && QsoEpoch(date, time).value >= 0
    ensures QsoDatetimeAdif(QsoEpoch(date, time).value) == Some((date, Trim(time)))
  {
    hide Number, Trim, AllDigits, CivilFromDays, DaysFromCivil, QsoEpoch, DateString, TimeString, DayOf, SecondsOf, IsDate;
    var d, days, hour, minute, second := Accepted(date, time);
    DatesAndDays(d, days);
    DateStringOf(date, d);
    TimeStringOf(Trim(time), hour, minute, second);
    PartsOfEpoch(days, hour * 3_600 + minute * 60 + second);
  }

  // ----- what is accepted -----

  /** The number that some digits of a text write. */
  function Part(s: string, from: nat, to: nat): nat
    requires from <= to <= |s| && AdifMeaning.Digits(s)
  {
    AdifMeaning.ValueOf(s[from..to])
  }

  predicate WritesDate(date: string) {
    && |date| == 8 && AdifMeaning.Digits(date)
    && IsDate(Date(Part(date, 0, 4), Part(date, 4, 6), Part(date, 6, 8)))
  }

  /** Hours and minutes, perhaps with seconds. */
  predicate WritesTime(time: string) {
    && |time| in {4, 6} && AdifMeaning.Digits(time)
    && Part(time, 0, 2) < 24 && Part(time, 2, 4) < 60 && (|time| == 6 ==> Part(time, 4, 6) < 60)
  }

  /**
   A date and a time are accepted if and only if the calendar has the date and the day has the time, which may
   leave out the seconds and have white space around it. The epoch counts the seconds since 1970.
   */
  lemma EpochIs(date: string, time: string)
    ensures QsoEpoch(date, time).Some? <==> WritesDate(date) && WritesTime(Trim(time))
    ensures WritesDate(date) && WritesTime(Trim(time)) ==>
              var t := Trim(time);
              forall days :: CivilFromDays(days) == Date(Part(date, 0, 4), Part(date, 4, 6), Part(date, 6, 8)) ==>
                QsoEpoch(date, time) == Some(days * 86_400 + Part(t, 0, 2) * 3_600 + Part(t, 2, 4) * 60
                                             + if |t| == 6 then Part(t, 4, 6) else 0)
  {
    hide CivilFromDays, DayNumber, IsDate, DaysFromCivil, Trim, Number;
    var t := Trim(time);
    if |date| == 8 && AllDigits(date) && |t| in {4, 6} && AllDigits(t) {
      PartIs(date, 0, 4);
      PartIs(date, 4, 6);
      PartIs(date, 6, 8);
      PartIs(t, 0, 2);
      PartIs(t, 2, 4);
      if |t| == 6 { PartIs(t, 4, 6); }
      var d := Date(Part(date, 0, 4), Part(date, 4, 6), Part(date, 6, 8));
      forall days { DatesAndDays(d, days); }
      DatesAndDays(d, 0);
    }
  }

  lemma PartIs(s: string, from: nat, to: nat)
    requires from <= to <= |s| && AllDigits(s)
    ensures AdifMeaning.Digits(s) && Number(s[from..to]) == Some(Part(s, from, to))
  {
    AdifMeaning.NumberIs(s[from..to]);
  }
}

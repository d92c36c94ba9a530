/**
 `civil_from_days`: day number since 1970-01-01 to a date of the proleptic Gregorian calendar.
 The reference is the ordinary calendar: month lengths, the leap-year rule, and the date after a date.
 */
module Calendar {

  datatype Date = Date(year: int, month: int, day: int)

  /** Division as in Rust: rounds toward zero. */
  function TruncDiv(a: int, b: int): int
    requires b > 0
  {
    if a >= 0 then a / b else -((-a) / b)
  }

  function CivilFromDays(days: int): Date {
    var z := days + 719468;
    var era := if z >= 0 then TruncDiv(z, 146097) else TruncDiv(z - 146096, 146097);
    var dayOfEra := z - era * 146097;
    var yearOfEra := YearOfEra(dayOfEra);
    var dayOfYear := dayOfEra - (365 * yearOfEra + TruncDiv(yearOfEra, 4) - TruncDiv(yearOfEra, 100));
    MonthAndDay(yearOfEra + era * 400, dayOfYear)
  }

  function YearOfEra(dayOfEra: int): int {
    TruncDiv(dayOfEra - TruncDiv(dayOfEra, 1460) + TruncDiv(dayOfEra, 36524) - TruncDiv(dayOfEra, 146096), 365)
  }

  function MonthAndDay(year: int, dayOfYear: int): Date {
    var monthPart := TruncDiv(5 * dayOfYear + 2, 153);
    var day := dayOfYear - TruncDiv(153 * monthPart + 2, 5) + 1;
    var month := monthPart + if monthPart < 10 then 3 else -9;
    Date(year + if month <= 2 then 1 else 0, month, day)
  }

  // ----- The calendar

  predicate Leap(year: int) {
    year % 4 == 0 && (year % 100 != 0 || year % 400 == 0)
  }

  function MonthLength(year: int, month: int): int {
    if month == 2 then (if Leap(year) then 29 else 28)
    else if month in {4, 6, 9, 11} then 30
    else 31
  }

  predicate Valid(d: Date) {
    1 <= d.month <= 12 && 1 <= d.day <= MonthLength(d.year, d.month)
  }

  function NextDate(d: Date): Date {
    if d.day < MonthLength(d.year, d.month) then d.(day := d.day + 1)
    else if d.month < 12 then Date(d.year, d.month + 1, 1)
    else Date(d.year + 1, 1, 1)
  }

  // ----- Days from a date: years counted from March, in floor arithmetic

  /** Days in the months before `m`, counting March as month 0. */
  function DaysBeforeMonth(m: int): int {
    (153 * m + 2) / 5
  }

  /** Days before March 1 of March-year `y`. */
  function DaysBeforeYear(y: int): int {
    365 * y + y / 4 - y / 100 + y / 400
  }

  /** Month and year counted from March. */
  function MarchMonth(d: Date): int {
    if d.month > 2 then d.month - 3 else d.month + 9
  }

  function MarchYear(d: Date): int {
    if d.month > 2 then d.year else d.year - 1
  }

  function DaysFromCivil(d: Date): int {
    DaysBeforeYear(MarchYear(d)) + DaysBeforeMonth(MarchMonth(d)) + d.day - 1 - 719468
  }

  // ----- Positions: era, century, four-year cycle, year, day

  /**
   A day of an era of 400 years, counted from its first March 1: `century` of 36524 days, `cycle` of
   1461 days, `year` of 365 days, `day`. A leap day is day 365 of the last year of a cycle, and the
   last cycle of a century has one only in the last century.
   */
  datatype Position = Position(century: int, cycle: int, year: int, day: int)

  predicate Proper(p: Position) {
    && 0 <= p.century <= 3 && 0 <= p.cycle <= 24 && 0 <= p.year <= 3 && 0 <= p.day <= 365
    && (p.day == 365 ==> p.year == 3 && (p.cycle < 24 || p.century == 3))
  }

  function DayOfEra(p: Position): int {
    36524 * p.century + 1461 * p.cycle + 365 * p.year + p.day
  }

  function YearOf(p: Position): int {
    100 * p.century + 4 * p.cycle + p.year
  }

  lemma Multiple(k: int, d: int)
    requires k > 0
    ensures d >= 1 ==> k * d >= k
    ensures d <= -1 ==> k * d <= -k
  {
  }

  lemma Quotient(x: int, k: int, q: int)
    requires k > 0 && k * q <= x < k * q + k
    ensures x / k == q && x % k == x - k * q
  {
    var d := x / k - q;
    assert k * (x / k) == k * q + k * d;
    Multiple(k, d);
  }

  /** Every day of an era has a proper position. */
  lemma FindPosition(doe: int) returns (p: Position)
    requires 0 <= doe < 146097
    ensures Proper(p) && DayOfEra(p) == doe
  {
    var century := if doe / 36524 < 3 then doe / 36524 else 3;
    var r := doe - 36524 * century;
    assert 0 <= r <= 36524 && (r == 36524 ==> century == 3);
    var cycle := r / 1461;
    var s := r - 1461 * cycle;
    assert 0 <= s <= 1460;
    var year := if s / 365 < 3 then s / 365 else 3;
    p := Position(century, cycle, year, s - 365 * year);
  }

  lemma YearQuotients(p: Position, era: int)
    requires Proper(p)
    ensures var y := YearOf(p) + 400 * era;
      && y / 4 == 100 * era + 25 * p.century + p.cycle && y % 4 == p.year
      && y / 100 == 4 * era + p.century && y % 100 == 4 * p.cycle + p.year
      && y / 400 == era && y % 400 == YearOf(p)
  {
    var y := YearOf(p) + 400 * era;
    Quotient(y, 4, 100 * era + 25 * p.century + p.cycle);
    Quotient(y, 100, 4 * era + p.century);
    Quotient(y, 400, era);
  }

  /** The quotients of the year after. */
  lemma NextYearQuotients(p: Position, era: int)
    requires Proper(p)
    ensures var y := YearOf(p) + 400 * era + 1;
      var carry4 := if p.year == 3 then 1 else 0;
      var carry100 := if p.year == 3 && p.cycle == 24 then 1 else 0;
      var carry400 := if p.year == 3 && p.cycle == 24 && p.century == 3 then 1 else 0;
      && y / 4 == 100 * era + 25 * p.century + p.cycle + carry4 && (y % 4 == 0 <==> carry4 == 1)
      && y / 100 == 4 * era + p.century + carry100 && (y % 100 == 0 <==> carry100 == 1)
      && y / 400 == era + carry400 && (y % 400 == 0 <==> carry400 == 1)
  {
    var y := YearOf(p) + 400 * era + 1;
    Quotient(y, 4, 100 * era + 25 * p.century + p.cycle + if p.year == 3 then 1 else 0);
    Quotient(y, 100, 4 * era + p.century + if p.year == 3 && p.cycle == 24 then 1 else 0);
    Quotient(y, 400, era + if p.year == 3 && p.cycle == 24 && p.century == 3 then 1 else 0);
  }

  /** `year_of_era` and `day_of_year` are the year and the day of the position. */
  lemma FormulaFindsPosition(p: Position)
    requires Proper(p)
    ensures var doe := DayOfEra(p);
      && 0 <= doe < 146097
      && (doe - doe / 1460 + doe / 36524 - doe / 146096) / 365 == YearOf(p)
      && doe - (365 * YearOf(p) + YearOf(p) / 4 - YearOf(p) / 100) == p.day
  {
    var doe := DayOfEra(p);
    var w := 24 * p.century + p.cycle + 365 * p.year + p.day;
    var e := if w >= 1460 then 1 else 0;
    Quotient(doe, 1460, 25 * p.century + p.cycle + e);
    var last := if doe == 146096 then 1 else 0;
    Quotient(doe, 36524, p.century + last);
    Quotient(doe, 146096, last);
    Quotient(365 * YearOf(p) + p.day - e, 365, YearOf(p));
    YearQuotients(p, 0);
  }

  /** Month and day of month of a day of the March-year. */
  lemma MonthOfDay(doy: int)
    requires 0 <= doy <= 365
    ensures var m := (5 * doy + 2) / 153;
      0 <= m <= 11 && DaysBeforeMonth(m) <= doy && (m < 11 ==> doy < DaysBeforeMonth(m + 1))
  {
  }

  lemma EraEncloses(z: int)
    ensures var era := if z >= 0 then TruncDiv(z, 146097) else TruncDiv(z - 146096, 146097);
      146097 * era <= z < 146097 * era + 146097
  {
  }

  /** `d` is day `p.day` of March-year `YearOf(p) + 400 * era`. */
  ghost predicate IsDayAt(d: Date, p: Position, era: int) {
    && Proper(p) && 1 <= d.month <= 12
    && MarchYear(d) == YearOf(p) + 400 * era
    && DaysBeforeMonth(MarchMonth(d)) + d.day - 1 == p.day
    && d.day >= 1 && (d.month != 2 ==> p.day < DaysBeforeMonth(MarchMonth(d) + 1))
  }

  /** The date computed for a day number lies at that day's position. */
  lemma CivilIsDayAt(days: int) returns (p: Position, era: int)
    ensures IsDayAt(CivilFromDays(days), p, era)
    ensures DayOfEra(p) + 146097 * era == days + 719468
  {
    var z := days + 719468;
    era := if z >= 0 then TruncDiv(z, 146097) else TruncDiv(z - 146096, 146097);
    EraEncloses(z);
    p := FindPosition(z - 146097 * era);
    FormulaFindsPosition(p);
    MonthOfDay(p.day);
    CivilUnfolds(days, p, era);
    MonthAndDayAt(YearOf(p) + 400 * era, p.day);
  }

  lemma CivilUnfolds(days: int, p: Position, era: int)
    requires Proper(p) && DayOfEra(p) + 146097 * era == days + 719468
    requires var z := days + 719468;
      era == if z >= 0 then TruncDiv(z, 146097) else TruncDiv(z - 146096, 146097)
    ensures CivilFromDays(days) == MonthAndDay(YearOf(p) + 400 * era, p.day)
  {
    hide MonthAndDay, YearOfEra, TruncDiv, YearOf, DayOfEra, Proper;
    YearIsFound(p);
    DayIsFound(p);
  }

  lemma DayIsFound(p: Position)
    requires Proper(p)
    ensures DayOfEra(p) - (365 * YearOf(p) + TruncDiv(YearOf(p), 4) - TruncDiv(YearOf(p), 100)) == p.day
  {
    FormulaFindsPosition(p);
  }

  lemma YearIsFound(p: Position)
    requires Proper(p)
    ensures YearOfEra(DayOfEra(p)) == YearOf(p)
  {
    FormulaFindsPosition(p);
  }

  lemma MonthAndDayAt(y: int, doy: int)
    requires 0 <= doy <= 365
    ensures var m := (5 * doy + 2) / 153;
      && 0 <= m <= 11
      && MonthAndDay(y, doy) == Date(y + (if m >= 10 then 1 else 0), if m < 10 then m + 3 else m - 9, doy - DaysBeforeMonth(m) + 1)
  {
    MonthOfDay(doy);
  }

  lemma DayAtNumber(d: Date, p: Position, era: int)
    requires IsDayAt(d, p, era)
    ensures DaysFromCivil(d) + 719468 == DayOfEra(p) + 146097 * era
  {
    YearQuotients(p, era);
  }

  /** A March-year has a leap day at its end exactly if the next year is a leap year. */
  lemma LeapYears(p: Position, era: int)
    requires Proper(p)
    ensures var y := YearOf(p) + 400 * era;
      && (Leap(y + 1) <==> p.year == 3 && (p.cycle < 24 || p.century == 3))
      && DaysBeforeYear(y + 1) - DaysBeforeYear(y) == if Leap(y + 1) then 366 else 365
  {
    YearQuotients(p, era);
    NextYearQuotients(p, era);
  }

  lemma MonthLengths(d: Date)
    requires 1 <= d.month <= 12 && d.month != 2
    ensures MonthLength(d.year, d.month) == DaysBeforeMonth(MarchMonth(d) + 1) - DaysBeforeMonth(MarchMonth(d))
  {
  }

  lemma DayAtIsValid(d: Date, p: Position, era: int)
    requires IsDayAt(d, p, era)
    ensures Valid(d)
  {
    if d.month == 2 {
      LeapYears(p, era);
    } else {
      MonthLengths(d);
    }
  }

  lemma ValidIsDayAt(d: Date) returns (p: Position, era: int)
    requires Valid(d)
    ensures IsDayAt(d, p, era)
  {
    var y := MarchYear(d);
    era := y / 400;
    var r := y % 400;
    var day := DaysBeforeMonth(MarchMonth(d)) + d.day - 1;
    p := Position(r / 100, r % 100 / 4, r % 4, day);
    assert r == 100 * (r / 100) + 4 * (r % 100 / 4) + r % 4;
    var q := p.(day := 0);
    LeapYears(q, era);
    if d.month != 2 {
      MonthLengths(d);
    }
  }

  // ----- The calendar laws

  /** Two positions of one day number are the same; so are two dates at one position. */
  lemma PositionIsUnique(p: Position, era: int, q: Position, era': int)
    requires Proper(p) && Proper(q)
    requires DayOfEra(p) + 146097 * era == DayOfEra(q) + 146097 * era'
    ensures p == q && era == era'
  {
    FormulaFindsPosition(p);
    FormulaFindsPosition(q);
    assert era == era';
    YearPartsAreUnique(p, q);
  }

  lemma YearPartsAreUnique(p: Position, q: Position)
    requires Proper(p) && Proper(q) && YearOf(p) == YearOf(q)
    ensures p.century == q.century && p.cycle == q.cycle && p.year == q.year
  {
    YearQuotients(p, 0);
    YearQuotients(q, 0);
  }

  lemma MonthsAscend(m: int, n: int)
    ensures m < n ==> DaysBeforeMonth(m + 1) <= DaysBeforeMonth(n)
  {
  }

  lemma DateIsUnique(d: Date, e: Date, p: Position, era: int)
    requires IsDayAt(d, p, era) && IsDayAt(e, p, era)
    ensures d == e
  {
    var m, n := MarchMonth(d), MarchMonth(e);
    MonthsAscend(m, n);
    MonthsAscend(n, m);
  }

  /** Distinct valid dates have distinct day numbers. */
  lemma DaysAreInjective(d: Date, e: Date)
    requires Valid(d) && Valid(e) && DaysFromCivil(d) == DaysFromCivil(e)
    ensures d == e
  {
    var p, era := ValidIsDayAt(d);
    var q, era' := ValidIsDayAt(e);
    DayAtNumber(d, p, era);
    DayAtNumber(e, q, era');
    PositionIsUnique(p, era, q, era');
    DateIsUnique(d, e, p, era);
  }

  /** For every day number, negative ones included: a valid date, and the one with that day number. */
  lemma CivilIsValid(days: int)
    ensures Valid(CivilFromDays(days))
    ensures DaysFromCivil(CivilFromDays(days)) == days
  {
    var p, era := CivilIsDayAt(days);
    DayAtIsValid(CivilFromDays(days), p, era);
    DayAtNumber(CivilFromDays(days), p, era);
  }

  /** Every valid date is reached. */
  lemma CivilIsOnto(d: Date)
    requires Valid(d)
    ensures CivilFromDays(DaysFromCivil(d)) == d
  {
    CivilIsValid(DaysFromCivil(d));
    DaysAreInjective(d, CivilFromDays(DaysFromCivil(d)));
  }

  /** The day number of the next date is one more. */
  lemma NextDateIsNextDay(d: Date)
    requires Valid(d)
    ensures Valid(NextDate(d)) && DaysFromCivil(NextDate(d)) == DaysFromCivil(d) + 1
  {
    if d.day == MonthLength(d.year, d.month) {
      if d.month == 2 {
        var p, era := ValidIsDayAt(d);
        LeapYears(p, era);
      } else {
        MonthLengths(d);
      }
    }
  }

  /** Day 0 is 1 January 1970. */
  lemma Epoch()
    ensures CivilFromDays(0) == Date(1970, 1, 1)
  {
    var p := Position(3, 17, 1, 306);
    CivilUnfolds(0, p, 4);
    MonthAndDayAt(YearOf(p) + 1600, p.day);
  }

  /** Successive days map to successive dates; with the epoch this fixes the conversion completely. */
  lemma CivilFollowsCalendar(days: int)
    ensures CivilFromDays(days + 1) == NextDate(CivilFromDays(days))
    ensures CivilFromDays(0) == Date(1970, 1, 1)
  {
    hide CivilFromDays, DaysFromCivil, NextDate, Valid;
    Epoch();
    CivilIsValid(days);
    CivilIsValid(days + 1);
    NextDateIsNextDay(CivilFromDays(days));
    DaysAreInjective(CivilFromDays(days + 1), NextDate(CivilFromDays(days)));
  }

  // ----- Timestamps

  /** Date and time of day of a number of seconds since the epoch. */
  datatype Timestamp = Timestamp(date: Date, hour: int, minute: int, second: int)

  function UtcTimestamp(seconds: int): Timestamp {
    var daySeconds := seconds % 86400;  // Euclidean, like `rem_euclid`
    Timestamp(CivilFromDays(seconds / 86400), daySeconds / 3600, daySeconds % 3600 / 60, daySeconds % 60)
  }

  function SecondsOf(t: Timestamp): int {
    86400 * DaysFromCivil(t.date) + 3600 * t.hour + 60 * t.minute + t.second
  }

  /** A timestamp is a valid date and time of day, and the seconds can be recovered from it. */
  lemma TimestampRoundTrip(seconds: int)
    ensures var t := UtcTimestamp(seconds);
      && Valid(t.date) && 0 <= t.hour < 24 && 0 <= t.minute < 60 && 0 <= t.second < 60
      && SecondsOf(t) == seconds
  {
    hide CivilFromDays, DaysFromCivil, Valid;
    CivilIsValid(seconds / 86400);
  }
}

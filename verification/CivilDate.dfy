/**
  The civil-date conversion and the timestamps of the command line (cli/support.rs).
*/
module CivilDate {

  datatype Date = Date(year: int, month: int, day: int)

  // ----- the calendar, independently of the code --------------------------------

  predicate IsLeap(year: int) {
    year % 4 == 0 && (year % 100 != 0 || year % 400 == 0)
  }

  function DaysInMonth(year: int, month: int): int {
    if month == 2 then (if IsLeap(year) then 29 else 28)
    else if month == 4 || month == 6 || month == 9 || month == 11 then 30
    else 31
  }

  predicate ValidDate(date: Date) {
    1 <= date.month <= 12 && 1 <= date.day <= DaysInMonth(date.year, date.month)
  }

  /** The day after a date in the proleptic Gregorian calendar. */
  function Next(date: Date): Date {
    if date.day < DaysInMonth(date.year, date.month) then Date(date.year, date.month, date.day + 1)
    else if date.month < 12 then Date(date.year, date.month + 1, 1)
    else Date(date.year + 1, 1, 1)
  }

  predicate Before(a: Date, b: Date) {
    a.year < b.year || (a.year == b.year && (a.month < b.month || (a.month == b.month && a.day < b.day)))
  }

  const EPOCH := Date(1970, 1, 1)

  // ----- the code -----------------------------------------------------------------

  /** Rust's integer division, which rounds towards zero. */
  function TruncDiv(a: int, b: int): int
    requires b > 0
  {
    if a >= 0 then a / b else -(-a / b)
  }

  /** `as i32`: keeps the low 32 bits. */
  function AsI32(n: int): int {
    (n + 0x8000_0000) % 0x1_0000_0000 - 0x8000_0000
  }

  function Era(z: int): int {
    TruncDiv(if z >= 0 then z else z - 146096, 146097)
  }

  function YearOfEra(doe: int): int {
    TruncDiv(doe - TruncDiv(doe, 1460) + TruncDiv(doe, 36524) - TruncDiv(doe, 146096), 365)
  }

  function DayOfYear(doe: int, yoe: int): int {
    doe - (365 * yoe + TruncDiv(yoe, 4) - TruncDiv(yoe, 100))
  }

  /** The part of `civil_from_days` below the choice of the era. */
  function CivilInEra(era: int, doe: int): Date {
    var yoe := YearOfEra(doe);
    var y := yoe + era * 400;
    var doy := DayOfYear(doe, yoe);
    var mp := TruncDiv(5 * doy + 2, 153);
    var day := doy - TruncDiv(153 * mp + 2, 5) + 1;
    var month := mp + (if mp < 10 then 3 else -9);
    var year := y + (if month <= 2 then 1 else 0);
    Date(year, month, day)
  }

  /** `civil_from_days` before the casts. */
  function Civil(days: int): Date {
    var z := days + 719468;
    var era := Era(z);
    CivilInEra(era, z - era * 146097)
  }

  /** `civil_from_days`. */
  function CivilFromDays(days: int): Date {
    var date := Civil(days);
    Date(AsI32(date.year), date.month, date.day)
  }

  // ----- the parts of a 400-year era --------------------------------------------------

  /** Day `doe` of an era is day `doy` of year `100c + 4q + r`, where years begin in March. */
  predicate Parts(doe: int, c: int, q: int, r: int, doy: int) {
    && 0 <= c <= 3 && 0 <= q <= 24 && 0 <= r <= 3 && 0 <= doy <= 365
    && doe == 36524 * c + 1461 * q + 365 * r + doy
    && (doy == 365 ==> LongYear(c, q, r))
  }

  /** The year that begins in March ends with 29 February. */
  predicate LongYear(c: int, q: int, r: int) {
    r == 3 && (q < 24 || c == 3)
  }

  lemma PartsExist(doe: int) returns (c: int, q: int, r: int, doy: int)
    requires 0 <= doe < 146097
    ensures Parts(doe, c, q, r, doy)
  {
    c := if doe / 36524 > 3 then 3 else doe / 36524;
    var rest := doe - 36524 * c;
    q := rest / 1461;
    var rest2 := rest - 1461 * q;
    r := if rest2 / 365 > 3 then 3 else rest2 / 365;
    doy := rest2 - 365 * r;
  }

  /** The divisions of the code find the parts. */
  lemma PartsAreFound(doe: int, c: int, q: int, r: int, doy: int)
    requires Parts(doe, c, q, r, doy)
    ensures YearOfEra(doe) == 100 * c + 4 * q + r && DayOfYear(doe, YearOfEra(doe)) == doy
  {
    var late := if 24 * c + q + 365 * r + doy >= 1460 then 1 else 0;
    assert doe / 1460 == 25 * c + q + late;
    var last := if c == 3 && q == 24 && r == 3 && doy == 365 then 1 else 0;
    assert doe / 36524 == c + last;
    assert doe / 146096 == last;
    var yoe := 100 * c + 4 * q + r;
    assert (365 * yoe + doy - late) / 365 == yoe;
    assert yoe / 4 == 25 * c + q && yoe / 100 == c;
  }

  lemma EraIsFloor(z: int, era: int, doe: int)
    requires z == era * 146097 + doe && 0 <= doe < 146097
    ensures Era(z) == era
  {
    if z < 0 {
      assert -(z - 146096) == -era * 146097 + (146096 - doe);
    }
  }

  lemma SplitDays(days: int) returns (era: int, doe: int, c: int, q: int, r: int, doy: int)
    ensures days + 719468 == era * 146097 + doe && Parts(doe, c, q, r, doy)
  {
    era, doe := (days + 719468) / 146097, (days + 719468) % 146097;
    c, q, r, doy := PartsExist(doe);
  }

  /** Month and day of a day of the year that begins in March. */
  function MonthDay(doy: int): (int, int) {
    var mp := TruncDiv(5 * doy + 2, 153);
    (mp + (if mp < 10 then 3 else -9), doy - TruncDiv(153 * mp + 2, 5) + 1)
  }

  /** The date that the parts stand for. */
  function DateOfParts(era: int, c: int, q: int, r: int, doy: int): Date {
    var (month, day) := MonthDay(doy);
    Date(400 * era + 100 * c + 4 * q + r + (if month <= 2 then 1 else 0), month, day)
  }

  lemma CivilOfParts(days: int, era: int, doe: int, c: int, q: int, r: int, doy: int)
    requires days + 719468 == era * 146097 + doe && Parts(doe, c, q, r, doy)
    ensures Civil(days) == DateOfParts(era, c, q, r, doy)
  {
    hide Era, CivilInEra, MonthDay;
    PartsInRange(doe, c, q, r, doy);
    EraIsFloor(days + 719468, era, doe);
    CivilInEraOfParts(era, doe, c, q, r, doy);
    hide Parts;
  }

  lemma PartsInRange(doe: int, c: int, q: int, r: int, doy: int)
    requires Parts(doe, c, q, r, doy)
    ensures 0 <= doe < 146097
  {
  }

  lemma CivilInEraOfParts(era: int, doe: int, c: int, q: int, r: int, doy: int)
    requires Parts(doe, c, q, r, doy)
    ensures CivilInEra(era, doe) == DateOfParts(era, c, q, r, doy)
  {
    hide YearOfEra, DayOfYear, TruncDiv, Parts;
    PartsAreFound(doe, c, q, r, doy);
  }

  /** Length of the month that a day of the March-based year falls in, given the length of that year. */
  function MonthLength(month: int, long: bool): int {
    if month == 2 then (if long then 29 else 28)
    else if month == 4 || month == 6 || month == 9 || month == 11 then 30
    else 31
  }

  lemma MonthsAreRight(doy: int, long: bool)
    requires 0 <= doy <= 365 && (doy == 365 ==> long)
    ensures var (month, day) := MonthDay(doy);
            1 <= month <= 12 && 1 <= day <= MonthLength(month, long)
  {
    var mp := (5 * doy + 2) / 153;
    assert mp == 0 || mp == 1 || mp == 2 || mp == 3 || mp == 4 || mp == 5
        || mp == 6 || mp == 7 || mp == 8 || mp == 9 || mp == 10 || mp == 11;
  }

  lemma DayAfterInYear(doy: int, long: bool)
    requires 0 <= doy < (if long then 365 else 364)
    ensures var ((month, day), (month', day')) := (MonthDay(doy), MonthDay(doy + 1));
            if day < MonthLength(month, long) then month' == month && day' == day + 1
            else month' == (if month == 12 then 1 else month + 1) && day' == 1 && month != 2
  {
    var mp := (5 * doy + 2) / 153;
    assert mp == 0 || mp == 1 || mp == 2 || mp == 3 || mp == 4 || mp == 5
        || mp == 6 || mp == 7 || mp == 8 || mp == 9 || mp == 10 || mp == 11;
  }

  lemma FebruaryIsLong(era: int, c: int, q: int, r: int)
    requires 0 <= c <= 3 && 0 <= q <= 24 && 0 <= r <= 3
    ensures IsLeap(400 * era + 100 * c + 4 * q + r + 1) <==> LongYear(c, q, r)
  {
    hide IsLeap;
    LeapRepeats(era, 100 * c + 4 * q + r + 1);
    LeapInEra(c, q, r);
  }

  lemma LeapInEra(c: int, q: int, r: int)
    requires 0 <= c <= 3 && 0 <= q <= 24 && 0 <= r <= 3
    ensures IsLeap(100 * c + 4 * q + r + 1) <==> LongYear(c, q, r)
  {
    var year := 100 * c + 4 * q + r + 1;
    assert year % 4 == 0 <==> r == 3;
    assert year % 100 == 0 <==> r == 3 && q == 24;
    assert year % 400 == 0 <==> r == 3 && q == 24 && c == 3;
  }

  /** The pattern of leap years has a period of 400 years. */
  lemma LeapRepeats(era: int, year: int)
    ensures IsLeap(400 * era + year) <==> IsLeap(year)
  {
    ModDrops(era, 100, year, 4);
    ModDrops(era, 4, year, 100);
    ModDrops(era, 1, year, 400);
  }

  lemma ModDrops(era: int, k: int, year: int, n: int)
    requires (k, n) == (100, 4) || (k, n) == (4, 100) || (k, n) == (1, 400)
    ensures (400 * era + year) % n == year % n
  {
    var quotient, rest := year / n, year % n;
    assert 400 * era + year == n * (k * era + quotient) + rest;
  }

  // ----- the theorems --------------------------------------------------------------------

  lemma EpochIsDayZero()
    ensures Civil(0) == EPOCH && DayNumber(EPOCH) == 0
  {
    assert DaysBeforeMonth(1970, 1) == 0;
    CivilOfParts(0, 4, 135080, 3, 17, 1, 306);
  }

  lemma CivilIsValid(days: int)
    ensures ValidDate(Civil(days))
  {
    var era, doe, c, q, r, doy := SplitDays(days);
    hide Civil, MonthDay, IsLeap, LongYear;
    CivilOfParts(days, era, doe, c, q, r, doy);
    MonthsAreRight(doy, LongYear(c, q, r));
    FebruaryIsLong(era, c, q, r);
  }

  lemma NextWithinTheYear(era: int, c: int, q: int, r: int, doy: int)
    requires 0 <= c <= 3 && 0 <= q <= 24 && 0 <= r <= 3
    requires 0 <= doy < (if LongYear(c, q, r) then 365 else 364)
    ensures DateOfParts(era, c, q, r, doy + 1) == Next(DateOfParts(era, c, q, r, doy))
  {
    hide IsLeap, LongYear, MonthDay;
    FebruaryIsLong(era, c, q, r);
    MonthsAreRight(doy, LongYear(c, q, r));
    DayAfterInYear(doy, LongYear(c, q, r));
  }

  lemma EndOfTheYear(long: bool)
    ensures MonthDay(if long then 365 else 364) == (2, if long then 29 else 28) && MonthDay(0) == (3, 1)
  {
  }

  /** 29 or 28 February is followed by 1 March, which belongs to the next March-based year. */
  lemma NextOverTheYear(era: int, c: int, q: int, r: int, doy: int, era': int, c': int, q': int, r': int)
    requires 0 <= c <= 3 && 0 <= q <= 24 && 0 <= r <= 3
    requires doy == (if LongYear(c, q, r) then 365 else 364)
    requires 400 * era' + 100 * c' + 4 * q' + r' == 400 * era + 100 * c + 4 * q + r + 1
    ensures DateOfParts(era', c', q', r', 0) == Next(DateOfParts(era, c, q, r, doy))
  {
    hide IsLeap, LongYear, MonthDay;
    FebruaryIsLong(era, c, q, r);
    EndOfTheYear(LongYear(c, q, r));
  }

  /** The parts of the next day. */
  lemma NextParts(era: int, doe: int, c: int, q: int, r: int, doy: int)
    returns (era': int, doe': int, c': int, q': int, r': int, doy': int)
    requires Parts(doe, c, q, r, doy)
    ensures Parts(doe', c', q', r', doy') && era' * 146097 + doe' == era * 146097 + doe + 1
    ensures var last := if LongYear(c, q, r) then 365 else 364;
            if doy < last then (era', c', q', r', doy') == (era, c, q, r, doy + 1)
            else doy == last && doy' == 0
                 && 400 * era' + 100 * c' + 4 * q' + r' == 400 * era + 100 * c + 4 * q + r + 1
  {
    era', doe', c', q', r', doy' := era, doe + 1, c, q, r, doy + 1;
    if doy == (if LongYear(c, q, r) then 365 else 364) {
      if r < 3 {
        r', doy' := r + 1, 0;
      } else if q < 24 {
        q', r', doy' := q + 1, 0, 0;
      } else if c < 3 {
        c', q', r', doy' := c + 1, 0, 0, 0;
      } else {
        era', doe', c', q', r', doy' := era + 1, 0, 0, 0, 0, 0;
      }
    }
  }

  /** The day after: `civil_from_days` follows the calendar over all day numbers. */
  lemma CivilFollowsTheCalendar(days: int)
    ensures Civil(days + 1) == Next(Civil(days))
  {
    hide Civil, Next, DateOfParts, LongYear;
    var era, doe, c, q, r, doy := SplitDays(days);
    var era', doe', c', q', r', doy' := NextParts(era, doe, c, q, r, doy);
    CivilOfParts(days, era, doe, c, q, r, doy);
    CivilOfParts(days + 1, era', doe', c', q', r', doy');
    if doy < (if LongYear(c, q, r) then 365 else 364) {
      NextWithinTheYear(era, c, q, r, doy);
    } else {
      NextOverTheYear(era, c, q, r, doy, era', c', q', r');
    }
  }

  // ----- the inverse ------------------------------------------------------------------------

  function DaysBeforeMonth(year: int, month: int): int
    decreases month
  {
    if month <= 1 then 0 else DaysBeforeMonth(year, month - 1) + DaysInMonth(year, month - 1)
  }

  function DaysBeforeYear(year: int): int {
    365 * (year - 1) + (year - 1) / 4 - (year - 1) / 100 + (year - 1) / 400
  }

  /** The number of days from the epoch to a date, counted by whole years, whole months and days. */
  function DayNumber(date: Date): int {
    DaysBeforeYear(date.year) + DaysBeforeMonth(date.year, date.month) + date.day - 1 - 719162
  }

  lemma YearsHaveTheirLength(year: int)
    ensures DaysBeforeYear(year + 1) == DaysBeforeYear(year) + (if IsLeap(year) then 366 else 365)
  {
    var (a, b, c) := (LeapStep(year, 4), LeapStep(year, 100), LeapStep(year, 400));
    DivStep(year, 4);
    DivStep(year, 100);
    DivStep(year, 400);
    LeapSum(year);
    hide IsLeap, LeapStep;
    assert DaysBeforeYear(year + 1) == DaysBeforeYear(year) + 365 + a - b + c;
  }

  /** The leap day that a multiple of `n` adds or takes away. */
  function LeapStep(year: int, n: int): int
    requires n == 4 || n == 100 || n == 400
  {
    if year % n == 0 then 1 else 0
  }

  lemma LeapSum(year: int)
    ensures LeapStep(year, 4) - LeapStep(year, 100) + LeapStep(year, 400) == (if IsLeap(year) then 1 else 0)
  {
    MultipleOfDivisor(year, 100, 4, 25);
    MultipleOfDivisor(year, 400, 100, 4);
  }

  lemma MultipleOfDivisor(year: int, n: int, d: int, k: int)
    requires (n, d, k) == (100, 4, 25) || (n, d, k) == (400, 100, 4)
    ensures year % n == 0 ==> year % d == 0
  {
    var q, r := year / n, year % n;
    assert year == d * (k * q) + r;
  }

  lemma DivStep(year: int, n: int)
    requires n == 4 || n == 100 || n == 400
    ensures year / n == (year - 1) / n + LeapStep(year, n)
  {
  }

  lemma MonthsFillTheYear(year: int)
    ensures DaysBeforeMonth(year, 12) + 31 == (if IsLeap(year) then 366 else 365)
  {
    assert DaysBeforeMonth(year, 4) == DaysBeforeMonth(year, 3) + 31;
    assert DaysBeforeMonth(year, 3) == DaysBeforeMonth(year, 2) + DaysInMonth(year, 2);
    assert DaysBeforeMonth(year, 6) == DaysBeforeMonth(year, 4) + 61;
    assert DaysBeforeMonth(year, 8) == DaysBeforeMonth(year, 6) + 61;
    assert DaysBeforeMonth(year, 10) == DaysBeforeMonth(year, 8) + 61;
    assert DaysBeforeMonth(year, 12) == DaysBeforeMonth(year, 10) + 61;
  }

  lemma NextCountsOne(date: Date)
    requires ValidDate(date)
    ensures ValidDate(Next(date)) && DayNumber(Next(date)) == DayNumber(date) + 1 && Before(date, Next(date))
  {
    YearsHaveTheirLength(date.year);
    MonthsFillTheYear(date.year);
    hide IsLeap, DaysBeforeYear;
  }

  /** Counting days undoes `civil_from_days`. */
  lemma {:induction false} CountingUndoesCivil(days: int)
    ensures DayNumber(Civil(days)) == days
    decreases if days >= 0 then days else -days
  {
    hide Civil, Next, DayNumber, ValidDate;
    EpochIsDayZero();
    if days > 0 {
      CountingUndoesCivil(days - 1);
      CivilFollowsTheCalendar(days - 1);
      CivilIsValid(days - 1);
      NextCountsOne(Civil(days - 1));
    } else if days < 0 {
      CountingUndoesCivil(days + 1);
      CivilFollowsTheCalendar(days);
      CivilIsValid(days);
      NextCountsOne(Civil(days));
    }
  }

  lemma {:induction false} LaterDaysAreLaterDates(a: int, b: int)
    requires a < b
    ensures Before(Civil(a), Civil(b))
    decreases b - a
  {
    hide Civil, Next, ValidDate;
    CivilFollowsTheCalendar(b - 1);
    CivilIsValid(b - 1);
    NextCountsOne(Civil(b - 1));
    if a < b - 1 {
      LaterDaysAreLaterDates(a, b - 1);
    }
  }

  lemma {:induction false} MonthsAreOrdered(year: int, m: int, n: int)
    requires 1 <= m < n <= 12
    ensures DaysBeforeMonth(year, m) + DaysInMonth(year, m) <= DaysBeforeMonth(year, n)
    decreases n
  {
    hide IsLeap;
    if m < n - 1 {
      MonthsAreOrdered(year, m, n - 1);
    }
  }

  lemma {:induction false} YearsAreOrdered(a: int, b: int)
    requires a < b
    ensures DaysBeforeYear(a) + (if IsLeap(a) then 366 else 365) <= DaysBeforeYear(b)
    decreases b - a
  {
    YearsHaveTheirLength(b - 1);
    hide DaysBeforeYear, IsLeap;
    if a < b - 1 {
      YearsAreOrdered(a, b - 1);
    }
  }

  lemma DayFitsInYear(date: Date)
    requires ValidDate(date)
    ensures 0 <= DaysBeforeMonth(date.year, date.month) + date.day - 1 < (if IsLeap(date.year) then 366 else 365)
  {
    MonthsFillTheYear(date.year);
    hide IsLeap;
    if date.month < 12 {
      MonthsAreOrdered(date.year, date.month, 12);
    }
    if 1 < date.month {
      MonthsAreOrdered(date.year, 1, date.month);
    }
  }

  lemma EarlierDatesCountLess(a: Date, b: Date)
    requires ValidDate(a) && ValidDate(b) && Before(a, b)
    ensures DayNumber(a) < DayNumber(b)
  {
    DayFitsInYear(a);
    DayFitsInYear(b);
    if a.year < b.year {
      YearsAreOrdered(a.year, b.year);
    } else if a.month < b.month {
      MonthsAreOrdered(a.year, a.month, b.month);
    }
  }

  /** Every date of the calendar is reached, by its day number only. */
  lemma CivilUndoesCounting(date: Date, days: int)
    requires ValidDate(date)
    ensures Civil(days) == date <==> DayNumber(date) == days
  {
    hide Civil, ValidDate, DayNumber;
    CountingUndoesCivil(days);
    CivilIsValid(days);
    var found := Civil(days);
    if Before(found, date) {
      EarlierDatesCountLess(found, date);
    } else if Before(date, found) {
      EarlierDatesCountLess(date, found);
    }
  }

  const FIRST_I32_DAY := Date(-0x8000_0000, 1, 1)

  const LAST_I32_DAY := Date(0x7FFF_FFFF, 12, 31)

  /** The cast of the year is harmless exactly between the first and the last day of the 32-bit years. */
  lemma YearCastIsHarmlessIff(days: int)
    ensures CivilFromDays(days) == Civil(days) <==> DayNumber(FIRST_I32_DAY) <= days <= DayNumber(LAST_I32_DAY)
  {
    hide Civil, DayNumber;
    CivilIsValid(days);
    CountingUndoesCivil(days);
    var date := Civil(days);
    if Before(date, FIRST_I32_DAY) {
      EarlierDatesCountLess(date, FIRST_I32_DAY);
    } else if date != FIRST_I32_DAY {
      EarlierDatesCountLess(FIRST_I32_DAY, date);
    }
    if Before(LAST_I32_DAY, date) {
      EarlierDatesCountLess(LAST_I32_DAY, date);
    } else if date != LAST_I32_DAY {
      EarlierDatesCountLess(date, LAST_I32_DAY);
    }
  }
}

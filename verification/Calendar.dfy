/** Three separately written day-to-date conversions, and the calendar they must agree with. */
module Calendar {

  datatype Date = Date(year: int, month: int, day: int)

  // ---------------------------------------------------------------- the proleptic Gregorian calendar

  predicate Leap(y: int) {
    y % 4 == 0 && (y % 100 != 0 || y % 400 == 0)
  }

  function DaysInMonth(y: int, m: int): int {
    if m == 2 then (if Leap(y) then 29 else 28)
    else if m == 4 || m == 6 || m == 9 || m == 11 then 30
    else 31
  }

  predicate ValidDate(d: Date) {
    1 <= d.month <= 12 && 1 <= d.day <= DaysInMonth(d.year, d.month)
  }

  function DaysBeforeMonth(y: int, m: int): (n: int)
    requires 1 <= m <= 13
    decreases m
  {
    if m == 1 then 0 else DaysBeforeMonth(y, m - 1) + DaysInMonth(y, m - 1)
  }

  /** Leap years among the years after 0 and up to y; fewer than none for negative y. */
  function LeapsThrough(y: int): int {
    y / 4 - y / 100 + y / 400
  }

  /** Days from 1 January 1970 to 1 January of year y. */
  function YearStart(y: int): int {
    365 * (y - 1970) + LeapsThrough(y - 1) - LeapsThrough(1969)
  }

  /** Days from 1 January 1970 to a date. */
  function DayNumber(d: Date): int
    requires ValidDate(d)
  {
    YearStart(d.year) + DaysBeforeMonth(d.year, d.month) + d.day - 1
  }

  function NextDay(d: Date): Date {
    if d.day < DaysInMonth(d.year, d.month) then d.(day := d.day + 1)
    else if d.month < 12 then Date(d.year, d.month + 1, 1)
    else Date(d.year + 1, 1, 1)
  }

  predicate Earlier(a: Date, b: Date) {
    a.year < b.year || (a.year == b.year && (a.month < b.month || (a.month == b.month && a.day < b.day)))
  }

  lemma LeapCounted(y: int)
    ensures LeapsThrough(y) == LeapsThrough(y - 1) + if Leap(y) then 1 else 0
  {
    FloorStep(y, 4);
    FloorStep(y, 100);
    FloorStep(y, 400);
    CenturiesDivide(y);
  }

  lemma CenturiesDivide(y: int)
    ensures y % 400 == 0 ==> y % 100 == 0
    ensures y % 100 == 0 ==> y % 4 == 0
  {
    MultipleDivides(y / 400, 4, 100);
    MultipleDivides(y / 100, 25, 4);
    assert y % 400 == 0 ==> y == 400 * (y / 400);
    assert y % 100 == 0 ==> y == 100 * (y / 100);
  }

  lemma MultipleDivides(q: int, a: int, b: int)
    requires (a == 4 && b == 100) || (a == 25 && b == 4)
    ensures (a * b * q) % b == 0
  {
    if b == 100 {
      assert 400 * q == 100 * (4 * q);
    } else {
      assert 100 * q == 4 * (25 * q);
    }
  }

  lemma FloorStep(y: int, k: int)
    requires k == 4 || k == 100 || k == 400
    ensures y / k == (y - 1) / k + if y % k == 0 then 1 else 0
  {
  }

  lemma YearLength(y: int)
    ensures YearStart(y + 1) == YearStart(y) + DaysBeforeMonth(y, 13)
  {
    LeapCounted(y);
    MonthStarts(y);
  }

  lemma MonthStarts(y: int)
    ensures var leap := if Leap(y) then 1 else 0;
            && DaysBeforeMonth(y, 1) == 0 && DaysBeforeMonth(y, 2) == 31 && DaysBeforeMonth(y, 3) == 59 + leap
            && DaysBeforeMonth(y, 4) == 90 + leap && DaysBeforeMonth(y, 5) == 120 + leap && DaysBeforeMonth(y, 6) == 151 + leap
            && DaysBeforeMonth(y, 7) == 181 + leap && DaysBeforeMonth(y, 8) == 212 + leap && DaysBeforeMonth(y, 9) == 243 + leap
            && DaysBeforeMonth(y, 10) == 273 + leap && DaysBeforeMonth(y, 11) == 304 + leap && DaysBeforeMonth(y, 12) == 334 + leap
            && DaysBeforeMonth(y, 13) == 365 + leap
  {
    assert DaysBeforeMonth(y, 3) == 59 + if Leap(y) then 1 else 0;
    assert DaysBeforeMonth(y, 5) == DaysBeforeMonth(y, 3) + 61;
    assert DaysBeforeMonth(y, 7) == DaysBeforeMonth(y, 5) + 61;
    assert DaysBeforeMonth(y, 9) == DaysBeforeMonth(y, 7) + 62;
    assert DaysBeforeMonth(y, 11) == DaysBeforeMonth(y, 9) + 61;
    assert DaysBeforeMonth(y, 13) == DaysBeforeMonth(y, 11) + 61;
  }

  /** The day count is the calendar's: day 0 is 1 January 1970 and the day after each date counts one more. */
  lemma DayNumberCounts(d: Date)
    requires ValidDate(d)
    ensures ValidDate(NextDay(d)) && DayNumber(NextDay(d)) == DayNumber(d) + 1
    ensures ValidDate(Date(1970, 1, 1)) && DayNumber(Date(1970, 1, 1)) == 0
  {
    if d.day == DaysInMonth(d.year, d.month) && d.month == 12 {
      YearLength(d.year);
      assert DaysBeforeMonth(d.year, 13) == DaysBeforeMonth(d.year, 12) + 31;
    }
  }

  lemma {:induction false} MonthsGrow(y: int, m: int, n: int)
    requires 1 <= m <= n <= 13
    ensures DaysBeforeMonth(y, m) <= DaysBeforeMonth(y, n)
    ensures m < n ==> DaysBeforeMonth(y, m) + DaysInMonth(y, m) <= DaysBeforeMonth(y, n)
    decreases n
  {
    if m < n {
      MonthsGrow(y, m, n - 1);
    }
  }

  lemma {:induction false} YearsGrow(y: int, z: int)
    requires y <= z
    ensures YearStart(y) <= YearStart(z)
    decreases z - y
  {
    if y < z {
      YearsGrow(y, z - 1);
      YearLength(z - 1);
      MonthsGrow(z - 1, 1, 13);
    }
  }

  lemma DayWithinYear(d: Date)
    requires ValidDate(d)
    ensures YearStart(d.year) <= DayNumber(d) < YearStart(d.year + 1)
  {
    MonthsGrow(d.year, 1, d.month);
    MonthsGrow(d.year, d.month, 13);
    YearLength(d.year);
  }

  /** Later dates have larger day counts, so no two dates share one. */
  lemma DayNumberOrders(a: Date, b: Date)
    requires ValidDate(a) && ValidDate(b)
    ensures Earlier(a, b) <==> DayNumber(a) < DayNumber(b)
    ensures a == b <==> DayNumber(a) == DayNumber(b)
  {
    if Earlier(a, b) {
      EarlierCountsLess(a, b);
    } else if Earlier(b, a) {
      EarlierCountsLess(b, a);
    } else {
      assert a == b;
    }
  }

  lemma EarlierCountsLess(a: Date, b: Date)
    requires ValidDate(a) && ValidDate(b) && Earlier(a, b)
    ensures DayNumber(a) < DayNumber(b)
  {
    if a.year < b.year {
      DayWithinYear(a);
      DayWithinYear(b);
      YearsGrow(a.year + 1, b.year);
    } else if a.month < b.month {
      MonthsGrow(a.year, a.month, b.month);
    }
  }

  // ---------------------------------------------------------------- the conversions

  /** Division as the hardware does it, dropping the fraction. */
  function Truncated(a: int, b: int): int
    requires b > 0
  {
    if a >= 0 then a / b else -(-a / b)
  }

  // All three spell out the same formulas within an era and differ in how they find the era and assemble the date.

  function YearOfEra(doe: int): int {
    Truncated(doe - Truncated(doe, 1460) + Truncated(doe, 36524) - Truncated(doe, 146096), 365)
  }

  function DayOfYear(doe: int): int {
    doe - (365 * YearOfEra(doe) + Truncated(YearOfEra(doe), 4) - Truncated(YearOfEra(doe), 100))
  }

  function MonthPosition(doe: int): int {
    Truncated(5 * DayOfYear(doe) + 2, 153)
  }

  function DayOfMonth(doe: int): int {
    DayOfYear(doe) - Truncated(153 * MonthPosition(doe) + 2, 5) + 1
  }

  /** The capability registry's conversion, which divides by truncation. */
  function CivilFromDaysTruncating(days: int): Date {
    var z := days + 719468;
    var era := Truncated(if z >= 0 then z else z - 146096, 146097);
    RegistryDate(era, z - era * 146097)
  }

  function RegistryDate(era: int, doe: int): Date {
    var m := MonthPosition(doe) + if MonthPosition(doe) < 10 then 3 else -9;
    Date(YearOfEra(doe) + era * 400 + (if m <= 2 then 1 else 0), m, DayOfMonth(doe))
  }

  /** The evidence writer's conversion, which floors to find the era and takes the remainder. */
  function CivilFromDaysFlooring(days: int): Date {
    var z := days + 719468;
    EvidenceDate(z / 146097, z % 146097)
  }

  function EvidenceDate(era: int, doe: int): Date {
    var m := if MonthPosition(doe) < 10 then MonthPosition(doe) + 3 else MonthPosition(doe) - 9;
    var y := YearOfEra(doe) + era * 400;
    Date(if m <= 2 then y + 1 else y, m, DayOfMonth(doe))
  }

  /** The run stamp's conversion, of seconds since the epoch. */
  function CivilFromSeconds(seconds: nat): Date {
    var shifted := seconds / 86400 + 719468;
    StampDate(shifted / 146097, shifted % 146097)
  }

  function StampDate(era: int, dayOfEra: int): Date {
    var month := if MonthPosition(dayOfEra) < 10 then MonthPosition(dayOfEra) + 3 else MonthPosition(dayOfEra) - 9;
    Date(YearOfEra(dayOfEra) + era * 400 + (if month <= 2 then 1 else 0), month, DayOfMonth(dayOfEra))
  }

  // ---------------------------------------------------------------- a day within its 400-year era

  /** Days of an era before its year y, years starting in March. */
  function EraYearStart(y: int): int {
    365 * y + y / 4 - y / 100
  }

  /** Years of an era that end in a 29 February. */
  predicate LongEraYear(y: int) {
    y % 4 == 3 && (y % 100 != 99 || y == 399)
  }

  predicate EraDay(y: int, doy: int) {
    0 <= y < 400 && 0 <= doy < (if LongEraYear(y) then 366 else 365)
  }

  /** Every day of an era belongs to one of its years. */
  lemma EraDayExists(doe: int) returns (y: int, doy: int)
    requires 0 <= doe < 146097
    ensures EraDay(y, doy) && EraYearStart(y) + doy == doe
  {
    var century := if doe / 36524 == 4 then 3 else doe / 36524;
    var rest := doe - 36524 * century;
    var four := if rest / 1461 == 25 then 24 else rest / 1461;
    var last := rest - 1461 * four;
    var single := if last / 365 == 4 then 3 else last / 365;
    y, doy := 100 * century + 4 * four + single, last - 365 * single;
    EraYearParts(century, four, single);
  }

  lemma EraYearParts(century: int, four: int, single: int)
    requires 0 <= century < 4 && 0 <= four < 25 && 0 <= single < 4
    ensures var y := 100 * century + 4 * four + single;
            && 0 <= y < 400 && y / 4 == 25 * century + four && y / 100 == century
            && (LongEraYear(y) <==> single == 3 && (four != 24 || century == 3))
  {
  }

  /** The formulas recover year and day of year of every day of the era. */
  lemma YearOfEraExact(y: int, doy: int)
    requires EraDay(y, doy)
    ensures var doe := EraYearStart(y) + doy;
            0 <= doe < 146097 && YearOfEra(doe) == y && DayOfYear(doe) == doy
  {
    var a, b, s := y / 4, y / 100, y % 4;
    var t := a - 25 * b;
    EraYearParts(b, t, s);
    var doe := EraYearStart(y) + doy;
    assert doe == 1461 * a + 365 * s - b + doy;
    CenturyQuotient(b, t, s, doy);
    FourYearQuotient(a, b, s, doy);
  }

  lemma CenturyQuotient(b: int, t: int, s: int, doy: int)
    requires 0 <= b < 4 && 0 <= t < 25 && 0 <= s < 4
    requires 0 <= doy < if s == 3 && (t != 24 || b == 3) then 366 else 365
    ensures var doe := 36524 * b + 1461 * t + 365 * s + doy;
            0 <= doe < 146097 && doe / 36524 - doe / 146096 == b
  {
  }

  lemma FourYearQuotient(a: int, b: int, s: int, doy: int)
    requires 0 <= a < 100 && 0 <= b < 4 && b <= a && 0 <= s < 4 && 0 <= doy < (if s == 3 then 366 else 365) && 25 * b <= a
    ensures var doe := 1461 * a + 365 * s - b + doy;
            0 <= doy - (doe / 1460 - a) < 365
  {
    var doe := 1461 * a + 365 * s - b + doy;
    var inner := a + 365 * s - b + doy;
    assert doe == 1460 * a + inner && 0 <= inner < 2920;
    assert doe / 1460 == if inner < 1460 then a else a + 1;
  }

  /** The month-position formula recovers month and day of every day of a March-based year. */
  lemma MonthPositionExact(doy: int)
    requires 0 <= doy < 366
    ensures var mp := (5 * doy + 2) / 153;
            && 0 <= mp < 12 && doy >= (153 * mp + 2) / 5
            && doy - (153 * mp + 2) / 5 < (if mp == 11 then 29 else if mp == 1 || mp == 3 || mp == 6 || mp == 8 then 30 else 31)
  {
  }

  // ---------------------------------------------------------------- what the conversions return

  /** The days of the era before the one a shifted day count falls in, and the day within it. */
  lemma EraSplit(z: int)
    ensures Truncated(if z >= 0 then z else z - 146096, 146097) == z / 146097
    ensures z - (z / 146097) * 146097 == z % 146097 && 0 <= z % 146097 < 146097
  {
  }

  lemma AssembliesAgree(era: int, doe: int)
    ensures RegistryDate(era, doe) == EvidenceDate(era, doe) == StampDate(era, doe)
  {
  }

  /** Flooring and truncating give the same date for every day, before and after the epoch. */
  lemma ConversionsAgree(days: int)
    ensures CivilFromDaysTruncating(days) == CivilFromDaysFlooring(days)
  {
    var z := days + 719468;
    EraSplit(z);
    AssembliesAgree(z / 146097, z % 146097);
  }

  lemma StampAgrees(seconds: nat)
    ensures CivilFromSeconds(seconds) == CivilFromDaysFlooring(seconds / 86400)
  {
    AssembliesAgree((seconds / 86400 + 719468) / 146097, (seconds / 86400 + 719468) % 146097);
  }

  /** The date at a day of an era's March-based year. */
  function EraDate(era: int, y: int, doy: int): Date {
    var mp := (5 * doy + 2) / 153;
    var m := if mp < 10 then mp + 3 else mp - 9;
    Date(400 * era + y + (if m <= 2 then 1 else 0), m, doy - (153 * mp + 2) / 5 + 1)
  }

  lemma AssemblyIsEraDate(era: int, y: int, doy: int)
    requires EraDay(y, doy)
    ensures EvidenceDate(era, EraYearStart(y) + doy) == EraDate(era, y, doy)
  {
    YearOfEraExact(y, doy);
    MonthPositionExact(doy);
  }

  lemma ConversionFindsEraDay(days: int) returns (era: int, y: int, doy: int)
    ensures EraDay(y, doy) && days + 719468 == 146097 * era + EraYearStart(y) + doy
    ensures CivilFromDaysFlooring(days) == EraDate(era, y, doy)
  {
    var doe;
    era, doe := FlooringParts(days);
    hide CivilFromDaysFlooring, EvidenceDate, EraDate, EraYearStart, EraDay;
    y, doy := EraDayExists(doe);
    AssemblyIsEraDate(era, y, doy);
  }

  lemma FlooringParts(days: int) returns (era: int, doe: int)
    ensures days + 719468 == 146097 * era + doe && 0 <= doe < 146097
    ensures CivilFromDaysFlooring(days) == EvidenceDate(era, doe)
  {
    hide EvidenceDate;
    var z := days + 719468;
    EraSplit(z);
    era, doe := z / 146097, z % 146097;
  }

  /** Leap days counted through a March-based year, from the era's own count. */
  lemma EraLeaps(era: int, y: int)
    requires 0 <= y < 400
    ensures LeapsThrough(400 * era + y) == 97 * era + y / 4 - y / 100
    ensures LongEraYear(y) <==> Leap(400 * era + y + 1)
  {
    var g := 400 * era + y;
    assert g / 4 == 100 * era + y / 4 && g / 100 == 4 * era + y / 100 && g / 400 == era;
    EraLeapYear(era, y + 1);
    EraYearParts(y / 100, (y % 100) / 4, y % 4);
  }

  lemma EraLeapYear(era: int, x: int)
    requires 0 <= x <= 400
    ensures Leap(400 * era + x) <==> (x % 4 == 0 && (x % 100 != 0 || x % 400 == 0))
  {
    Shift4(era, x);
    Shift100(era, x);
    Shift400(era, x);
  }

  lemma Shift4(era: int, x: int)
    requires 0 <= x
    ensures (400 * era + x) % 4 == x % 4
  {
    assert 400 * era + x == 4 * (100 * era + x / 4) + x % 4;
  }

  lemma Shift100(era: int, x: int)
    requires 0 <= x
    ensures (400 * era + x) % 100 == x % 100
  {
    assert 400 * era + x == 100 * (4 * era + x / 100) + x % 100;
  }

  lemma Shift400(era: int, x: int)
    requires 0 <= x
    ensures (400 * era + x) % 400 == x % 400
  {
    assert 400 * era + x == 400 * (era + x / 400) + x % 400;
  }

  lemma EraDateCounts(era: int, y: int, doy: int)
    requires EraDay(y, doy)
    ensures var d := EraDate(era, y, doy);
            ValidDate(d) && DayNumber(d) == 146097 * era + EraYearStart(y) + doy - 719468
  {
    var d, g := EraDate(era, y, doy), 400 * era + y;
    var mp := (5 * doy + 2) / 153;
    MonthPositionExact(doy);
    EraLeaps(era, y);
    MarchBased(d.year, mp);
    LeapCounted(g);
    hide Leap, DaysBeforeMonth, LeapsThrough;
    assert LeapsThrough(1969) == 477 by {
      EraLeaps(4, 369);
    }
  }

  /** Where the months of a March-based year start in a civil one. */
  lemma MarchBased(year: int, mp: int)
    requires 0 <= mp < 12
    ensures mp < 10 ==> DaysBeforeMonth(year, mp + 3) == (153 * mp + 2) / 5 + 59 + if Leap(year) then 1 else 0
    ensures mp >= 10 ==> DaysBeforeMonth(year, mp - 9) == (153 * mp + 2) / 5 - 306
  {
    MonthStarts(year);
    hide Leap, DaysBeforeMonth;
  }

  /** Each conversion returns the one valid date whose day count is the input. */
  lemma ConversionExact(days: int)
    ensures ValidDate(CivilFromDaysFlooring(days)) && DayNumber(CivilFromDaysFlooring(days)) == days
    ensures ValidDate(CivilFromDaysTruncating(days)) && DayNumber(CivilFromDaysTruncating(days)) == days
    ensures forall d :: ValidDate(d) && DayNumber(d) == days ==> d == CivilFromDaysFlooring(days)
  {
    var era, y, doy := ConversionFindsEraDay(days);
    EraDateCounts(era, y, doy);
    ConversionsAgree(days);
    forall d | ValidDate(d) && DayNumber(d) == days
      ensures d == CivilFromDaysFlooring(days)
    {
      DayNumberOrders(d, CivilFromDaysFlooring(days));
    }
  }

  /** Going back is exact too: converting the day count of any valid date gives that date. */
  lemma ConversionRoundTrip(d: Date)
    requires ValidDate(d)
    ensures CivilFromDaysFlooring(DayNumber(d)) == d && CivilFromDaysTruncating(DayNumber(d)) == d
  {
    ConversionExact(DayNumber(d));
    ConversionsAgree(DayNumber(d));
  }

  lemma LaterDaysLaterDates(a: int, b: int)
    requires a < b
    ensures Earlier(CivilFromDaysFlooring(a), CivilFromDaysFlooring(b))
  {
    ConversionExact(a);
    ConversionExact(b);
    DayNumberOrders(CivilFromDaysFlooring(a), CivilFromDaysFlooring(b));
  }
}

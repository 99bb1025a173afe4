/** The Gregorian date arithmetic of the request signer: civil_from_days and unix_utc_components in
    crates/globacl-commitd/src/app/object_store.rs, against the calendar itself. */
module Calendar {

  datatype Date = Date(year: int, month: int, day: int)

  // ---------- the proleptic Gregorian calendar ----------

  predicate IsLeap(y: int) {
    y % 4 == 0 && (y % 100 != 0 || y % 400 == 0)
  }

  function DaysInMonth(y: int, m: int): int {
    if m == 2 then (if IsLeap(y) then 29 else 28)
    else if m == 4 || m == 6 || m == 9 || m == 11 then 30
    else 31
  }

  predicate ValidDate(d: Date) {
    1 <= d.month <= 12 && 1 <= d.day <= DaysInMonth(d.year, d.month)
  }

  function NextDate(d: Date): Date {
    if d.day < DaysInMonth(d.year, d.month) then Date(d.year, d.month, d.day + 1)
    else if d.month < 12 then Date(d.year, d.month + 1, 1)
    else Date(d.year + 1, 1, 1)
  }

  // days from the first day of year 1 to the first day of year y
  function DaysBeforeYear(y: int): int {
    365 * (y - 1) + (y - 1) / 4 - (y - 1) / 100 + (y - 1) / 400
  }

  function DaysBeforeMonth(y: int, m: int): int
    decreases m
  {
    if m <= 1 then 0 else DaysBeforeMonth(y, m - 1) + DaysInMonth(y, m - 1)
  }

  // days since 1 January 1970
  function DayNumber(d: Date): int {
    DaysBeforeYear(d.year) + DaysBeforeMonth(d.year, d.month) + d.day - 1 - DaysBeforeYear(1970)
  }

  // ---------- the source's arithmetic ----------

  // Rust's division truncates toward zero
  function TruncDiv(a: int, b: int): int
    requires b > 0
  {
    if a >= 0 then a / b else -((-a) / b)
  }

  // the year of the era, from the day of the era; both run from 1 March
  function YearOfEra(doe: int): int {
    (doe - doe / 1460 + doe / 36_524 - doe / 146_096) / 365
  }

  // civil_from_days, from the day of the era on
  function CivilInEra(era: int, doe: int): Date {
    var yoe := YearOfEra(doe);
    var y := yoe + era * 400;
    var doy := doe - (365 * yoe + yoe / 4 - yoe / 100);
    var mp := (5 * doy + 2) / 153;
    var d := doy - (153 * mp + 2) / 5 + 1;
    var m := mp + if mp < 10 then 3 else -9;
    Date(y + if m <= 2 then 1 else 0, m, d)
  }

  // civil_from_days, before its casts
  function CivilFromDays(days: int): Date {
    var z := days + 719_468;
    var era := TruncDiv(if z >= 0 then z else z - 146_096, 146_097);
    CivilInEra(era, z - era * 146_097)
  }

  // the final `as i32` wraps
  function WrapI32(v: int): int {
    var w := v % 0x1_0000_0000;
    if w < 0x8000_0000 then w else w - 0x1_0000_0000
  }

  // ---------- the era ----------

  /** The truncating division is a floor. */
  lemma EraIsFloor(z: int)
    ensures TruncDiv(if z >= 0 then z else z - 146_096, 146_097) == z / 146_097
    ensures 0 <= z - z / 146_097 * 146_097 < 146_097
  {
  }

  // days from the start of an era to the start of its year y
  function YearStart(y: int): int {
    365 * y + y / 4 - y / 100
  }

  // what the years of an era are: the last has the leap day of the 400-year rule
  function YearLength(y: int): int {
    if y % 4 == 3 && (y % 100 != 99 || y == 399) then 366 else 365
  }

  lemma YearStartStep(y: int)
    requires 0 <= y < 400
    ensures YearStart(y) + YearLength(y) == (if y == 399 then 146_097 else YearStart(y + 1))
  {
  }

  // every day of an era lies in one of its years
  lemma {:induction false} YearExists(doe: int, n: nat) returns (y: int)
    requires n <= 400 && 0 <= doe < (if n == 400 then 146_097 else YearStart(n))
    ensures 0 <= y < n && 0 <= doe - YearStart(y) < YearLength(y)
  {
    assert n > 0;
    YearStartStep(n - 1);
    if doe >= YearStart(n - 1) {
      y := n - 1;
    } else {
      y := YearExists(doe, n - 1);
    }
  }

  // the century and the last day of the era
  lemma Centuries(y: int, doy: int)
    requires 0 <= y < 400 && 0 <= doy < YearLength(y)
    ensures var doe := YearStart(y) + doy; doe / 36_524 - doe / 146_096 == y / 100
  {
    var h := y / 100;
    var doe := YearStart(y) + doy;
    var j := y - 100 * h;
    assert 0 <= j < 100 && y / 4 == 25 * h + j / 4;
    assert doe == 36_524 * h + (365 * j + j / 4 + doy);
    if y == 399 && doy == 365 {
      assert doe == 146_096;
    } else {
      assert 365 * j + j / 4 + doy < 36_524;
    }
  }

  /** The closed form finds the year of the era. */
  lemma YearOfEraIsYear(y: int, doy: int)
    requires 0 <= y < 400 && 0 <= doy < YearLength(y)
    ensures YearOfEra(YearStart(y) + doy) == y
  {
    Centuries(y, doy);
    var doe := YearStart(y) + doy;
    var k, j, h := y / 4, y % 4, y / 100;
    var t := 365 * j + k - h + doy;
    assert doe == 1460 * k + t;
    assert 0 <= k - h <= 96;
    assert doe - doe / 1460 + doe / 36_524 - doe / 146_096 == 365 * y + (k + doy - doe / 1460);
    if t < 1460 {
      assert doe / 1460 == k;
      assert 0 <= doy <= 364;
    } else {
      assert j == 3;
      assert doe / 1460 == k + 1;
      assert 1 <= doy <= 365;
    }
  }

  // ---------- the month ----------

  // the day of a year that runs from 1 March, as a month and a day
  lemma MonthOfYear(doy: int)
    requires 0 <= doy <= 365
    ensures var mp := (5 * doy + 2) / 153; var d := doy - (153 * mp + 2) / 5 + 1;
      && 0 <= mp <= 11 && 1 <= d <= 31
      && (mp == 1 || mp == 3 || mp == 6 || mp == 8 ==> d <= 30)
      && (mp == 11 ==> d == doy - 336)
  {
  }

  // days from 1 March to the first of the month mp months later
  lemma MonthOffsets(y: int)
    ensures var b := DaysBeforeMonth(y, 3);
      && b == 59 + (if IsLeap(y) then 1 else 0)
      && DaysBeforeMonth(y, 1) == 0 && DaysBeforeMonth(y, 2) == 31
      && DaysBeforeMonth(y, 4) == b + 31 && DaysBeforeMonth(y, 5) == b + 61 && DaysBeforeMonth(y, 6) == b + 92
      && DaysBeforeMonth(y, 7) == b + 122 && DaysBeforeMonth(y, 8) == b + 153 && DaysBeforeMonth(y, 9) == b + 184
      && DaysBeforeMonth(y, 10) == b + 214 && DaysBeforeMonth(y, 11) == b + 245 && DaysBeforeMonth(y, 12) == b + 275
      && DaysBeforeMonth(y, 13) == b + 306
  {
    assert DaysBeforeMonth(y, 2) == 31;
    assert DaysBeforeMonth(y, 4) == DaysBeforeMonth(y, 3) + 31;
    assert DaysBeforeMonth(y, 6) == DaysBeforeMonth(y, 5) + 31;
    assert DaysBeforeMonth(y, 8) == DaysBeforeMonth(y, 7) + 31;
    assert DaysBeforeMonth(y, 10) == DaysBeforeMonth(y, 9) + 30;
    assert DaysBeforeMonth(y, 12) == DaysBeforeMonth(y, 11) + 30;
  }

  // a quotient steps at the multiples
  lemma QuotientStep(y: int, n: int)
    requires n == 4 || n == 100 || n == 400
    ensures y / n == (y - 1) / n + if y % n == 0 then 1 else 0
  {
  }

  // a year has the days of its months
  lemma YearStep(y: int)
    ensures DaysBeforeYear(y + 1) == DaysBeforeYear(y) + DaysBeforeMonth(y, 13)
  {
    MonthOffsets(y);
    QuotientStep(y, 4);
    QuotientStep(y, 100);
    QuotientStep(y, 400);
    LeapCount(y);
    hide DaysBeforeMonth, IsLeap;
  }

  // leap years by inclusion and exclusion
  lemma LeapCount(y: int)
    ensures (if IsLeap(y) then 1 else 0) ==
      (if y % 4 == 0 then 1 else 0) - (if y % 100 == 0 then 1 else 0) + (if y % 400 == 0 then 1 else 0)
  {
    if y % 400 == 0 {
      assert y == 4 * (100 * (y / 400)) && y == 100 * (4 * (y / 400));
    } else if y % 100 == 0 {
      assert y == 4 * (25 * (y / 100));
    }
  }

  // the first of March of year y, in days from 1 March of year 0 and from the calendar
  lemma MarchStart(era: int, yoe: int)
    requires 0 <= yoe < 400
    ensures var y := yoe + era * 400;
      DaysBeforeYear(y) + DaysBeforeMonth(y, 3) == 146_097 * era + YearStart(yoe) - 306
  {
    var y := yoe + era * 400;
    MonthOffsets(y);
    assert y / 4 == 100 * era + yoe / 4;
    assert y / 100 == 4 * era + yoe / 100;
    assert y / 400 == era;
    assert (y - 1) / 4 == y / 4 - if y % 4 == 0 then 1 else 0;
    assert (y - 1) / 100 == y / 100 - if y % 100 == 0 then 1 else 0;
    assert (y - 1) / 400 == y / 400 - if y % 400 == 0 then 1 else 0;
  }

  // the date of a day of a March year
  function MarchDate(y: int, doy: int): Date {
    var mp := (5 * doy + 2) / 153;
    var m := mp + if mp < 10 then 3 else -9;
    Date(y + if m <= 2 then 1 else 0, m, doy - (153 * mp + 2) / 5 + 1)
  }

  // the last day of a March year exists when the year after it is leap
  lemma LastDayIsLeap(era: int, yoe: int)
    requires 0 <= yoe < 400
    ensures YearLength(yoe) == 366 <==> IsLeap(yoe + era * 400 + 1)
  {
    EraShift4(yoe + 1, era);
    EraShift100(yoe + 1, era);
    EraShift400(yoe + 1, era);
    assert yoe + era * 400 + 1 == yoe + 1 + 400 * era;
  }

  lemma EraShift4(y: int, era: int)
    ensures (y + 400 * era) % 4 == y % 4
  {
    assert (y + 400 * era) == 4 * (100 * era + y / 4) + y % 4;
  }

  lemma EraShift100(y: int, era: int)
    ensures (y + 400 * era) % 100 == y % 100
  {
    assert (y + 400 * era) == 100 * (4 * era + y / 100) + y % 100;
  }

  lemma EraShift400(y: int, era: int)
    ensures (y + 400 * era) % 400 == y % 400
  {
    assert (y + 400 * era) == 400 * (era + y / 400) + y % 400;
  }

  // the months of a March year: which they are, how long, and how far from 1 March
  lemma MarchMonth(y: int, doy: int)
    requires 0 <= doy <= 365
    ensures var date := MarchDate(y, doy);
      && 1 <= date.month <= 12
      && (date.month <= 2 <==> date.year == y + 1) && (date.month >= 3 <==> date.year == y)
      && doy == date.day - 1 + (if date.month >= 3 then DaysBeforeMonth(y, date.month) - DaysBeforeMonth(y, 3)
                                else 306 + DaysBeforeMonth(y + 1, date.month))
      && 1 <= date.day <= 31
      && (date.month == 4 || date.month == 6 || date.month == 9 || date.month == 11 ==> date.day <= 30)
      && (date.month == 2 ==> date.day == doy - 336)
  {
    MonthOfYear(doy);
    MonthOffsets(y);
    MonthOffsets(y + 1);
    var mp := (5 * doy + 2) / 153;
    hide DaysBeforeMonth, IsLeap;
    assert mp == 0 || mp == 1 || mp == 2 || mp == 3 || mp == 4 || mp == 5 || mp == 6 || mp == 7 || mp == 8
        || mp == 9 || mp == 10 || mp == 11;
  }

  lemma MarchDateIs(era: int, yoe: int, doy: int)
    requires 0 <= yoe < 400 && 0 <= doy < YearLength(yoe)
    ensures var y := yoe + era * 400;
      && ValidDate(MarchDate(y, doy))
      && DayNumber(MarchDate(y, doy)) == 146_097 * era + YearStart(yoe) + doy - 719_468
  {
    var y := yoe + era * 400;
    MarchMonth(y, doy);
    MonthOffsets(y);
    MarchStart(era, yoe);
    YearStep(y);
    LastDayIsLeap(era, yoe);
    assert DaysBeforeYear(1970) == 719_162;
    assert YearLength(yoe) <= 366;
    hide DaysBeforeYear, DaysBeforeMonth, IsLeap, YearStart, YearLength, MarchDate;
  }

  // the source's arithmetic, on a day given by its year and its day of the year
  lemma CivilIsMarch(era: int, yoe: int, doy: int)
    requires 0 <= yoe < 400 && 0 <= doy < YearLength(yoe)
    ensures CivilInEra(era, YearStart(yoe) + doy) == MarchDate(yoe + era * 400, doy)
  {
    YearOfEraIsYear(yoe, doy);
    hide YearOfEra, YearLength;
  }

  // the floor of the division, and its remainder
  lemma CivilByEra(days: int)
    ensures var z := days + 719_468;
      CivilFromDays(days) == CivilInEra(z / 146_097, z % 146_097) && 0 <= z % 146_097 < 146_097
  {
    EraIsFloor(days + 719_468);
    hide CivilInEra, TruncDiv;
  }

  /** For every day count, civil_from_days gives a valid date, and the number of that date is the day
      count. */
  lemma CivilIsCorrect(days: int)
    ensures ValidDate(CivilFromDays(days)) && DayNumber(CivilFromDays(days)) == days
  {
    hide CivilFromDays, CivilInEra, MarchDate, ValidDate, DayNumber, YearStart, YearLength;
    CivilByEra(days);
    var z := days + 719_468;
    var era, doe := z / 146_097, z % 146_097;
    var yoe := YearExists(doe, 400);
    CivilIsMarch(era, yoe, doe - YearStart(yoe));
    MarchDateIs(era, yoe, doe - YearStart(yoe));
    assert z == 146_097 * era + doe;
  }

  // ---------- consecutive days ----------

  lemma NextDateValid(d: Date)
    requires ValidDate(d)
    ensures ValidDate(NextDate(d)) && DayNumber(NextDate(d)) == DayNumber(d) + 1
  {
    YearStep(d.year);
    hide DaysBeforeYear, IsLeap;
    assert DaysBeforeMonth(d.year, d.month + 1) == DaysBeforeMonth(d.year, d.month) + DaysInMonth(d.year, d.month);
  }

  lemma {:induction false} MonthsGrow(y: int, m: int, n: int)
    requires 1 <= m < n <= 13
    ensures DaysBeforeMonth(y, m) + DaysInMonth(y, m) <= DaysBeforeMonth(y, n)
    decreases n
  {
    if m < n - 1 {
      MonthsGrow(y, m, n - 1);
    }
  }

  lemma {:induction false} YearsGrow(y: int, x: int)
    requires y < x
    ensures DaysBeforeYear(y) + DaysBeforeMonth(y, 13) <= DaysBeforeYear(x)
    decreases x - y
  {
    YearStep(y);
    if y + 1 < x {
      YearsGrow(y + 1, x);
      MonthOffsets(y + 1);
    }
  }

  predicate Earlier(a: Date, b: Date) {
    || a.year < b.year
    || (a.year == b.year && (a.month < b.month || (a.month == b.month && a.day < b.day)))
  }

  lemma EarlierIsLess(a: Date, b: Date)
    requires ValidDate(a) && ValidDate(b) && Earlier(a, b)
    ensures DayNumber(a) < DayNumber(b)
  {
    if a.year < b.year {
      YearsGrow(a.year, b.year);
      MonthsGrow(a.year, a.month, 13);
      MonthsFromZero(b.year, b.month);
    } else if a.month < b.month {
      MonthsGrow(a.year, a.month, b.month);
    }
    hide DaysBeforeYear, DaysBeforeMonth, IsLeap;
  }

  lemma {:induction false} MonthsFromZero(y: int, m: int)
    ensures DaysBeforeMonth(y, m) >= 0
    decreases m
  {
    if m > 1 {
      MonthsFromZero(y, m - 1);
    }
  }

  /** A valid date is the only one with its day number. */
  lemma DayNumberInjective(a: Date, b: Date)
    requires ValidDate(a) && ValidDate(b) && DayNumber(a) == DayNumber(b)
    ensures a == b
  {
    hide ValidDate, DayNumber;
    if Earlier(a, b) {
      EarlierIsLess(a, b);
    } else if Earlier(b, a) {
      EarlierIsLess(b, a);
    }
  }

  lemma EpochIsDayZero()
    ensures ValidDate(Date(1970, 1, 1)) && DayNumber(Date(1970, 1, 1)) == 0
  {
  }

  /** Consecutive day counts give consecutive calendar dates, across every month, leap year, century
      and 400-year boundary; day 0 is 1 January 1970. */
  lemma CivilFollowsCalendar(days: int)
    ensures CivilFromDays(days + 1) == NextDate(CivilFromDays(days))
    ensures CivilFromDays(0) == Date(1970, 1, 1)
  {
    hide CivilFromDays, DayNumber, NextDate, ValidDate;
    CivilIsCorrect(days);
    CivilIsCorrect(days + 1);
    CivilIsCorrect(0);
    NextDateValid(CivilFromDays(days));
    EpochIsDayZero();
    DayNumberInjective(CivilFromDays(days + 1), NextDate(CivilFromDays(days)));
    DayNumberInjective(CivilFromDays(0), Date(1970, 1, 1));
  }

  /** The cast of the year keeps it exactly in the years that an i32 holds. */
  lemma YearCastIff(v: int)
    ensures WrapI32(v) == v <==> -0x8000_0000 <= v < 0x8000_0000
  {
  }

  // ---------- the time of day ----------

  datatype Instant = Instant(date: Date, hour: int, minute: int, second: int)

  // unix_utc_components, before the casts
  function UtcComponents(seconds: int): Instant {
    var s := seconds % 86_400;
    Instant(CivilFromDays(seconds / 86_400), s / 3600, s % 3600 / 60, s % 60)
  }

  lemma TimeOfDay(s: int)
    requires 0 <= s < 86_400
    ensures 0 <= s / 3600 < 24 && 0 <= s % 3600 / 60 < 60 && 0 <= s % 60 < 60
    ensures s == 3600 * (s / 3600) + 60 * (s % 3600 / 60) + s % 60
  {
    var r := s % 3600;
    assert s == 60 * (60 * (s / 3600) + r / 60) + r % 60;
  }

  /** The components are in range and name the instant they came from. */
  lemma UtcComponentsBack(seconds: int)
    ensures var t := UtcComponents(seconds);
      && ValidDate(t.date) && 0 <= t.hour < 24 && 0 <= t.minute < 60 && 0 <= t.second < 60
      && seconds == 86_400 * DayNumber(t.date) + 3600 * t.hour + 60 * t.minute + t.second
  {
    hide CivilFromDays, DayNumber, ValidDate;
    CivilIsCorrect(seconds / 86_400);
    TimeOfDay(seconds % 86_400);
    assert seconds == 86_400 * (seconds / 86_400) + seconds % 86_400;
  }
}

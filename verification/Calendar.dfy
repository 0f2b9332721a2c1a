/** The proleptic Gregorian calendar as the engine computes it: dates to day numbers by summing
years and months (src/common/date_util.cpp), and day numbers back to year and month by
subtracting them (src/iceberg/partition_pruning.cpp). Day 0 is 1970-01-01. */
module Calendar {
  import opened Expressions

  predicate IsLeapYear(year: int)
  {
    (year % 4 == 0 && year % 100 != 0) || year % 400 == 0
  }

  function DaysInYear(year: int): int
  {
    if IsLeapYear(year) then 366 else 365
  }

  function DaysInMonth(year: int, month: int): (days: int)
    requires 1 <= month <= 12
    ensures 28 <= days <= 31
  {
    if month == 2 then (if IsLeapYear(year) then 29 else 28)
    else if month == 4 || month == 6 || month == 9 || month == 11 then 30
    else 31
  }

  /** The day number of January 1st of `year`. */
  function YearStart(year: int): int
    decreases if year >= 1970 then year - 1970 else 1970 - year
  {
    if year == 1970 then 0
    else if year > 1970 then YearStart(year - 1) + DaysInYear(year - 1)
    else YearStart(year + 1) - DaysInYear(year)
  }

  /** Days of `year` before the first of `month`; month 13 is the end of the year. */
  function MonthStart(year: int, month: int): int
    requires 1 <= month <= 13
  {
    if month == 1 then 0 else MonthStart(year, month - 1) + DaysInMonth(year, month - 1)
  }

  predicate ValidDate(year: int, month: int, day: int)
  {
    1 <= month <= 12 && 1 <= day <= DaysInMonth(year, month)
  }

  function DayNumber(year: int, month: int, day: int): int
    requires 1 <= month <= 12
  {
    YearStart(year) + MonthStart(year, month) + day - 1
  }

  // ---------------------------------------------------------------------------
  // The calendar is in order
  // ---------------------------------------------------------------------------

  lemma YearStep(year: int)
    ensures YearStart(year + 1) == YearStart(year) + DaysInYear(year)
  {
  }

  lemma {:induction false} MonthOrder(year: int, m: int, n: int)
    requires 1 <= m <= n <= 13
    ensures MonthStart(year, m) <= MonthStart(year, n)
    ensures m < n ==> MonthStart(year, m) + DaysInMonth(year, m) <= MonthStart(year, n)
    decreases n - m
  {
    if m < n {
      MonthOrder(year, m, n - 1);
    }
  }

  lemma MonthsMakeYear(year: int)
    ensures MonthStart(year, 13) == DaysInYear(year)
  {
    assert MonthStart(year, 2) == 31;
    assert MonthStart(year, 3) == 59 + (if IsLeapYear(year) then 1 else 0);
    assert MonthStart(year, 5) == MonthStart(year, 3) + 61;
    assert MonthStart(year, 7) == MonthStart(year, 5) + 61;
    assert MonthStart(year, 9) == MonthStart(year, 7) + 62;
    assert MonthStart(year, 11) == MonthStart(year, 9) + 61;
  }

  lemma {:induction false} YearOrder(a: int, b: int)
    requires a < b
    ensures YearStart(a) + DaysInYear(a) <= YearStart(b)
    decreases b - a
  {
    YearStep(a);
    if a + 1 < b {
      YearOrder(a + 1, b);
    }
  }

  // ---------------------------------------------------------------------------
  // The calendar in closed form
  // ---------------------------------------------------------------------------

  /** Leap years up to `year`: every fourth, but of the hundredth ones only every fourth. */
  function LeapYears(year: int): int
  {
    year / 4 - year / 100 + year / 400
  }

  /** Days before the first of each month in a year of 365 days. */
  const DAYS_BEFORE: seq<int> := [0, 31, 59, 90, 120, 151, 181, 212, 243, 273, 304, 334]

  lemma LeapYearCounted(year: int)
    ensures LeapYears(year) == LeapYears(year - 1) + (DaysInYear(year) - 365)
  {
    assert year / 4 == (year - 1) / 4 + if year % 4 == 0 then 1 else 0;
    assert year / 100 == (year - 1) / 100 + if year % 100 == 0 then 1 else 0;
    assert year / 400 == (year - 1) / 400 + if year % 400 == 0 then 1 else 0;
  }

  lemma {:induction false} YearStartClosed(year: int)
    ensures YearStart(year) == 365 * (year - 1970) + LeapYears(year - 1) - LeapYears(1969)
    decreases if year >= 1970 then year - 1970 else 1970 - year
  {
    if year > 1970 {
      YearStartClosed(year - 1);
      LeapYearCounted(year - 1);
    } else if year < 1970 {
      YearStartClosed(year + 1);
      LeapYearCounted(year);
    }
  }

  /** The day number of every date, counted from the years, the leap days and the table above. */
  lemma DayNumberClosed(year: int, month: int, day: int)
    requires 1 <= month <= 12
    ensures DayNumber(year, month, day)
         == 365 * (year - 1970) + LeapYears(year) - LeapYears(1969) + DAYS_BEFORE[month - 1] + day - 1
          - (if month <= 2 then LeapYears(year) - LeapYears(year - 1) else 0)
  {
    YearStartClosed(year);
    LeapYearCounted(year);
    var leap := DaysInYear(year) - 365;
    assert MonthStart(year, 2) == 31;
    assert MonthStart(year, 3) == 59 + leap;
    assert MonthStart(year, 4) == 90 + leap;
    assert MonthStart(year, 5) == 120 + leap;
    assert MonthStart(year, 6) == 151 + leap;
    assert MonthStart(year, 7) == 181 + leap;
    assert MonthStart(year, 8) == 212 + leap;
    assert MonthStart(year, 9) == 243 + leap;
    assert MonthStart(year, 10) == 273 + leap;
    assert MonthStart(year, 11) == 304 + leap;
    assert MonthStart(year, 12) == 334 + leap;
  }

  /** Four hundred years are a whole number of days, the same from any date. */
  lemma GregorianCycle(year: int, month: int, day: int)
    requires 1 <= month <= 12
    ensures DayNumber(year + 400, month, day) == DayNumber(year, month, day) + 146_097
  {
    hide DayNumber;
    DayNumberClosed(year, month, day);
    DayNumberClosed(year + 400, month, day);
    hide LeapYears;
    assert year + 400 - 1 == year - 1 + 400;
    CycleOfLeapYears(year);
    CycleOfLeapYears(year - 1);
  }

  lemma CycleOfLeapYears(year: int)
    ensures LeapYears(year + 400) == LeapYears(year) + 97
  {
    assert (year + 400) / 4 == year / 4 + 100;
    assert (year + 400) / 100 == year / 100 + 4;
    assert (year + 400) / 400 == year / 400 + 1;
  }

  /** `days` falls in that month. */
  predicate InMonth(year: int, month: int, days: int)
  {
    1 <= month <= 12 && DayNumber(year, month, 1) <= days < DayNumber(year, month, 1) + DaysInMonth(year, month)
  }

  predicate Before(y: int, m: int, y': int, m': int)
  {
    y < y' || (y == y' && m < m')
  }

  /** An earlier month ends before a later one starts. */
  lemma MonthsInOrder(y: int, m: int, y': int, m': int)
    requires 1 <= m <= 12 && 1 <= m' <= 12 && Before(y, m, y', m')
    ensures DayNumber(y, m, 1) + DaysInMonth(y, m) <= DayNumber(y', m', 1)
  {
    MonthOrder(y, m, if y == y' then m' else 13);
    if y < y' {
      MonthsMakeYear(y);
      YearOrder(y, y');
      MonthOrder(y', 1, m');
    }
  }

  /** Day numbers are strictly increasing in (year, month, day). */
  lemma DayNumberIncreasing(y: int, m: int, d: int, y': int, m': int, d': int)
    requires ValidDate(y, m, d) && ValidDate(y', m', d')
    requires Before(y, m, y', m') || (y == y' && m == m' && d < d')
    ensures DayNumber(y, m, d) < DayNumber(y', m', d')
  {
    if Before(y, m, y', m') {
      MonthsInOrder(y, m, y', m');
    }
  }

  lemma InMonthUnique(days: int, y: int, m: int, y': int, m': int)
    requires InMonth(y, m, days) && InMonth(y', m', days)
    ensures y == y' && m == m'
  {
    if Before(y, m, y', m') {
      MonthsInOrder(y, m, y', m');
    } else if Before(y', m', y, m) {
      MonthsInOrder(y', m', y, m);
    }
  }

  // ---------------------------------------------------------------------------
  // From day numbers to months
  // ---------------------------------------------------------------------------

  datatype CivilDate = CivilDate(year: int, month: int)

  /** `civil_from_days`: peel off whole years, then whole months. */
  method CivilFromDays(days: int) returns (civil: CivilDate)
    ensures InMonth(civil.year, civil.month, days)
  {
    var year, remaining := 1970, days;
    if remaining >= 0 {
      while remaining >= DaysInYear(year)
        invariant remaining >= 0 && YearStart(year) + remaining == days
        decreases remaining
      {
        YearStep(year);
        remaining := remaining - DaysInYear(year);
        year := year + 1;
      }
    } else {
      while remaining < 0
        invariant remaining < DaysInYear(year) && YearStart(year) + remaining == days
        decreases -remaining
      {
        YearStep(year - 1);
        year := year - 1;
        remaining := remaining + DaysInYear(year);
      }
    }
    MonthsMakeYear(year);
    var month := 1;
    while remaining >= DaysInMonth(year, month)
      invariant 1 <= month <= 12 && remaining >= 0
      invariant YearStart(year) + MonthStart(year, month) + remaining == days
      invariant MonthStart(year, month) + remaining < MonthStart(year, 13)
      decreases 13 - month
    {
      remaining := remaining - DaysInMonth(year, month);
      month := month + 1;
    }
    return CivilDate(year, month);
  }

  lemma {:induction false} SomeYear(days: int, year: int) returns (y: int)
    ensures YearStart(y) <= days < YearStart(y) + DaysInYear(y)
    decreases if days >= YearStart(year) then days - YearStart(year) else YearStart(year) - days
  {
    if days >= YearStart(year) + DaysInYear(year) {
      YearStep(year);
      y := SomeYear(days, year + 1);
    } else if days < YearStart(year) {
      YearStep(year - 1);
      if YearStart(year - 1) <= days {
        y := year - 1;
      } else {
        y := SomeYear(days, year - 1);
      }
    } else {
      y := year;
    }
  }

  lemma {:induction false} SomeMonth(days: int, y: int, m: int) returns (month: int)
    requires 1 <= m <= 12 && DayNumber(y, m, 1) <= days < YearStart(y) + DaysInYear(y)
    ensures InMonth(y, month, days)
    decreases 12 - m
  {
    MonthsMakeYear(y);
    if days < DayNumber(y, m, 1) + DaysInMonth(y, m) {
      month := m;
    } else {
      month := SomeMonth(days, y, m + 1);
    }
  }

  /** The year and month every day number falls in. */
  ghost function CivilOf(days: int): (civil: CivilDate)
    ensures InMonth(civil.year, civil.month, days)
  {
    SomeCivil(days);
    var civil: CivilDate :| InMonth(civil.year, civil.month, days);
    civil
  }

  lemma SomeCivil(days: int)
    ensures exists civil: CivilDate :: InMonth(civil.year, civil.month, days)
  {
    var y := SomeYear(days, 1970);
    var m := SomeMonth(days, y, 1);
    assert InMonth(CivilDate(y, m).year, CivilDate(y, m).month, days);
  }

  /** Going to a day number and back recovers year and month. */
  lemma CivilInverse(year: int, month: int, day: int)
    requires ValidDate(year, month, day)
    ensures CivilOf(DayNumber(year, month, day)) == CivilDate(year, month)
  {
    var days := DayNumber(year, month, day);
    InMonthUnique(days, year, month, CivilOf(days).year, CivilOf(days).month);
  }

  /** Months since January 1970. */
  ghost function MonthOrdinal(days: int): int
  {
    12 * (CivilOf(days).year - 1970) + CivilOf(days).month - 1
  }

  ghost function YearOrdinal(days: int): int
  {
    CivilOf(days).year - 1970
  }

  /** Later days are never in earlier months or years, on either side of 1970. */
  lemma OrdinalsMonotone(a: int, b: int)
    requires a <= b
    ensures MonthOrdinal(a) <= MonthOrdinal(b) && YearOrdinal(a) <= YearOrdinal(b)
  {
    var x, y := CivilOf(a), CivilOf(b);
    if Before(y.year, y.month, x.year, x.month) {
      MonthsInOrder(y.year, y.month, x.year, x.month);
    }
  }

  // ---------------------------------------------------------------------------
  // ISO dates
  // ---------------------------------------------------------------------------

  function DigitAt(text: string, i: nat): int
    requires i < |text|
  {
    text[i] as int - '0' as int
  }

  predicate IsDigitAt(text: string, i: nat)
    requires i < |text|
  {
    '0' <= text[i] <= '9'
  }

  /** Ten characters, YYYY-MM-DD. */
  predicate IsoShaped(text: string)
  {
    && |text| == 10 && text[4] == '-' && text[7] == '-'
    && IsDigitAt(text, 0) && IsDigitAt(text, 1) && IsDigitAt(text, 2) && IsDigitAt(text, 3)
    && IsDigitAt(text, 5) && IsDigitAt(text, 6) && IsDigitAt(text, 8) && IsDigitAt(text, 9)
  }

  function YearField(text: string): int
    requires |text| == 10
  {
    DigitAt(text, 0) * 1000 + DigitAt(text, 1) * 100 + DigitAt(text, 2) * 10 + DigitAt(text, 3)
  }

  function MonthField(text: string): int
    requires |text| == 10
  {
    DigitAt(text, 5) * 10 + DigitAt(text, 6)
  }

  function DayField(text: string): int
    requires |text| == 10
  {
    DigitAt(text, 8) * 10 + DigitAt(text, 9)
  }

  // Dates as they are written

  function DigitChar(d: int): char
    requires 0 <= d <= 9
  {
    "0123456789"[d]
  }

  function TwoDigits(n: int): string
    requires 0 <= n <= 99
  {
    [DigitChar(n / 10), DigitChar(n % 10)]
  }

  /** YYYY-MM-DD. */
  function IsoDate(year: int, month: int, day: int): string
    requires 0 <= year <= 9999 && ValidDate(year, month, day)
  {
    TwoDigits(year / 100) + TwoDigits(year % 100) + "-" + TwoDigits(month) + "-" + TwoDigits(day)
  }

  /** `text` is that date, written out. */
  ghost predicate Writes(text: string, year: int, month: int, day: int)
  {
    0 <= year <= 9999 && ValidDate(year, month, day) && text == IsoDate(year, month, day)
  }

  lemma DigitsRead(d: int)
    requires 0 <= d <= 9
    ensures '0' <= DigitChar(d) <= '9' && DigitChar(d) as int - '0' as int == d
  {
  }

  /** A written date has its fields where they are read. */
  lemma WrittenFields(text: string, year: int, month: int, day: int)
    requires Writes(text, year, month, day)
    ensures IsoShaped(text) && YearField(text) == year && MonthField(text) == month && DayField(text) == day
  {
    hide DigitChar;
    var y, z := year / 100, year % 100;
    DigitsRead(y / 10);
    DigitsRead(y % 10);
    DigitsRead(z / 10);
    DigitsRead(z % 10);
    DigitsRead(month / 10);
    DigitsRead(month % 10);
    DigitsRead(day / 10);
    DigitsRead(day % 10);
  }

  lemma DigitPair(a: int, b: int)
    requires 0 <= a <= 9 && 0 <= b <= 9
    ensures (a * 10 + b) / 10 == a && (a * 10 + b) % 10 == b
  {
  }

  lemma PairWritten(text: string, i: nat)
    requires i + 1 < |text| && IsDigitAt(text, i) && IsDigitAt(text, i + 1)
    ensures 0 <= DigitAt(text, i) <= 9 && 0 <= DigitAt(text, i + 1) <= 9
    ensures TwoDigits(DigitAt(text, i) * 10 + DigitAt(text, i + 1)) == text[i..i + 2]
  {
    hide DigitChar;
    DigitRestored(text[i]);
    DigitRestored(text[i + 1]);
    DigitPair(DigitAt(text, i), DigitAt(text, i + 1));
  }

  /** A shape that holds a date is that date, written out. */
  lemma FieldsWritten(text: string)
    requires IsoShaped(text) && ValidDate(YearField(text), MonthField(text), DayField(text))
    ensures Writes(text, YearField(text), MonthField(text), DayField(text))
  {
    hide TwoDigits, DigitAt, ValidDate;
    PairWritten(text, 0);
    PairWritten(text, 2);
    PairWritten(text, 5);
    PairWritten(text, 8);
    var century, year := DigitAt(text, 0) * 10 + DigitAt(text, 1), DigitAt(text, 2) * 10 + DigitAt(text, 3);
    assert YearField(text) == century * 100 + year;
    assert (century * 100 + year) / 100 == century && (century * 100 + year) % 100 == year;
    assert text == text[0..2] + text[2..4] + "-" + text[5..7] + "-" + text[8..10];
  }

  lemma DigitRestored(c: char)
    requires '0' <= c <= '9'
    ensures 0 <= c as int - '0' as int <= 9 && DigitChar(c as int - '0' as int) == c
  {
    var d := c as int - '0' as int;
    DigitsRead(d);
  }

  lemma {:induction false} YearBound(year: int)
    ensures year >= 1970 ==> 0 <= YearStart(year) <= 366 * (year - 1970)
    ensures year < 1970 ==> 366 * (year - 1970) <= YearStart(year) <= 0
    decreases if year >= 1970 then year - 1970 else 1970 - year
  {
    if year > 1970 {
      YearBound(year - 1);
    } else if year < 1970 {
      YearBound(year + 1);
    }
  }

  /** The sums of `parse_iso_date`: whole years from 1970, whole months, days. */
  method CountDays(year: int, month: int, day: int) returns (days: int)
    requires 0 <= year <= 9999 && ValidDate(year, month, day)
    ensures days == DayNumber(year, month, day) && -0x8000_0000 <= days < 0x8000_0000
  {
    days := 0;
    if year >= 1970 {
      var y := 1970;
      while y < year
        invariant 1970 <= y <= year && days == YearStart(y)
      {
        days := days + DaysInYear(y);
        y := y + 1;
      }
    } else {
      var y := year;
      while y < 1970
        invariant year <= y <= 1970 && days == YearStart(year) - YearStart(y)
      {
        YearStep(y);
        days := days - DaysInYear(y);
        y := y + 1;
      }
    }
    var m := 1;
    while m < month
      invariant 1 <= m <= month && days == YearStart(year) + MonthStart(year, m)
    {
      days := days + DaysInMonth(year, m);
      m := m + 1;
    }
    days := days + day - 1;
    YearBound(year);
    MonthOrder(year, 1, month);
    MonthOrder(year, month, 13);
    MonthsMakeYear(year);
  }

  lemma WrittenOnce(text: string)
    ensures forall year, month, day :: Writes(text, year, month, day) ==>
      IsoShaped(text) && YearField(text) == year && MonthField(text) == month && DayField(text) == day && ValidDate(year, month, day)
  {
    forall year, month, day | Writes(text, year, month, day)
      ensures IsoShaped(text) && YearField(text) == year && MonthField(text) == month && DayField(text) == day
    {
      WrittenFields(text, year, month, day);
    }
  }

  /** `parse_iso_date`: None is its error. It accepts exactly the written dates and returns their
      day numbers, which always fit in 32 bits. */
  method ParseIsoDate(text: string) returns (result: Option<int>)
    ensures result.Some? <==> exists year, month, day :: Writes(text, year, month, day)
    ensures forall year, month, day :: Writes(text, year, month, day) ==> result == Some(DayNumber(year, month, day))
    ensures result.Some? ==> -0x8000_0000 <= result.value < 0x8000_0000
  {
    hide Writes, DayNumber;
    WrittenOnce(text);
    if !IsoShaped(text) {
      return None;
    }
    var year, month, day := YearField(text), MonthField(text), DayField(text);
    if month < 1 || month > 12 {
      return None;
    }
    if day < 1 || day > DaysInMonth(year, month) {
      return None;
    }
    FieldsWritten(text);
    var days := CountDays(year, month, day);
    return Some(days);
  }
}

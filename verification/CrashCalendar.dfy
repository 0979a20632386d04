/**
 The date a crash's lines carry, by straight arithmetic that allocates nothing: for every time from the
 epoch on it is the one date, in the proleptic Gregorian calendar, of that day.
 */
module CrashCalendar {

  datatype Date = Date(year: nat, month: nat, day: nat)

  // ---------------------------------------------------------------- the calendar, counted out

  predicate Leap(year: nat) { year % 4 == 0 && (year % 100 != 0 || year % 400 == 0) }

  function YearLength(year: nat): nat { if Leap(year) then 366 else 365 }

  function MonthLength(year: nat, month: nat): nat {
    if month == 2 then if Leap(year) then 29 else 28
    else if month == 4 || month == 6 || month == 9 || month == 11 then 30
    else 31
  }

  predicate Valid(d: Date) { 1 <= d.month <= 12 && 1 <= d.day <= MonthLength(d.year, d.month) }

  const EPOCH_YEAR := 1970

  function DaysBeforeYear(year: nat): nat
    requires year >= EPOCH_YEAR
  {
    if year == EPOCH_YEAR then 0 else DaysBeforeYear(year - 1) + YearLength(year - 1)
  }

  function DaysBeforeMonth(year: nat, month: nat): nat
    requires month >= 1
  {
    if month == 1 then 0 else DaysBeforeMonth(year, month - 1) + MonthLength(year, month - 1)
  }

  /** How many days lie between the epoch and a date. */
  function DayNumber(d: Date): nat
    requires d.year >= EPOCH_YEAR && Valid(d)
  {
    DaysBeforeYear(d.year) + DaysBeforeMonth(d.year, d.month) + d.day - 1
  }

  // ---------------------------------------------------------------- the arithmetic

  /** The day of an era of 400 years, counted from a first of March, to its year. */
  function YearOfEra(dayOfEra: nat): nat {
    (dayOfEra - dayOfEra / 1460 + dayOfEra / 36524 - dayOfEra / 146096) / 365
  }

  /** A day as an era, a year of it, a day of that year and its month, years starting in March. */
  datatype Parts = Parts(era: nat, year: int, day: int, month: int)

  function PartsOf(days: nat): Parts {
    var shifted := days + 719468;  // days from the first of March of year 0
    var era := shifted / 146097;
    var dayOfEra := shifted - era * 146097;
    var yearOfEra := YearOfEra(dayOfEra);
    var dayOfYear := dayOfEra - (365 * yearOfEra + yearOfEra / 4 - yearOfEra / 100);
    Parts(era, yearOfEra, dayOfYear, (5 * dayOfYear + 2) / 153)
  }

  function Clamped(x: int): nat { if x < 0 then 0 else x }

  function DateOf(p: Parts): Date {
    var day := p.day - (153 * p.month + 2) / 5 + 1;
    var month := if p.month < 10 then p.month + 3 else p.month - 9;
    var year := p.year + p.era * 400 + if month <= 2 then 1 else 0;
    Date(Clamped(year), Clamped(month), Clamped(day))
  }

  function CivilDate(days: nat): Date { DateOf(PartsOf(days)) }

  /** The days of an era before its year `y`, years starting in March. */
  function EraDays(y: nat): nat { 365 * y + y / 4 - y / 100 }

  lemma EraDaysParts(y: nat)
    requires y <= 400
    ensures EraDays(y) / 1460 == y / 4 && EraDays(y) / 36524 == y / 100
    ensures EraDays(y) / 146096 == if y == 400 then 1 else 0
  {
    var a, s := y / 4, y % 4;
    assert EraDays(y) == 1460 * a + (365 * s + a - y / 100);
    var b, r := y / 100, y % 100;
    assert y / 4 == 25 * b + r / 4;
    assert EraDays(y) == 36524 * b + (365 * r + r / 4);
  }

  /** What YearOfEra divides by 365. */
  function Spread(dayOfEra: nat): int { dayOfEra - dayOfEra / 1460 + dayOfEra / 36524 - dayOfEra / 146096 }

  lemma SpreadGrows(a: nat, b: nat)
    requires a <= b < 146096
    ensures Spread(a) <= Spread(b)
  {
    assert a / 1460 <= b / 1460 && b - b / 1460 >= a - a / 1460;
    assert a / 36524 <= b / 36524;
  }

  lemma SpreadAtYear(y: nat)
    requires y < 400
    ensures Spread(EraDays(y)) == 365 * y
  {
    EraDaysParts(y);
  }

  /** The last day of a year spreads to less than the next year's first. */
  lemma SpreadBeforeYear(y: nat)
    requires 0 < y < 400
    ensures Spread(EraDays(y) - 1) < 365 * y
  {
    EraDaysParts(y);
    var d, a, s := EraDays(y), y / 4, y % 4;
    assert d == 1460 * a + (365 * s + a - y / 100);
    assert 365 * s + a - y / 100 > 0;
    assert (d - 1) / 1460 == a;
  }

  lemma YearOfEraHolds(dayOfEra: nat)
    requires dayOfEra < 146097
    ensures var y := YearOfEra(dayOfEra);
      0 <= y < 400 && EraDays(y) <= dayOfEra && (dayOfEra < EraDays(y + 1) || (y == 399 && dayOfEra == 146096))
  {
    var y := YearOfEra(dayOfEra);
    if dayOfEra < 146096 {
      SpreadGrows(0, dayOfEra);
      SpreadGrows(dayOfEra, 146095);
      assert 0 <= y < 400;
      if dayOfEra < EraDays(y) {
        SpreadGrows(dayOfEra, EraDays(y) - 1);
        SpreadBeforeYear(y);
        assert false;
      }
      if y < 399 && dayOfEra >= EraDays(y + 1) {
        SpreadAtYear(y + 1);
        SpreadGrows(EraDays(y + 1), dayOfEra);
        assert false;
      }
    }
  }

  // ---------------------------------------------------------------- years and months in closed form

  /** Leap years up to and counting `n`. */
  function LeapsTo(n: nat): int { n / 4 - n / 100 + n / 400 }

  lemma FourthStep(n: nat)
    requires n > 0
    ensures n / 4 - (n - 1) / 4 == if n % 4 == 0 then 1 else 0
  {}

  lemma HundredthStep(n: nat)
    requires n > 0
    ensures n / 100 - (n - 1) / 100 == if n % 100 == 0 then 1 else 0
    ensures n % 100 == 0 ==> n % 4 == 0
  {
    if n % 100 == 0 { assert n == 4 * (25 * (n / 100)); }
  }

  lemma FourHundredthStep(n: nat)
    requires n > 0
    ensures n / 400 - (n - 1) / 400 == if n % 400 == 0 then 1 else 0
    ensures n % 400 == 0 ==> n % 100 == 0
  {
    if n % 400 == 0 { assert n == 100 * (4 * (n / 400)); }
  }

  lemma LeapsStep(n: nat)
    requires n > 0
    ensures LeapsTo(n) == LeapsTo(n - 1) + if Leap(n) then 1 else 0
  {
    FourthStep(n);
    HundredthStep(n);
    FourHundredthStep(n);
  }

  lemma {:induction false} DaysBeforeYearIs(year: nat)
    requires year >= EPOCH_YEAR
    ensures DaysBeforeYear(year) == 365 * (year - EPOCH_YEAR) + LeapsTo(year - 1) - LeapsTo(EPOCH_YEAR - 1)
  {
    if year > EPOCH_YEAR {
      DaysBeforeYearIs(year - 1);
      LeapsStep(year - 1);
      hide LeapsTo, Leap;
    }
  }

  /** The days before each month, by the arithmetic: March is month 0. */
  function MarchDays(m: nat): nat { (153 * m + 2) / 5 }

  lemma DaysBeforeMonthIs(year: nat, month: nat)
    requires 1 <= month <= 12
    ensures DaysBeforeMonth(year, month) ==
            if month == 1 then 0 else if month == 2 then 31
            else 59 + (if Leap(year) then 1 else 0) + MarchDays(month - 3)
  {
    if month > 1 { DaysBeforeMonthIs(year, month - 1); }
  }

  /** The shifted month holds its day: at or past its first, before the next's. */
  lemma ShiftedMonthHolds(dayOfYear: nat)
    requires dayOfYear <= 365
    ensures var m := (5 * dayOfYear + 2) / 153;
      m <= 11 && MarchDays(m) <= dayOfYear < MarchDays(m + 1)
  {}

  lemma LeapsInEra(yearOfEra: nat, era: nat)
    requires yearOfEra < 400
    ensures LeapsTo(yearOfEra + era * 400) == 97 * era + yearOfEra / 4 - yearOfEra / 100
  {
    var n := yearOfEra + era * 400;
    assert n / 400 == era;
    assert n / 100 == yearOfEra / 100 + 4 * era;
    assert n / 4 == yearOfEra / 4 + 100 * era;
  }

  lemma {:induction false} EraPart(y: nat, era: nat)
    ensures (y + era * 400) % 4 == y % 4 && (y + era * 400) % 100 == y % 100 && (y + era * 400) % 400 == y % 400
  {
    if era > 0 {
      var x := y + (era - 1) * 400;
      EraPart(y, era - 1);
      assert y + era * 400 == x + 400;
      assert (x + 400) % 4 == x % 4;
      assert (x + 400) % 100 == x % 100;
      assert (x + 400) % 400 == x % 400;
    }
  }

  /** Whether the year after `y`, of its era, is leap: its February ends the March year `y`. */
  lemma MarchYearLength(yearOfEra: nat, era: nat)
    requires yearOfEra < 400
    ensures Leap(yearOfEra + era * 400 + 1) ==
            (EraDays(yearOfEra + 1) - EraDays(yearOfEra) == 366 || yearOfEra == 399)
  {
    var n, y := yearOfEra + era * 400 + 1, yearOfEra + 1;
    EraPart(y, era);
    FourthStep(y);
    HundredthStep(y);
  }

  // ---------------------------------------------------------------- the date is the day's

  lemma MonthEnds(year: nat, m: nat)
    requires m <= 11
    ensures m < 11 ==> MarchDays(m + 1) - MarchDays(m) == MonthLength(year, if m < 10 then m + 3 else m - 9)
  {}

  predicate PartsHold(p: Parts, days: nat) {
    && 0 <= p.year < 400 && 0 <= p.day <= 365 && 0 <= p.month <= 11
    && days + 719468 == p.era * 146097 + EraDays(p.year) + p.day
    && MarchDays(p.month) <= p.day && (p.month < 11 ==> p.day < MarchDays(p.month + 1))
    && (p.day == 365 ==> Leap(p.year + p.era * 400 + 1))
  }

  lemma PartsAreRight(days: nat)
    ensures PartsHold(PartsOf(days), days)
  {
    hide MarchDays, Leap;
    var p, shifted := PartsOf(days), days + 719468;
    var dayOfEra: nat := shifted - p.era * 146097;
    YearOfEraHolds(dayOfEra);
    MarchYearLength(p.year, p.era);
    ShiftedMonthHolds(p.day);
  }

  /** What a day's parts come to is a date, and of that day. */
  lemma DateIsRight(p: Parts, days: nat, d: Date)
    requires PartsHold(p, days) && d == DateOf(p)
    requires d.year == p.year + p.era * 400 + (if p.month < 10 then 0 else 1) >= EPOCH_YEAR
    ensures Valid(d) && DayNumber(d) == days
  {
    hide Leap, LeapsTo, EraDays;
    assert d.month == if p.month < 10 then p.month + 3 else p.month - 9;
    assert d.day == p.day - MarchDays(p.month) + 1;
    MonthEnds(d.year, p.month);
    assert Valid(d);
    DaysBeforeYearIs(d.year);
    DaysBeforeMonthIs(d.year, d.month);
    YearSum(d.year, p.year, p.era, p.month);
    DaySum(p, days, d);
  }

  /** The two counts of days agree once each is in closed form. */
  lemma DaySum(p: Parts, days: nat, d: Date)
    requires PartsHold(p, days) && d.year == p.year + p.era * 400 + (if p.month < 10 then 0 else 1) >= EPOCH_YEAR
    requires d.month == (if p.month < 10 then p.month + 3 else p.month - 9) && d.day == p.day - MarchDays(p.month) + 1
    requires Valid(d)
    requires DaysBeforeYear(d.year)
             == 365 * (d.year - EPOCH_YEAR) + LeapsTo(d.year - 1) - LeapsTo(EPOCH_YEAR - 1)
    requires DaysBeforeMonth(d.year, d.month) ==
             if d.month == 1 then 0 else if d.month == 2 then 31
             else 59 + (if Leap(d.year) then 1 else 0) + MarchDays(d.month - 3)
    requires LeapsTo(d.year - 1) + (if p.month < 10 && Leap(d.year) then 1 else 0)
             == 97 * p.era + p.year / 4 - p.year / 100
    ensures DayNumber(d) == days
  {
    hide Leap, DaysBeforeYear, DaysBeforeMonth;
    assert LeapsTo(EPOCH_YEAR - 1) == 477;
    hide LeapsTo;
    assert p.month == 10 ==> MarchDays(p.month) == 306;
    assert p.month == 11 ==> MarchDays(p.month) == 337;
  }

  lemma CivilIsValid(days: nat)
    ensures Valid(CivilDate(days)) && CivilDate(days).year >= EPOCH_YEAR
    ensures DayNumber(CivilDate(days)) == days
  {
    hide PartsOf, Leap;
    var p := PartsOf(days);
    PartsAreRight(days);
    FromEpoch(p.year, p.era, p.day, days, p.month);
    DateIsRight(p, days, CivilDate(days));
  }

  lemma FromEpoch(y: nat, era: nat, dayOfYear: nat, days: nat, m: nat)
    requires y < 400 && dayOfYear <= 365 && days + 719468 == era * 146097 + EraDays(y) + dayOfYear
    requires MarchDays(m) <= dayOfYear && (m < 11 ==> dayOfYear < MarchDays(m + 1)) && m <= 11
    ensures y + era * 400 + (if m < 10 then 0 else 1) >= EPOCH_YEAR
  {
    if y + era * 400 < EPOCH_YEAR {
      assert era == 4 && y == 369;
      assert MarchDays(10) == 306;
    }
  }

  lemma YearSum(year: nat, y: nat, era: nat, m: nat)
    requires y < 400 && m <= 11 && year == y + era * 400 + (if m < 10 then 0 else 1) >= EPOCH_YEAR
    ensures LeapsTo(year - 1) + (if m < 10 && Leap(year) then 1 else 0) == 97 * era + y / 4 - y / 100
  {
    hide LeapsTo, Leap;
    LeapsInEra(y, era);
    if m < 10 { LeapsStep(year); }
  }

  lemma {:induction false} YearsApart(a: nat, b: nat)
    requires EPOCH_YEAR <= a < b
    ensures DaysBeforeYear(a) + YearLength(a) <= DaysBeforeYear(b)
    decreases b
  {
    if a < b - 1 { YearsApart(a, b - 1); }
  }

  lemma {:induction false} MonthsApart(year: nat, a: nat, b: nat)
    requires 1 <= a < b <= 13
    ensures DaysBeforeMonth(year, a) + MonthLength(year, a) <= DaysBeforeMonth(year, b)
    decreases b
  {
    if a < b - 1 { MonthsApart(year, a, b - 1); }
  }

  lemma WithinYear(d: Date)
    requires Valid(d)
    ensures DaysBeforeMonth(d.year, d.month) + d.day <= YearLength(d.year)
  {
    MonthsApart(d.year, d.month, 13);
    DaysBeforeMonthIs(d.year, 12);
    assert DaysBeforeMonth(d.year, 13) == DaysBeforeMonth(d.year, 12) + MonthLength(d.year, 12);
  }

  /** No two dates are of one day. */
  lemma OneDateADay(a: Date, b: Date)
    requires Valid(a) && Valid(b) && a.year >= EPOCH_YEAR && b.year >= EPOCH_YEAR && DayNumber(a) == DayNumber(b)
    ensures a == b
  {
    WithinYear(a);
    WithinYear(b);
    if a.year < b.year { YearsApart(a.year, b.year); }
    if b.year < a.year { YearsApart(b.year, a.year); }
    if a.month < b.month { MonthsApart(a.year, a.month, b.month); }
    if b.month < a.month { MonthsApart(a.year, b.month, a.month); }
  }

  /** For every day from the epoch on, the date is the unique valid one of that day. */
  lemma CivilIsTheDate(days: nat, d: Date)
    requires d.year >= EPOCH_YEAR && Valid(d)
    ensures CivilDate(days) == d <==> DayNumber(d) == days
  {
    CivilIsValid(days);
    if DayNumber(d) == days { OneDateADay(CivilDate(days), d); }
  }
}

/**
 * Calendar utilities of the report engine: proleptic Gregorian dates with
 * JavaScript's month numbering (0 = January), the day arithmetic the source
 * performs with `Date.setDate`, the "DD Mon YYYY" format it reads and writes,
 * and `getDaysInRange`.
 */
module Calendar {
  import opened Wrappers

  /** A civil date; `month` is 0-based as `Date.getMonth()` returns it. */
  datatype Ymd = Ymd(year: int, month: int, day: int)

  predicate IsLeapYear(y: int) {
    y % 4 == 0 && (y % 100 != 0 || y % 400 == 0)
  }

  /** The length of month `m` (0-based) of year `y`. */
  function MonthLength(y: int, m: int): (n: int)
    requires 0 <= m < 12
    ensures 28 <= n <= 31
    ensures m == 1 ==> (n == 29 <==> IsLeapYear(y))
  {
    if m == 1 then (if IsLeapYear(y) then 29 else 28)
    else if m == 3 || m == 5 || m == 8 || m == 10 then 30
    else 31
  }

  predicate ValidYmd(d: Ymd) {
    0 <= d.month < 12 && 1 <= d.day <= MonthLength(d.year, d.month)
  }

  /** A date that exists on the calendar (what a JavaScript `Date` denotes at local midnight). */
  type Date = d: Ymd | ValidYmd(d) witness Ymd(2025, 0, 1)

  /** Days of year `y` before the first of month `m`. */
  function DaysBeforeMonth(y: int, m: int): int
    requires 0 <= m <= 12
  {
    if m == 0 then 0 else DaysBeforeMonth(y, m - 1) + MonthLength(y, m - 1)
  }

  function YearDays(y: int): int {
    if IsLeapYear(y) then 366 else 365
  }

  /** Days from 1 January of year 1 to 1 January of year `y` (negative before year 1). */
  function DaysBeforeYear(y: int): int
    decreases if y < 1 then 2 - y else y
  {
    if y == 1 then 0
    else if y > 1 then DaysBeforeYear(y - 1) + YearDays(y - 1)
    else DaysBeforeYear(y + 1) - YearDays(y)
  }

  /** The serial number of a day: consecutive days have consecutive numbers. */
  function DayNumber(d: Date): int {
    DaysBeforeYear(d.year) + DaysBeforeMonth(d.year, d.month) + d.day - 1
  }

  /** `Date.getDay()`: 0 = Sunday, ..., 6 = Saturday (day number 0 is a Monday). */
  function Weekday(d: Date): (w: int)
    ensures 0 <= w < 7
  {
    (DayNumber(d) + 1) % 7
  }

  function NextDay(d: Date): Date {
    if d.day < MonthLength(d.year, d.month) then Ymd(d.year, d.month, d.day + 1)
    else if d.month < 11 then Ymd(d.year, d.month + 1, 1)
    else Ymd(d.year + 1, 0, 1)
  }

  function PrevDay(d: Date): Date {
    if d.day > 1 then Ymd(d.year, d.month, d.day - 1)
    else if d.month > 0 then Ymd(d.year, d.month - 1, MonthLength(d.year, d.month - 1))
    else Ymd(d.year - 1, 11, 31)
  }

  /** `d.setDate(d.getDate() + k)`: move `k` days forward (backward when `k < 0`). */
  function AddDays(d: Date, k: int): Date
    decreases if k < 0 then -k else k
  {
    if k == 0 then d
    else if k > 0 then AddDays(NextDay(d), k - 1)
    else AddDays(PrevDay(d), k + 1)
  }

  /** The year `new Date(y, m, d)` uses: JavaScript maps years 0..99 to 1900..1999. */
  function ConstructorYear(y: int): int {
    if 0 <= y <= 99 then 1900 + y else y
  }

  /**
   * The date `day` days on from the first of month `m` of year `y`, the month
   * first folded into the year: `Date.setMonth` and `Date.setDate` normalise this
   * way, so `day == 0` is the last day of the previous month and a day past the
   * month's end spills into the next.
   */
  function DateOf(y: int, m: int, day: int): Date {
    var (fy, fm) := FoldMonth(y, m);
    AddDays(Ymd(fy, fm, 1), day - 1)
  }

  /** Month `m` of year `y` with the month brought into `0..11` and the excess carried into the year. */
  function FoldMonth(y: int, m: int): (r: (int, int))
    ensures 0 <= r.1 < 12 && 12 * r.0 + r.1 == 12 * y + m
    decreases if m < 0 then 12 - m else m
  {
    if m < 0 then FoldMonth(y - 1, m + 12)
    else if m < 12 then (y, m)
    else FoldMonth(y + 1, m - 12)
  }

  /** `new Date(y, m, day)`: `DateOf` after the constructor's year mapping. */
  function MakeDate(y: int, m: int, day: int): Date {
    DateOf(ConstructorYear(y), m, day)
  }

  /** `d.setMonth(m)`: the same day of month `m`, normalised like `DateOf`. */
  function SetMonth(d: Date, m: int): Date {
    DateOf(d.year, m, d.day)
  }

  function FirstOfMonth(d: Date): Date {
    Ymd(d.year, d.month, 1)
  }

  function LastOfMonth(d: Date): Date {
    Ymd(d.year, d.month, MonthLength(d.year, d.month))
  }

  /** `getDaysInMonth(year, month)` as written: `new Date(year, month + 1, 0).getDate()`. */
  function GetDaysInMonth(year: int, month: int): int {
    MakeDate(year, month + 1, 0).day
  }

  function MaxDate(a: Date, b: Date): Date {
    if DayNumber(a) >= DayNumber(b) then a else b
  }

  function MinDate(a: Date, b: Date): Date {
    if DayNumber(a) <= DayNumber(b) then a else b
  }

  /**
   * `getDaysInRange(startDate, endDate, weekStart, weekEnd)`: the number of
   * days in both `[startDate, endDate]` and `[weekStart, weekEnd]`, ends included.
   */
  function DaysInRange(startDate: Date, endDate: Date, weekStart: Date, weekEnd: Date): int {
    var start := MaxDate(startDate, weekStart);
    var end := MinDate(endDate, weekEnd);
    if DayNumber(end) < DayNumber(start) then 0
    else DayNumber(end) - DayNumber(start) + 1
  }

  // ---------------------------------------------------------------------------
  // Day arithmetic

  lemma YearLength(y: int)
    ensures DaysBeforeYear(y + 1) == DaysBeforeYear(y) + DaysBeforeMonth(y, 12)
    ensures DaysBeforeMonth(y, 12) == if IsLeapYear(y) then 366 else 365
  {
    assert DaysBeforeYear(y + 1) == DaysBeforeYear(y) + YearDays(y);
    assert DaysBeforeMonth(y, 1) == 31;
    assert DaysBeforeMonth(y, 2) == 31 + MonthLength(y, 1);
    assert DaysBeforeMonth(y, 3) == DaysBeforeMonth(y, 2) + 31;
    assert DaysBeforeMonth(y, 4) == DaysBeforeMonth(y, 3) + 30;
    assert DaysBeforeMonth(y, 5) == DaysBeforeMonth(y, 4) + 31;
    assert DaysBeforeMonth(y, 6) == DaysBeforeMonth(y, 5) + 30;
    assert DaysBeforeMonth(y, 7) == DaysBeforeMonth(y, 6) + 31;
    assert DaysBeforeMonth(y, 8) == DaysBeforeMonth(y, 7) + 31;
    assert DaysBeforeMonth(y, 9) == DaysBeforeMonth(y, 8) + 30;
    assert DaysBeforeMonth(y, 10) == DaysBeforeMonth(y, 9) + 31;
    assert DaysBeforeMonth(y, 11) == DaysBeforeMonth(y, 10) + 30;
    assert DaysBeforeMonth(y, 12) == DaysBeforeMonth(y, 11) + 31;
  }

  /** Of two months of one year, the earlier ends no later than the later begins. */
  lemma {:induction false} DaysBeforeMonthMonotone(y: int, m1: int, m2: int)
    requires 0 <= m1 < m2 <= 12
    ensures DaysBeforeMonth(y, m1) + MonthLength(y, m1) <= DaysBeforeMonth(y, m2)
    decreases m2 - m1
  {
    if m1 + 1 < m2 {
      DaysBeforeMonthMonotone(y, m1, m2 - 1);
    }
  }

  /** Of two years, the earlier ends no later than the later begins. */
  lemma {:induction false} DaysBeforeYearMonotone(y1: int, y2: int)
    requires y1 < y2
    ensures DaysBeforeYear(y1) + YearDays(y1) <= DaysBeforeYear(y2)
    decreases y2 - y1
  {
    YearLength(y1);
    if y1 + 1 < y2 {
      DaysBeforeYearMonotone(y1, y2 - 1);
      YearLength(y2 - 1);
    }
  }

  /** A date's days before it in its year number fewer than the year's days. */
  lemma DayInYear(d: Date)
    ensures 0 <= DaysBeforeMonth(d.year, d.month) + d.day - 1 < YearDays(d.year)
  {
    YearLength(d.year);
    DaysBeforeMonthMonotone(d.year, d.month, 12);
    if d.month > 0 {
      DaysBeforeMonthMonotone(d.year, 0, d.month);
    }
  }

  /** Day numbers follow the calendar order of year, month and day. */
  lemma DayNumberLess(a: Date, b: Date)
    requires a.year < b.year || (a.year == b.year && (a.month < b.month || (a.month == b.month && a.day < b.day)))
    ensures DayNumber(a) < DayNumber(b)
  {
    DayInYear(a);
    DayInYear(b);
    if a.year < b.year {
      DaysBeforeYearMonotone(a.year, b.year);
    } else if a.month < b.month {
      DaysBeforeMonthMonotone(a.year, a.month, b.month);
    }
  }

  /** Two dates with one day number are one date. */
  lemma DayNumberInjective(a: Date, b: Date)
    ensures DayNumber(a) == DayNumber(b) ==> a == b
  {
    if a.year < b.year || (a.year == b.year && (a.month < b.month || (a.month == b.month && a.day < b.day))) {
      DayNumberLess(a, b);
    } else if a != b {
      DayNumberLess(b, a);
    }
  }

  lemma {:induction false} NextDayNumber(d: Date)
    ensures DayNumber(NextDay(d)) == DayNumber(d) + 1
  {
    if d.day == MonthLength(d.year, d.month) && d.month == 11 {
      YearLength(d.year);
    }
  }

  lemma ModSevenShift(a: int, k: int)
    ensures (a + k) % 7 == (a % 7 + k) % 7
  {
    var q := a / 7;
    assert a == 7 * q + a % 7;
    assert a + k == 7 * q + (a % 7 + k);
  }

  /** Moving `k` days moves the weekday by `k` modulo 7. */
  lemma WeekdayShift(d: Date, e: Date, k: int)
    requires DayNumber(e) == DayNumber(d) + k
    ensures Weekday(e) == (Weekday(d) + k) % 7
  {
    ModSevenShift(DayNumber(d) + 1, k);
  }

  lemma WeekdayWeekLater(d: Date, e: Date)
    requires DayNumber(e) == DayNumber(d) + 7
    ensures Weekday(e) == Weekday(d)
  {
    WeekdayShift(d, e, 7);
    var w := Weekday(d);
    assert (w + 7) % 7 == w;
  }

  /** One year more adds that year's days to the Gregorian count below. */
  lemma GregorianStep(n: int)
    ensures 365 * n + n / 4 - n / 100 + n / 400
         == 365 * (n - 1) + (n - 1) / 4 - (n - 1) / 100 + (n - 1) / 400 + YearDays(n)
  {
    assert n / 4 - (n - 1) / 4 == if n % 4 == 0 then 1 else 0;
    assert n / 100 - (n - 1) / 100 == if n % 100 == 0 then 1 else 0;
    assert n / 400 - (n - 1) / 400 == if n % 400 == 0 then 1 else 0;
  }

  /**
   * The Gregorian count of days before 1 January: 365 a year plus one for every
   * fourth year, less the centuries, plus the fourth centuries.
   */
  lemma {:induction false} DaysBeforeYearClosedForm(y: int)
    ensures DaysBeforeYear(y) == 365 * (y - 1) + (y - 1) / 4 - (y - 1) / 100 + (y - 1) / 400
    decreases if y < 1 then 2 - y else y
  {
    if y > 1 {
      DaysBeforeYearClosedForm(y - 1);
      GregorianStep(y - 1);
    } else if y < 1 {
      DaysBeforeYearClosedForm(y + 1);
      GregorianStep(y);
    }
  }

  /**
   * The weekday convention against real dates: 1 January 1970 (day 719162) was a
   * Thursday, and the dashboard's February 2025 table starts on a Saturday, so
   * its day `i` has weekday `(i + 5) % 7`.
   */
  lemma WeekdayAnchors()
    ensures DayNumber(Ymd(1970, 0, 1)) == 719162 && Weekday(Ymd(1970, 0, 1)) == 4
    ensures Weekday(Ymd(2025, 1, 1)) == 6
    ensures forall i :: 1 <= i <= 28 ==> Weekday(Ymd(2025, 1, i)) == (i + 5) % 7
  {
    DaysBeforeYearClosedForm(1970);
    assert DaysBeforeYear(1970) == 719162;
    DaysBeforeYearClosedForm(2025);
    assert DaysBeforeYear(2025) == 739251;
    forall i | 1 <= i <= 28
      ensures Weekday(Ymd(2025, 1, i)) == (i + 5) % 7
    {
      assert DayNumber(Ymd(2025, 1, i)) + 1 == 7 * 105611 + i + 5;
    }
  }

  lemma NextPrev(d: Date)
    ensures NextDay(PrevDay(d)) == d
  {
  }

  lemma PrevDayNumber(d: Date)
    ensures DayNumber(PrevDay(d)) == DayNumber(d) - 1
  {
    NextPrev(d);
    NextDayNumber(PrevDay(d));
  }

  lemma {:induction false} AddDaysNumber(d: Date, k: int)
    ensures DayNumber(AddDays(d, k)) == DayNumber(d) + k
    decreases if k < 0 then -k else k
  {
    if k > 0 {
      NextDayNumber(d);
      AddDaysNumber(NextDay(d), k - 1);
    } else if k < 0 {
      PrevDayNumber(d);
      AddDaysNumber(PrevDay(d), k + 1);
    }
  }

  lemma {:induction false} AddDaysWithinMonth(y: int, m: int, k: int)
    requires 0 <= m < 12 && 1 <= k <= MonthLength(y, m)
    ensures AddDays(Ymd(y, m, 1), k - 1) == Ymd(y, m, k)
    decreases k
  {
    if k > 1 {
      AddDaysWithinMonth(y, m, k - 1);
      AddDaysSplit(Ymd(y, m, 1), k - 2, 1);
    }
  }

  lemma {:induction false} AddDaysSplit(d: Date, j: nat, k: nat)
    ensures AddDays(d, j + k) == AddDays(AddDays(d, j), k)
    decreases j
  {
    if j > 0 {
      AddDaysSplit(NextDay(d), j - 1, k);
    }
  }

  /** The last day of a month and the first day of the next are one day apart. */
  lemma FirstOfNextMonth(d: Date)
    ensures NextDay(LastOfMonth(d)) == (if d.month < 11 then Ymd(d.year, d.month + 1, 1) else Ymd(d.year + 1, 0, 1))
    ensures DayNumber(LastOfMonth(d)) == DayNumber(FirstOfMonth(d)) + MonthLength(d.year, d.month) - 1
    ensures DayNumber(FirstOfMonth(d)) <= DayNumber(d) <= DayNumber(LastOfMonth(d))
  {
  }

  /** Advancing the first of a month with `setMonth(getMonth() + 1)` reaches the first of the next month. */
  lemma NextMonthStart(d: Date)
    requires d.day == 1
    ensures SetMonth(d, d.month + 1) == (if d.month < 11 then Ymd(d.year, d.month + 1, 1) else Ymd(d.year + 1, 0, 1))
    ensures DayNumber(SetMonth(d, d.month + 1)) == DayNumber(d) + MonthLength(d.year, d.month)
  {
    FirstOfNextMonth(d);
    NextDayNumber(LastOfMonth(d));
  }

  /** `new Date(y, m, 1)` is the first of that month when the year is not remapped. */
  lemma MakeFirstOfMonth(y: int, m: int)
    requires 0 <= m < 12 && !(0 <= y <= 99)
    ensures MakeDate(y, m, 1) == Ymd(y, m, 1)
  {
  }

  /** `getDaysInMonth` really is the length of the month, also for December. */
  lemma GetDaysInMonthIsLength(year: int, month: int)
    requires 0 <= month < 12 && !(0 <= year <= 99)
    ensures GetDaysInMonth(year, month) == MonthLength(year, month)
    ensures MakeDate(year, month + 1, 0) == Ymd(year, month, MonthLength(year, month))
  {
    var first := if month < 11 then Ymd(year, month + 1, 1) else Ymd(year + 1, 0, 1);
    assert FoldMonth(year, month + 1) == (first.year, first.month);
    assert MakeDate(year, month + 1, 0) == DateOf(year, month + 1, 0) == AddDays(first, -1) == PrevDay(first);
  }

  /** `Date` comparison and `getDaysInRange` agree with counting day numbers. */
  lemma DaysInRangeCounts(s: Date, e: Date, ws: Date, we: Date)
    ensures DaysInRange(s, e, ws, we) == CountBoth(DayNumber(ws), DayNumber(we) + 1, DayNumber(s), DayNumber(e))
    ensures 0 <= DaysInRange(s, e, ws, we)
    ensures DayNumber(ws) <= DayNumber(we) ==> DaysInRange(s, e, ws, we) <= DayNumber(we) - DayNumber(ws) + 1
    ensures DaysInRange(s, e, ws, we) == 0 <==>
              DayNumber(e) < DayNumber(ws) || DayNumber(we) < DayNumber(s) || DayNumber(e) < DayNumber(s) || DayNumber(we) < DayNumber(ws)
  {
    CountBothIsOverlap(DayNumber(ws), DayNumber(we) + 1, DayNumber(s), DayNumber(e));
  }

  /** Reference definition: how many `n` in `[lo, hi)` satisfy `a <= n <= b`. */
  function CountBoth(lo: int, hi: int, a: int, b: int): nat
    decreases hi - lo
  {
    if hi <= lo then 0
    else (if a <= lo <= b then 1 else 0) + CountBoth(lo + 1, hi, a, b)
  }

  function MaxInt(a: int, b: int): int { if a >= b then a else b }
  function MinInt(a: int, b: int): int { if a <= b then a else b }

  lemma {:induction false} CountBothIsOverlap(lo: int, hi: int, a: int, b: int)
    ensures CountBoth(lo, hi, a, b) == MaxInt(0, MinInt(hi - 1, b) - MaxInt(lo, a) + 1)
    decreases hi - lo
  {
    if hi > lo {
      CountBothIsOverlap(lo + 1, hi, a, b);
    }
  }

  // ---------------------------------------------------------------------------
  // The "DD Mon YYYY" format

  function MonthAbbrev(m: int): (s: string)
    requires 0 <= m < 12
    ensures |s| == 3
  {
    ["Jan", "Feb", "Mar", "Apr", "May", "Jun", "Jul", "Aug", "Sep", "Oct", "Nov", "Dec"][m]
  }

  /** `getMonthNumber`: the month table lookup, `None` standing for `undefined`. */
  function GetMonthNumber(s: string): (r: Option<int>)
    ensures r.Some? ==> 0 <= r.value < 12 && MonthAbbrev(r.value) == s
  {
    if s == "Jan" then Some(0) else if s == "Feb" then Some(1) else if s == "Mar" then Some(2)
    else if s == "Apr" then Some(3) else if s == "May" then Some(4) else if s == "Jun" then Some(5)
    else if s == "Jul" then Some(6) else if s == "Aug" then Some(7) else if s == "Sep" then Some(8)
    else if s == "Oct" then Some(9) else if s == "Nov" then Some(10) else if s == "Dec" then Some(11)
    else None
  }

  /** Every abbreviation is recognised and mapped back to its own month. */
  lemma GetMonthNumberOfAbbrev(m: int)
    requires 0 <= m < 12
    ensures GetMonthNumber(MonthAbbrev(m)) == Some(m)
  {
  }

  predicate IsDigit(c: char) { '0' <= c <= '9' }

  function DigitValue(c: char): int requires IsDigit(c) { c as int - '0' as int }

  function DigitChar(n: int): (c: char)
    requires 0 <= n < 10
    ensures IsDigit(c) && DigitValue(c) == n
  {
    ('0' as int + n) as char
  }

  /** Decimal digits of a natural number, as `Number.prototype.toString` writes them. */
  function Decimal(n: nat): (s: string)
    ensures |s| >= 1
  {
    if n < 10 then [DigitChar(n)] else Decimal(n / 10) + [DigitChar(n % 10)]
  }

  /** `${n}` for an integer `n`. */
  function IntToString(n: int): string {
    if n < 0 then "-" + Decimal(-n) else Decimal(n)
  }

  /** `n.toString().padStart(2, '0')`. */
  function Pad2(n: nat): string {
    if n < 10 then "0" + Decimal(n) else Decimal(n)
  }

  /** `formatDate`: "DD Mon YYYY". */
  function FormatDate(d: Date): string {
    Pad2(d.day) + " " + MonthAbbrev(d.month) + " " + IntToString(d.year)
  }

  /** The shape `parseDate` is given: two digits, a space, a month abbreviation, a space, four digits. */
  predicate Canonical(s: string) {
    |s| == 11 && IsDigit(s[0]) && IsDigit(s[1]) && s[2] == ' ' && GetMonthNumber(s[3..6]).Some?
    && s[6] == ' ' && IsDigit(s[7]) && IsDigit(s[8]) && IsDigit(s[9]) && IsDigit(s[10])
  }

  function DayField(s: string): int requires Canonical(s) {
    10 * DigitValue(s[0]) + DigitValue(s[1])
  }

  function YearField(s: string): int requires Canonical(s) {
    1000 * DigitValue(s[7]) + 100 * DigitValue(s[8]) + 10 * DigitValue(s[9]) + DigitValue(s[10])
  }

  /**
   * `parseDate`: `new Date(year, getMonthNumber(month), parseInt(day))`.
   * `None` stands for the Invalid Date of a string of another shape.
   */
  function ParseDate(s: string): Option<Date> {
    if Canonical(s) then Some(MakeDate(YearField(s), GetMonthNumber(s[3..6]).value, DayField(s)))
    else None
  }

  /** A canonical string naming a day that exists, in a year JavaScript keeps as written. */
  predicate WellFormedDate(s: string) {
    Canonical(s) && 1000 <= YearField(s)
    && 1 <= DayField(s) <= MonthLength(YearField(s), GetMonthNumber(s[3..6]).value)
  }

  lemma DecimalFourDigits(y: int)
    requires 1000 <= y <= 9999
    ensures Decimal(y) == [DigitChar(y / 1000), DigitChar(y / 100 % 10), DigitChar(y / 10 % 10), DigitChar(y % 10)]
  {
    assert y / 10 / 10 == y / 100 && y / 100 / 10 == y / 1000;
    assert y / 10 % 10 == y / 10 % 10 && y / 100 % 10 == y / 10 / 10 % 10;
    assert Decimal(y / 1000) == [DigitChar(y / 1000)];
    assert Decimal(y / 100) == Decimal(y / 1000) + [DigitChar(y / 100 % 10)];
    assert Decimal(y / 10) == Decimal(y / 100) + [DigitChar(y / 10 % 10)];
  }

  lemma Pad2Digits(n: int)
    requires 0 <= n < 100
    ensures Pad2(n) == [DigitChar(n / 10), DigitChar(n % 10)]
  {
    if n < 10 {
      assert DigitChar(0) == '0';
    } else {
      assert Decimal(n) == Decimal(n / 10) + [DigitChar(n % 10)];
    }
  }

  lemma DigitRoundTrip(c: char)
    requires IsDigit(c)
    ensures DigitChar(DigitValue(c)) == c
  {
  }

  lemma FourDigitArith(a: int, b: int, c: int, e: int)
    requires 0 <= a < 10 && 0 <= b < 10 && 0 <= c < 10 && 0 <= e < 10
    ensures var y := 1000 * a + 100 * b + 10 * c + e;
      y / 1000 == a && y / 100 % 10 == b && y / 10 % 10 == c && y % 10 == e
  {
    var y := 1000 * a + 100 * b + 10 * c + e;
    assert y == (10 * (10 * a + b) + c) * 10 + e;
    assert y / 10 == 10 * (10 * a + b) + c;
    assert y / 100 == 10 * a + b;
  }

  lemma YearDigits(s: string)
    requires Canonical(s) && 1000 <= YearField(s)
    ensures Decimal(YearField(s)) == s[7..11]
  {
    var y := YearField(s);
    DecimalFourDigits(y);
    FourDigitArith(DigitValue(s[7]), DigitValue(s[8]), DigitValue(s[9]), DigitValue(s[10]));
    DigitRoundTrip(s[7]); DigitRoundTrip(s[8]); DigitRoundTrip(s[9]); DigitRoundTrip(s[10]);
  }

  lemma DayDigits(s: string)
    requires Canonical(s)
    ensures Pad2(DayField(s)) == s[0..2]
  {
    var d := DayField(s);
    Pad2Digits(d);
    DigitRoundTrip(s[0]); DigitRoundTrip(s[1]);
    assert d / 10 == DigitValue(s[0]) && d % 10 == DigitValue(s[1]);
  }

  /** `formatDate(parseDate(s)) == s` for a well-formed date string. */
  lemma FormatParseRoundTrip(s: string)
    requires WellFormedDate(s)
    ensures ParseDate(s).Some? && FormatDate(ParseDate(s).value) == s
  {
    var y, m, d := YearField(s), GetMonthNumber(s[3..6]).value, DayField(s);
    AddDaysWithinMonth(y, m, d);
    assert ParseDate(s).value == Ymd(y, m, d);
    YearDigits(s);
    DayDigits(s);
    assert FormatDate(Ymd(y, m, d)) == s[0..2] + [s[2]] + s[3..6] + [s[6]] + s[7..11];
    assert s == s[0..2] + [s[2]] + s[3..6] + [s[6]] + s[7..11];
  }

  lemma FormatFields(d: Date)
    requires 1000 <= d.year <= 9999
    ensures var s := FormatDate(d);
      Canonical(s) && s[3..6] == MonthAbbrev(d.month) && DayField(s) == d.day && YearField(s) == d.year
  {
    var s := FormatDate(d);
    var y, n := d.year, d.day;
    DecimalFourDigits(y);
    Pad2Digits(n);
    assert s == [DigitChar(n / 10), DigitChar(n % 10), ' '] + MonthAbbrev(d.month) + [' ']
              + [DigitChar(y / 1000), DigitChar(y / 100 % 10), DigitChar(y / 10 % 10), DigitChar(y % 10)];
    GetMonthNumberOfAbbrev(d.month);
    assert s[3..6] == MonthAbbrev(d.month);
    assert DayField(s) == 10 * (n / 10) + n % 10;
    assert YearField(s) == 1000 * (y / 1000) + 100 * (y / 100 % 10) + 10 * (y / 10 % 10) + y % 10;
  }

  /** `parseDate(formatDate(d)) == d` for every date of a four-digit year. */
  lemma ParseFormatRoundTrip(d: Date)
    requires 1000 <= d.year <= 9999
    ensures ParseDate(FormatDate(d)) == Some(d)
  {
    FormatFields(d);
    GetMonthNumberOfAbbrev(d.month);
    AddDaysWithinMonth(d.year, d.month, d.day);
  }

  /** Distinct dates of four-digit years have distinct labels. */
  lemma FormatDateInjective(a: Date, b: Date)
    requires 1000 <= a.year <= 9999 && 1000 <= b.year <= 9999
    ensures FormatDate(a) == FormatDate(b) <==> a == b
  {
    ParseFormatRoundTrip(a);
    ParseFormatRoundTrip(b);
  }
}

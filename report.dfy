/**
 * The dashboard around the three generators: `getData()` picks the report
 * of the current view, `calculateSummary` totals it, and the guest-list
 * modal finds a row of the report by its label.
 */
module Dashboard {
  import opened Wrappers
  import opened Calendar
  import opened Metrics
  import opened Periods
  import opened DailyReport
  import opened WeeklyReport
  import opened MonthlyReport
  import opened ReportSummary

  /** The three reports the view buttons select. */
  datatype View = DailyView | WeeklyView | MonthlyView

  /** `switch (viewType)`: `'weekly'` and `'monthly'` select their reports; `'daily'` and anything else the daily one. */
  function ViewOf(viewType: string): View {
    if viewType == "weekly" then WeeklyView else if viewType == "monthly" then MonthlyView else DailyView
  }

  /**
   * The range a generator reads from `dateFrom` and `dateTo`, or `None` when
   * either does not parse (`if (!startDate || !endDate) return []`). The
   * daily generator also reads an empty string as no date.
   */
  function RangeOf(v: View, dateFrom: string, dateTo: string): Option<(Date, Date)> {
    var from := if v == DailyView && dateFrom == "" then None else ParseDate(dateFrom);
    var to := if v == DailyView && dateTo == "" then None else ParseDate(dateTo);
    if from.Some? && to.Some? then Some((from.value, to.value)) else None
  }

  /** The report a view generates for a parsed range. */
  function ReportRows(v: View, st: Settings, from: Date, to: Date): seq<Row> {
    match v
    case DailyView => DailyData(st, from, to)
    case WeeklyView => WeeklyData(st, from, to)
    case MonthlyView => MonthlyData(st, from, to)
  }

  /** `getData()` under the settings `st` and the date fields `dateFrom` and `dateTo`. */
  function GetDataOf(viewType: string, st: Settings, dateFrom: string, dateTo: string): seq<Row> {
    var v := ViewOf(viewType);
    match RangeOf(v, dateFrom, dateTo)
    case None => []
    case Some((from, to)) => ReportRows(v, st, from, to)
  }

  /** The empty string is no date, so the daily generator's extra test agrees with the others' parse. */
  lemma RangeOfViews(v: View, dateFrom: string, dateTo: string)
    ensures RangeOf(v, dateFrom, dateTo) == RangeOf(WeeklyView, dateFrom, dateTo)
  {
    assert !Canonical("");
  }

  // ---------------------------------------------------------------------------
  // What a view shows

  /**
   * A view shows no row exactly when a date does not parse or the range is
   * reversed; any other range gives each view at least one row.
   */
  lemma GetDataEmpty(viewType: string, st: Settings, dateFrom: string, dateTo: string)
    requires ParseDate(dateFrom).Some? && ParseDate(dateTo).Some? && ViewOf(viewType) == MonthlyView ==>
               100 <= ParseDate(dateFrom).value.year && 100 <= ParseDate(dateTo).value.year
    ensures GetDataOf(viewType, st, dateFrom, dateTo) == []
            <==> (ParseDate(dateFrom).None? || ParseDate(dateTo).None?
                  || DayNumber(ParseDate(dateTo).value) < DayNumber(ParseDate(dateFrom).value))
  {
    var v := ViewOf(viewType);
    RangeOfViews(v, dateFrom, dateTo);
    if ParseDate(dateFrom).Some? && ParseDate(dateTo).Some? {
      var from, to := ParseDate(dateFrom).value, ParseDate(dateTo).value;
      assert RangeOf(v, dateFrom, dateTo) == Some((from, to));
      match v
      case DailyView =>
        DailyDataShape(st, from, to);
      case WeeklyView =>
        WeeklyDataShape(st, from, to);
      case MonthlyView =>
        MonthlyDataShape(st, from, to);
        AbsMonthOrder(from, to);
    }
  }

  /** Under the built-in closures every view's summary sells no more than it has and is at most fully occupied. */
  lemma BuiltInSummaryBounded(v: View, st: Settings, from: Date, to: Date)
    requires st.closed == BuiltInClosedRooms
    requires v == MonthlyView ==> 100 <= from.year && 100 <= to.year
    ensures var s := CalculateSummary(ReportRows(v, st, from, to));
            && 0 <= s.occupied <= s.available
            && 0.0 <= s.occupancyPercentage <= 100.0
  {
    var rows := ReportRows(v, st, from, to);
    forall k | 0 <= k < |rows|
      ensures 0 <= rows[k].soldRooms <= rows[k].availableRooms
    {
      match v
      case DailyView => BuiltInDailyRows(st, from, to, k);
      case WeeklyView => BuiltInWeeklyRows(st, from, to, k);
      case MonthlyView => BuiltInMonthlyRows(st, from, to, k);
    }
    SummaryOccupancyBounded(rows);
  }

  /** Monthly rows carry no closed-room column, so the monthly summary shows no unavailable rooms. */
  lemma MonthlySummaryNoClosed(st: Settings, from: Date, to: Date)
    requires 100 <= from.year && 100 <= to.year
    ensures CalculateSummary(MonthlyData(st, from, to)).unavailableRooms == 0
  {
    var rows := MonthlyData(st, from, to);
    MonthlyDataShape(st, from, to);
    forall k | 0 <= k < |rows|
      ensures rows[k].unavailableRooms == None
    {
      MonthRowCounts(st, MonthSpans(from, to)[k]);
    }
    SummaryNoClosedColumn(rows);
  }

  /** Weekly rows carry no closed-room column either. */
  lemma WeeklySummaryNoClosed(st: Settings, from: Date, to: Date)
    ensures CalculateSummary(WeeklyData(st, from, to)).unavailableRooms == 0
  {
    var rows := WeeklyData(st, from, to);
    WeeklyDataShape(st, from, to);
    forall k | 0 <= k < |rows|
      ensures rows[k].unavailableRooms == None
    {
      WeekRowCounts(WeeklyStateAt(st, from, to, k), st, from, to, WeekBoundaries(from, to)[k], k);
    }
    SummaryNoClosedColumn(rows);
  }

  // ---------------------------------------------------------------------------
  // The guest-list lookup

  /**
   * Whether `row` has `key` in the field a lookup reads: daily rows (the
   * ones with a weekday) carry it as `date`, weekly and monthly rows as
   * `period`.
   */
  predicate Labelled(row: Row, key: string, daily: bool) {
    row.caption == key && row.weekday.Some? == daily
  }

  /** `rows.find(...)`: the index of the first row labelled `key`. */
  function FirstLabelled(rows: seq<Row>, key: string, daily: bool): (r: Option<nat>)
    ensures r.Some? ==> r.value < |rows| && Labelled(rows[r.value], key, daily)
                        && forall j :: 0 <= j < r.value ==> !Labelled(rows[j], key, daily)
    ensures r.None? <==> forall j :: 0 <= j < |rows| ==> !Labelled(rows[j], key, daily)
  {
    if rows == [] then None
    else if Labelled(rows[0], key, daily) then Some(0)
    else
      var rest := FirstLabelled(rows[1..], key, daily);
      if rest.Some? then Some(rest.value + 1) else None
  }

  /**
   * The row the guest-list modal shows for `selectedGuestList`: the first
   * row whose `date` is `key` in the daily view, the first whose `period`
   * is `key` in the weekly and monthly views, and none under any other view.
   */
  function FindRow(viewType: string, data: seq<Row>, key: string): Option<Row> {
    var found :=
      if viewType == "daily" then FirstLabelled(data, key, true)
      else if viewType == "weekly" || viewType == "monthly" then FirstLabelled(data, key, false)
      else None;
    match found
    case Some(i) => Some(data[i])
    case None => None
  }

  /** In a report of one kind with labels all different, looking up a row's own label finds that row. */
  lemma FindOwnLabel(viewType: string, rows: seq<Row>, k: nat)
    requires viewType == "daily" || viewType == "weekly" || viewType == "monthly"
    requires k < |rows|
    requires forall i :: 0 <= i < |rows| ==> (rows[i].weekday.Some? <==> viewType == "daily")
    requires forall i, j :: 0 <= i < j < |rows| ==> rows[i].caption != rows[j].caption
    ensures FindRow(viewType, rows, rows[k].caption) == Some(rows[k])
  {
    var r := FirstLabelled(rows, rows[k].caption, viewType == "daily");
    assert r.Some?;
  }

  /** A row found under the daily view is a daily row of that date; one found under the others is a period row of that label. */
  lemma FindRowFound(viewType: string, data: seq<Row>, key: string)
    requires FindRow(viewType, data, key).Some?
    ensures viewType == "daily" || viewType == "weekly" || viewType == "monthly"
    ensures FindRow(viewType, data, key).value in data
    ensures Labelled(FindRow(viewType, data, key).value, key, viewType == "daily")
  {
  }

  /** A date no later than another is in the same or an earlier year. */
  lemma YearOrder(a: Date, b: Date)
    requires DayNumber(a) <= DayNumber(b)
    ensures a.year <= b.year
  {
    AbsMonthOrder(a, b);
    AbsMonthYear(a, b);
  }

  /** The daily report's labels are its days' dates, all different within four-digit years. */
  lemma DailyLabelsDistinct(st: Settings, from: Date, to: Date, i: nat, j: nat)
    requires 1000 <= from.year && to.year <= 9999
    requires i < j < |DailyData(st, from, to)|
    ensures DailyData(st, from, to)[i].caption != DailyData(st, from, to)[j].caption
  {
    DailyDataShape(st, from, to);
    var di, dj := AddDays(from, i), AddDays(from, j);
    AddDaysNumber(from, i);
    AddDaysNumber(from, j);
    YearOrder(from, di);
    YearOrder(dj, to);
    YearOrder(di, dj);
    DailyRowCounts(DailyStateAt(st, from, to, i), st, di, i);
    DailyRowCounts(DailyStateAt(st, from, to, j), st, dj, j);
    FormatDateInjective(di, dj);
  }

  /** In the daily view, the guest list of any row of the report is that row's. */
  lemma DailyLookup(st: Settings, from: Date, to: Date, k: nat)
    requires 1000 <= from.year && to.year <= 9999
    requires k < |DailyData(st, from, to)|
    ensures FindRow("daily", DailyData(st, from, to), DailyData(st, from, to)[k].caption) == Some(DailyData(st, from, to)[k])
  {
    var rows := DailyData(st, from, to);
    DailyDataShape(st, from, to);
    forall i | 0 <= i < |rows|
      ensures rows[i].weekday.Some?
    {
      DailyRowCounts(DailyStateAt(st, from, to, i), st, AddDays(from, i), i);
    }
    forall i, j | 0 <= i < j < |rows|
      ensures rows[i].caption != rows[j].caption
    {
      DailyLabelsDistinct(st, from, to, i, j);
    }
    FindOwnLabel("daily", rows, k);
  }

  // ---------------------------------------------------------------------------
  // getData

  /** A generator's start: parse both dates, and return no rows unless both parse. */
  method GenerateFor(v: View, st: Settings, dateFrom: string, dateTo: string) returns (data: seq<Row>)
    ensures data == (match RangeOf(v, dateFrom, dateTo) case None => [] case Some((from, to)) => ReportRows(v, st, from, to))
  {
    var startDate := if v == DailyView && dateFrom == "" then None else ParseDate(dateFrom);
    var endDate := if v == DailyView && dateTo == "" then None else ParseDate(dateTo);
    if startDate.None? || endDate.None? {
      return [];
    }
    match v
    case DailyView => data := GenerateDailyData(st, startDate.value, endDate.value);
    case WeeklyView => data := GenerateWeeklyData(st, startDate.value, endDate.value);
    case MonthlyView => data := GenerateMonthlyData(st, startDate.value, endDate.value);
  }

  /** `getData()`: the switch on `viewType`, its default the daily report. */
  method GetData(viewType: string, st: Settings, dateFrom: string, dateTo: string) returns (data: seq<Row>)
    ensures data == GetDataOf(viewType, st, dateFrom, dateTo)
  {
    if viewType == "daily" {
      data := GenerateFor(DailyView, st, dateFrom, dateTo);
    } else if viewType == "weekly" {
      data := GenerateFor(WeeklyView, st, dateFrom, dateTo);
    } else if viewType == "monthly" {
      data := GenerateFor(MonthlyView, st, dateFrom, dateTo);
    } else {
      data := GenerateFor(DailyView, st, dateFrom, dateTo);
    }
  }
}

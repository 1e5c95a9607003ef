/**
 * `generateMonthlyData`: one row per calendar month from the month of `from`
 * through the month of `to` that has days in the range, each month clipped
 * to the range. Unlike the weekly report, every month draws its roster from
 * a stream of its own, seeded with 789 plus the month's index, and its rate
 * and price come from fixed tables, so a month's row depends on nothing
 * outside the month.
 */
module MonthlyReport {
  import opened Wrappers
  import opened Calendar
  import opened Rooms
  import opened Lcg
  import opened ClosedRooms
  import opened Periods
  import opened Roster
  import opened Metrics

  // ---------------------------------------------------------------------------
  // Closed room nights of a month

  /** The number of days from `d` through `end`. */
  function DaysThrough(d: Date, end: Date): int {
    MaxInt(0, DayNumber(end) - DayNumber(d) + 1)
  }

  /** `totalUnavailableRoomNights` of the days `d` through `end`; the span is already clipped, so no day is compared with the range. */
  function ClosedNightsThrough(st: Settings, d: Date, end: Date): int
    decreases DayNumber(end) - DayNumber(d) + 1
  {
    if DayNumber(end) < DayNumber(d) then 0
    else
      NextDayNumber(d);
      Unavailable(st, d) + ClosedNightsThrough(st, NextDay(d), end)
  }

  /** The closed room nights of a month's span. */
  function MonthClosedNights(st: Settings, m: MonthSpan): int {
    ClosedNightsThrough(st, m.start, m.end)
  }

  lemma {:induction false} ClosedNightsThroughNonNegative(st: Settings, d: Date, end: Date)
    ensures 0 <= ClosedNightsThrough(st, d, end)
    decreases DayNumber(end) - DayNumber(d) + 1
  {
    if DayNumber(end) >= DayNumber(d) {
      NextDayNumber(d);
      ClosedNightsThroughNonNegative(st, NextDay(d), end);
      UnavailableCountBounds(st.closed, st.includeClosed, d, st.filter);
    }
  }

  /** Each day closes at most the list's length of rooms. */
  lemma {:induction false} ClosedNightsThroughAtMost(st: Settings, d: Date, end: Date)
    ensures ClosedNightsThrough(st, d, end) <= |st.closed| * DaysThrough(d, end)
    decreases DayNumber(end) - DayNumber(d) + 1
  {
    if DayNumber(end) >= DayNumber(d) {
      NextDayNumber(d);
      ClosedNightsThroughAtMost(st, NextDay(d), end);
      UnavailableCountBounds(st.closed, st.includeClosed, d, st.filter);
      NightsStep(Unavailable(st, d), |st.closed|, ClosedNightsThrough(st, NextDay(d), end),
                 DaysThrough(NextDay(d), end), DaysThrough(d, end));
    }
  }

  /** One more day adds at most `k` to a total of at most `k` a day. */
  lemma NightsStep(x: int, k: int, rest: int, n: int, n1: int)
    requires x <= k && rest <= k * n && n1 == n + 1
    ensures x + rest <= k * n1
  {
  }

  /** With the check box cleared, no day of a month counts a closed room. */
  lemma {:induction false} ClosedNightsThroughExcluded(st: Settings, d: Date, end: Date)
    requires !st.includeClosed
    ensures ClosedNightsThrough(st, d, end) == 0
    decreases DayNumber(end) - DayNumber(d) + 1
  {
    if DayNumber(end) >= DayNumber(d) {
      NextDayNumber(d);
      ClosedNightsThroughExcluded(st, NextDay(d), end);
      UnavailableCountBounds(st.closed, st.includeClosed, d, st.filter);
    }
  }

  /** A span whose day count is the number of days from its start through its end, as `getDaysInRange(monthStart, monthEnd, monthStart, monthEnd)` gives it. */
  predicate Clipped(m: MonthSpan) {
    m.days == DaysThrough(m.start, m.end)
  }

  lemma MonthSpanClipped(cur: Date, from: Date, to: Date)
    ensures Clipped(MonthSpanOf(cur, from, to))
  {
  }

  /** A month's closed nights: at most the list's length for each of its days, and none with the check box cleared. */
  lemma MonthClosedNightsBounds(st: Settings, m: MonthSpan)
    requires Clipped(m)
    ensures 0 <= MonthClosedNights(st, m) <= |st.closed| * m.days
    ensures !st.includeClosed ==> MonthClosedNights(st, m) == 0
  {
    ClosedNightsThroughNonNegative(st, m.start, m.end);
    ClosedNightsThroughAtMost(st, m.start, m.end);
    if !st.includeClosed {
      ClosedNightsThroughExcluded(st, m.start, m.end);
    }
  }

  // ---------------------------------------------------------------------------
  // One month

  /** `adjustedAvailableRoomNights = capacity * daysInMonth - totalUnavailableRoomNights`, an integer here. */
  function MonthAvailable(st: Settings, m: MonthSpan): int {
    Capacity(st.filter) * m.days - MonthClosedNights(st, m)
  }

  /** With the built-in list at most three rooms close a day, so every day in range keeps at least one room. */
  lemma BuiltInMonthAvailable(st: Settings, m: MonthSpan)
    requires st.closed == BuiltInClosedRooms && Clipped(m)
    ensures m.days <= MonthAvailable(st, m) <= Capacity(st.filter) * m.days
  {
    MonthClosedNightsBounds(st, m);
    assert 4 <= Capacity(st.filter);
    RoomNightsLeft(Capacity(st.filter), |st.closed|, m.days, MonthClosedNights(st, m));
  }

  /** `revenue`: the month's price times the sold nights, taxed, to the cent (`toFixed(2)`). */
  function MonthRevenue(adr: real, sold: int, tax: bool): real {
    RoundCents(adr * sold as real * TaxFactor(tax))
  }

  /** JavaScript's `x / y`: `None` stands for the NaN or Infinity a zero divisor gives. */
  function JsDivide(x: real, y: real): (r: Option<real>)
    ensures r.None? <==> y == 0.0
    ensures r.Some? ==> r.value * y == x
  {
    if y == 0.0 then None else Some(x / y)
  }

  /**
   * `occupancyPercentage` and `revPAR` as the monthly loop writes them:
   * `soldRoomNights / adjustedAvailableRoomNights * 100` and
   * `revenue / adjustedAvailableRoomNights`, with no guard on the divisor.
   */
  function MonthRatiosAsWritten(sold: int, revenue: real, a: int): (Option<real>, Option<real>) {
    var occupancy := JsDivide(sold as real, a as real);
    (if occupancy.Some? then Some(occupancy.value * 100.0) else None, JsDivide(revenue, a as real))
  }

  /** The same two ratios with the `> 0` guard the daily and weekly rows carry: 0 when no night is available. */
  function MonthRatios(sold: int, revenue: real, a: int): (real, real) {
    (Share(sold as real, a as real) * 100.0, Share(revenue, a as real))
  }

  /**
   * Whenever nights are available the guard changes nothing. With no nights the
   * written ratios are NaN or Infinity. With fewer available nights than none
   * (more closed nights than room nights) they are ordinary negative quotients,
   * where the guarded ones are 0.
   */
  lemma MonthRatiosAgree(sold: int, revenue: real, a: int)
    ensures a > 0 ==> MonthRatiosAsWritten(sold, revenue, a)
                      == (Some(MonthRatios(sold, revenue, a).0), Some(MonthRatios(sold, revenue, a).1))
    ensures a == 0 ==> MonthRatiosAsWritten(sold, revenue, a) == (None, None) && MonthRatios(sold, revenue, a) == (0.0, 0.0)
    ensures a < 0 ==> MonthRatiosAsWritten(sold, revenue, a) == (Some(sold as real / a as real * 100.0), Some(revenue / a as real))
                      && MonthRatios(sold, revenue, a) == (0.0, 0.0)
  {
  }

  /** `periodLabel`: month name and year, with `" (N days)"` when the range holds fewer days than the month has. */
  function MonthCaption(m: MonthSpan): string {
    var name := MonthName(m.monthIndex) + " " + IntToString(m.year);
    if m.days < m.monthLength then name + DaysSuffix(m.days) else name
  }

  /** The month's roster: `min(30, guestsTotal)` records from a stream seeded with `789 + monthIndex`. */
  function MonthGuests(st: Settings, m: MonthSpan, sold: int): (seq<GuestRecord>, nat) {
    PeriodGuests(MonthlySeed(m.monthIndex), st.filter, MonthlyPools, MonthlyMaxStay, MonthRoster, m.start, m.days, m.monthIndex,
                 MinInt(30, GuestsFor(sold)))
  }

  /** The row of a month captioned `caption` with `a` available nights, `sold` nights sold and roster `guests`. */
  function MonthFigures(st: Settings, caption: string, mi: nat, a: int, sold: int, guests: seq<GuestRecord>): Row {
    PricedFigures(st, caption, MonthlyAdr(mi), a, sold, guests)
  }

  /** The same row at the nightly price `adr`. */
  function PricedFigures(st: Settings, caption: string, adr: real, a: int, sold: int, guests: seq<GuestRecord>): Row {
    var revenue := MonthRevenue(adr, sold, st.revIncludesTax);
    var ratios := MonthRatios(sold, revenue, a);
    Row(caption, None, a, sold, GuestsFor(sold), ratios.0, ratios.1, adr, revenue, None, guests)
  }

  /** The row of month `m` once its available and sold nights are known. */
  function MonthRowOf(st: Settings, m: MonthSpan, a: int, sold: int): Row {
    MonthFigures(st, MonthCaption(m), m.monthIndex, a, sold, MonthGuests(st, m, sold).0)
  }

  /** The row of month `m` with `a` available nights sold at occupancy `rate`: `Math.round(a * rate)` nights. */
  function MonthRowAt(st: Settings, m: MonthSpan, a: int, rate: real): Row {
    MonthRowOf(st, m, a, JsRound(a as real * rate))
  }

  /** The month's row: the table rate of its month sells the rounded share of its available nights. */
  function MonthRow(st: Settings, m: MonthSpan): Row {
    MonthRowAt(st, m, MonthAvailable(st, m), MonthlyOccupancy(m.monthIndex))
  }

  // ---------------------------------------------------------------------------
  // What a month's row holds

  /**
   * The counts and label of month `m` with `a` available and `sold` sold
   * nights: 1.6 guests per sold night, rounded down; no weekday and no
   * closed-room column; the bare month name and year exactly when the whole
   * month is in range, with `" (N days)"` otherwise.
   */
  predicate MonthCountsAgree(row: Row, m: MonthSpan, a: int, sold: int) {
    && row.availableRooms == a
    && row.soldRooms == sold
    && row.guests == GuestsFor(sold)
    && row.weekday == None && row.unavailableRooms == None
    && (row.caption == MonthName(m.monthIndex) + " " + IntToString(m.year) <==> m.days >= m.monthLength)
    && (m.days < m.monthLength ==> row.caption == MonthName(m.monthIndex) + " " + IntToString(m.year) + DaysSuffix(m.days))
  }

  /**
   * How a month's money columns hang together: ADR is the month's table
   * price, revenue the price times the sold nights, taxed and rounded to the
   * cent; occupancy and RevPAR are shares of the available nights, and 0 when
   * there are none.
   */
  predicate MonthMoneyAgrees(row: Row, mi: nat, tax: bool) {
    row.adr == MonthlyAdr(mi) && RowMoneyAgrees(row, tax)
  }

  /** The money columns of a row against its own price and counts. */
  predicate RowMoneyAgrees(row: Row, tax: bool) {
    && row.revenue == MonthRevenue(row.adr, row.soldRooms, tax)
    && (row.availableRooms > 0 ==>
          && row.occupancyPercentage == row.soldRooms as real / row.availableRooms as real * 100.0
          && row.revPAR == row.revenue / row.availableRooms as real)
    && (row.availableRooms <= 0 ==> row.occupancyPercentage == 0.0 && row.revPAR == 0.0)
  }

  /**
   * A month's roster: `min(30, guests)` records, the `j`-th with id
   * `month-guest-<monthIndex>-<j>`, each a valid record of the filter's rooms
   * checking in on one of the month's days in range (the offset counts from
   * the clipped month start) and staying 1 to 7 nights, so possibly past the
   * month's end.
   */
  predicate MonthRosterOk(row: Row, st: Settings, m: MonthSpan) {
    && |row.guestDetails| == MaxInt(0, MinInt(30, row.guests))
    && forall j :: 0 <= j < |row.guestDetails| ==>
         && RecordOk(row.guestDetails[j], st.filter, MonthlyPools)
         && PeriodStayOk(row.guestDetails[j], m.start, m.days, MonthlyMaxStay)
         && row.guestDetails[j].id == GuestId(MonthRoster, m.monthIndex, j)
  }

  lemma MonthRowOfCounts(st: Settings, m: MonthSpan, a: int, sold: int)
    ensures MonthCountsAgree(MonthRowOf(st, m, a, sold), m, a, sold)
  {
    var name := MonthName(m.monthIndex) + " " + IntToString(m.year);
    if m.days < m.monthLength {
      assert |MonthCaption(m)| > |name|;
    }
  }

  lemma MonthFiguresMoney(st: Settings, caption: string, mi: nat, a: int, sold: int, guests: seq<GuestRecord>)
    ensures MonthMoneyAgrees(MonthFigures(st, caption, mi, a, sold, guests), mi, st.revIncludesTax)
  {
    PricedFiguresMoney(st, caption, MonthlyAdr(mi), a, sold, guests);
  }

  lemma PricedFiguresMoney(st: Settings, caption: string, adr: real, a: int, sold: int, guests: seq<GuestRecord>)
    ensures RowMoneyAgrees(PricedFigures(st, caption, adr, a, sold, guests), st.revIncludesTax)
  {
    RatiosGuarded(sold, MonthRevenue(adr, sold, st.revIncludesTax), a);
  }

  lemma RatiosGuarded(sold: int, revenue: real, a: int)
    ensures a > 0 ==> MonthRatios(sold, revenue, a) == (sold as real / a as real * 100.0, revenue / a as real)
    ensures a <= 0 ==> MonthRatios(sold, revenue, a) == (0.0, 0.0)
  {
  }

  lemma MonthRowOfMoney(st: Settings, m: MonthSpan, a: int, sold: int)
    ensures MonthMoneyAgrees(MonthRowOf(st, m, a, sold), m.monthIndex, st.revIncludesTax)
  {
    MonthFiguresMoney(st, MonthCaption(m), m.monthIndex, a, sold, MonthGuests(st, m, sold).0);
  }

  lemma MonthRowOfRoster(st: Settings, m: MonthSpan, a: int, sold: int)
    requires m.days > 0
    ensures MonthRosterOk(MonthRowOf(st, m, a, sold), st, m)
  {
    PeriodGuestsOk(MonthlySeed(m.monthIndex), st.filter, MonthlyPools, MonthlyMaxStay, MonthRoster, m.start, m.days, m.monthIndex,
                   MinInt(30, GuestsFor(sold)));
  }

  /** Revenue lies within half a cent of the price times the sold nights, taxed, and is never negative for a sale. */
  lemma MonthRevenueNearExact(adr: real, sold: int, tax: bool)
    requires 0.0 <= adr && 0 <= sold
    ensures -0.005 <= MonthRevenue(adr, sold, tax) - adr * sold as real * TaxFactor(tax) <= 0.005
    ensures 0.0 <= MonthRevenue(adr, sold, tax)
  {
    assert 0.0 <= adr * sold as real;
    RoundCentsClose(adr * sold as real * TaxFactor(tax));
  }

  /** Selling between none and all of the available nights keeps occupancy a percentage. */
  lemma MonthOccupancyBounded(row: Row, mi: nat, tax: bool)
    requires MonthMoneyAgrees(row, mi, tax)
    requires 0 <= row.soldRooms <= row.availableRooms
    ensures 0.0 <= row.occupancyPercentage <= 100.0
  {
    if row.availableRooms > 0 {
      ShareAtMostOne(row.soldRooms as real, row.availableRooms as real);
    }
  }

  // ---------------------------------------------------------------------------
  // The row of a month of the range

  /** The counts of month `m` at rate `rate`: it sells the rounded share the rate gives of its `a` nights. */
  lemma MonthRowAtCounts(st: Settings, m: MonthSpan, a: int, rate: real)
    ensures MonthCountsAgree(MonthRowAt(st, m, a, rate), m, a, JsRound(a as real * rate))
  {
    MonthRowOfCounts(st, m, a, JsRound(a as real * rate));
  }

  lemma MonthRowAtMoney(st: Settings, m: MonthSpan, a: int, rate: real)
    ensures MonthMoneyAgrees(MonthRowAt(st, m, a, rate), m.monthIndex, st.revIncludesTax)
  {
    MonthRowOfMoney(st, m, a, JsRound(a as real * rate));
  }

  lemma MonthRowAtRoster(st: Settings, m: MonthSpan, a: int, rate: real)
    requires m.days > 0
    ensures MonthRosterOk(MonthRowAt(st, m, a, rate), st, m)
  {
    MonthRowOfRoster(st, m, a, JsRound(a as real * rate));
  }

  /** The counts of month `m`: its available nights are `MonthAvailable`, and it sells the rounded share its table rate gives of them. */
  lemma MonthRowCounts(st: Settings, m: MonthSpan)
    ensures MonthCountsAgree(MonthRow(st, m), m, MonthAvailable(st, m),
                             JsRound(MonthAvailable(st, m) as real * MonthlyOccupancy(m.monthIndex)))
  {
    MonthRowAtCounts(st, m, MonthAvailable(st, m), MonthlyOccupancy(m.monthIndex));
  }

  lemma MonthRowMoney(st: Settings, m: MonthSpan)
    ensures MonthMoneyAgrees(MonthRow(st, m), m.monthIndex, st.revIncludesTax)
  {
    MonthRowAtMoney(st, m, MonthAvailable(st, m), MonthlyOccupancy(m.monthIndex));
  }

  lemma MonthRowRoster(st: Settings, m: MonthSpan)
    requires m.days > 0
    ensures MonthRosterOk(MonthRow(st, m), st, m)
  {
    MonthRowAtRoster(st, m, MonthAvailable(st, m), MonthlyOccupancy(m.monthIndex));
  }

  /** With the built-in list a month of the range keeps at least one room a day, sells no more than it has, and is at most fully occupied. */
  lemma BuiltInMonthRow(st: Settings, m: MonthSpan)
    requires st.closed == BuiltInClosedRooms && Clipped(m) && m.days > 0
    ensures var row := MonthRow(st, m);
            && m.days <= row.availableRooms
            && 0 <= row.soldRooms <= row.availableRooms
            && 0.0 <= row.occupancyPercentage <= 100.0
  {
    BuiltInMonthAvailable(st, m);
    MonthlyTablesBounds(m.monthIndex);
    SoldWithin(MonthAvailable(st, m), MonthlyOccupancy(m.monthIndex));
    MonthRowCounts(st, m);
    MonthRowMoney(st, m);
    MonthOccupancyBounded(MonthRow(st, m), m.monthIndex, st.revIncludesTax);
  }

  /** With the built-in list the unguarded division never meets a zero: the written ratios are the row's. */
  lemma BuiltInRatiosAsWritten(st: Settings, m: MonthSpan)
    requires st.closed == BuiltInClosedRooms && Clipped(m) && m.days > 0
    ensures var row := MonthRow(st, m);
            MonthRatiosAsWritten(row.soldRooms, row.revenue, row.availableRooms) == (Some(row.occupancyPercentage), Some(row.revPAR))
  {
    BuiltInMonthAvailable(st, m);
    MonthRowCounts(st, m);
    var row := MonthRow(st, m);
    MonthRatiosAgree(row.soldRooms, row.revenue, row.availableRooms);
  }

  /**
   * A month wholly inside two ranges has the same span, and so the same row,
   * in both reports: its figures and its roster draw on nothing outside it.
   */
  lemma MonthRowIndependent(st: Settings, c: Date, from: Date, to: Date, from': Date, to': Date)
    requires c.day == 1 && 100 <= c.year
    requires DayNumber(from) <= DayNumber(c) && DayNumber(LastOfMonth(c)) <= DayNumber(to)
    requires DayNumber(from') <= DayNumber(c) && DayNumber(LastOfMonth(c)) <= DayNumber(to')
    ensures MonthSpanOf(c, from, to) == MonthSpanOf(c, from', to')
    ensures MonthRow(st, MonthSpanOf(c, from, to)) == MonthRow(st, MonthSpanOf(c, from', to'))
  {
    MonthSpanInside(c, from, to);
    MonthSpanInside(c, from', to');
  }

  // ---------------------------------------------------------------------------
  // The whole range

  /** What one month adds to the report: its row when it has days in range (`if (daysInMonth > 0)`), nothing otherwise. */
  function MonthEntry(st: Settings, m: MonthSpan): seq<Row> {
    if m.days > 0 then [MonthRow(st, m)] else []
  }

  function MonthlyRows(st: Settings, spans: seq<MonthSpan>): seq<Row> {
    if spans == [] then [] else MonthEntry(st, spans[0]) + MonthlyRows(st, spans[1..])
  }

  /** `generateMonthlyData()` on a parsed range. */
  function MonthlyData(st: Settings, from: Date, to: Date): seq<Row> {
    MonthlyRows(st, MonthSpans(from, to))
  }

  lemma {:induction false} MonthlyRowsSkipped(st: Settings, spans: seq<MonthSpan>)
    requires forall i :: 0 <= i < |spans| ==> spans[i].days == 0
    ensures MonthlyRows(st, spans) == []
  {
    if spans != [] {
      MonthlyRowsSkipped(st, spans[1..]);
    }
  }

  lemma {:induction false} MonthlyRowsKept(st: Settings, spans: seq<MonthSpan>)
    requires forall i :: 0 <= i < |spans| ==> spans[i].days > 0
    ensures |MonthlyRows(st, spans)| == |spans|
  {
    if spans != [] {
      MonthlyRowsKept(st, spans[1..]);
    }
  }

  lemma {:induction false} MonthlyRowsKeptAt(st: Settings, spans: seq<MonthSpan>, k: nat)
    requires forall i :: 0 <= i < |spans| ==> spans[i].days > 0
    requires k < |spans|
    ensures |MonthlyRows(st, spans)| == |spans|
    ensures MonthlyRows(st, spans)[k] == MonthRow(st, spans[k])
    decreases k
  {
    MonthlyRowsKept(st, spans);
    var rest := spans[1..];
    assert spans == [spans[0]] + rest;
    MonthlyRowsCons(st, spans[0], rest);
    assert MonthEntry(st, spans[0]) == [MonthRow(st, spans[0])];
    if k > 0 {
      assert forall i :: 0 <= i < |rest| ==> rest[i].days > 0 by {
        forall i | 0 <= i < |rest| ensures rest[i].days > 0 {
          assert rest[i] == spans[i + 1];
        }
      }
      MonthlyRowsKeptAt(st, rest, k - 1);
      assert rest[k - 1] == spans[k];
    }
  }

  /**
   * Monthly report: no row for a reversed range; for a range in order, one
   * row per calendar month from the month of `from` through that of `to`,
   * the `k`-th being the row of the `k`-th clipped month.
   */
  lemma MonthlyDataShape(st: Settings, from: Date, to: Date)
    requires 100 <= from.year && 100 <= to.year
    ensures DayNumber(to) < DayNumber(from) ==> MonthlyData(st, from, to) == []
    ensures DayNumber(from) <= DayNumber(to) ==>
              && |MonthlyData(st, from, to)| == |MonthSpans(from, to)| == AbsMonth(to) - AbsMonth(from) + 1
              && forall k :: 0 <= k < |MonthlyData(st, from, to)| ==>
                   MonthlyData(st, from, to)[k] == MonthRow(st, MonthSpans(from, to)[k])
  {
    var spans := MonthSpans(from, to);
    MonthSpansShape(from, to);
    if DayNumber(to) < DayNumber(from) {
      MonthlyRowsSkipped(st, spans);
    } else {
      AbsMonthOrder(from, to);
      MonthlyRowsKept(st, spans);
      forall k | 0 <= k < |MonthlyData(st, from, to)|
        ensures MonthlyData(st, from, to)[k] == MonthRow(st, spans[k])
      {
        MonthlyRowsKeptAt(st, spans, k);
      }
    }
  }

  /** Every month the report computes is clipped to the range. */
  lemma MonthSpansClipped(from: Date, to: Date, k: nat)
    requires k < |MonthSpans(from, to)|
    ensures Clipped(MonthSpans(from, to)[k])
  {
    var cs := MonthCursors(MakeDate(from.year, from.month, 1), MakeDate(to.year, to.month + 1, 0));
    SpansOfAt(cs, from, to, k);
    MonthSpanClipped(cs[k], from, to);
  }

  /** With the built-in list, every row of the monthly report keeps at least one room a day and is at most fully occupied. */
  lemma BuiltInMonthlyRows(st: Settings, from: Date, to: Date, k: nat)
    requires st.closed == BuiltInClosedRooms
    requires 100 <= from.year && 100 <= to.year
    requires k < |MonthlyData(st, from, to)|
    ensures var row := MonthlyData(st, from, to)[k];
            && 1 <= row.availableRooms
            && 0 <= row.soldRooms <= row.availableRooms
            && 0.0 <= row.occupancyPercentage <= 100.0
  {
    MonthlyDataShape(st, from, to);
    MonthSpansShape(from, to);
    var m := MonthSpans(from, to)[k];
    MonthSpansClipped(from, to, k);
    BuiltInMonthRow(st, m);
  }

  // ---------------------------------------------------------------------------
  // A latent division by zero

  /** Standard room `n`, closed for maintenance from 1 to 10 February 2025. */
  function WingRoom(n: int): ClosedRoom {
    ClosedRoom(n, "Standard", "Maintenance", "01 Feb 2025", "10 Feb 2025")
  }

  /** The four Standard rooms, all closed from 1 to 10 February 2025. */
  const StandardWingClosed: seq<ClosedRoom> := [WingRoom(1), WingRoom(2), WingRoom(3), WingRoom(4)]

  /** Standard rooms only, closed rooms included. */
  const WingClosedSettings: Settings := Settings(OnlyType(Standard), true, false, StandardWingClosed)

  lemma WingRoomCounts(n: int)
    ensures Counts(WingRoom(n), Feb1, OnlyType(Standard))
  {
    ParsesExampleEnds();
    MatchesOneType(WingRoom(n), Standard, Standard);
  }

  lemma WingRoomAt(i: int)
    requires 0 <= i < 4
    ensures StandardWingClosed[i] == WingRoom(i + 1)
  {
  }

  lemma WingClosedOnFeb1()
    ensures Unavailable(WingClosedSettings, Feb1) == 4
  {
    var cs := StandardWingClosed;
    forall i | 0 <= i < |cs|
      ensures Counts(cs[i], Feb1, OnlyType(Standard))
    {
      WingRoomAt(i);
      WingRoomCounts(i + 1);
    }
    ClosingAll(cs, Feb1, OnlyType(Standard));
  }

  /**
   * The report for 1 February 2025 alone, Standard rooms, with the whole
   * Standard wing closed: the month has no available night, so the written
   * ratios are not numbers while the guarded row shows 0.
   */
  lemma ZeroAvailableMonth()
    ensures var m := MonthSpanOf(Feb1, Feb1, Feb1);
            var row := MonthRow(WingClosedSettings, m);
            && m.days == 1
            && MonthAvailable(WingClosedSettings, m) == 0
            && MonthRatiosAsWritten(row.soldRooms, row.revenue, row.availableRooms) == (None, None)
            && row.occupancyPercentage == 0.0 && row.revPAR == 0.0
  {
    var st, m := WingClosedSettings, MonthSpanOf(Feb1, Feb1, Feb1);
    MonthSpanOfCursor(Feb1, Feb1, Feb1);
    assert DayNumber(LastOfMonth(Feb1)) == DayNumber(Feb1) + 27;
    assert m.start == Feb1 && m.end == Feb1 && m.days == 1;
    NextDayNumber(Feb1);
    assert ClosedNightsThrough(st, NextDay(Feb1), Feb1) == 0;
    WingClosedOnFeb1();
    assert MonthAvailable(st, m) == 0;
    MonthRowCounts(st, m);
    MonthRowMoney(st, m);
    MonthRatiosAgree(MonthRow(st, m).soldRooms, MonthRow(st, m).revenue, 0);
  }

  // ---------------------------------------------------------------------------
  // The generator's loops

  /** `for (let d = new Date(monthStart); d <= monthEnd; ...)`: the closed room nights of every day of the span. */
  method MonthClosedNightsOf(st: Settings, m: MonthSpan) returns (total: int)
    ensures total == MonthClosedNights(st, m)
  {
    total := 0;
    var d := m.start;
    while DayNumber(d) <= DayNumber(m.end)
      invariant total + ClosedNightsThrough(st, d, m.end) == MonthClosedNights(st, m)
      decreases DayNumber(m.end) - DayNumber(d)
    {
      NextDayNumber(d);
      var count := GetUnavailableRoomCount(st.closed, st.includeClosed, d, st.filter);
      total := total + count;
      assert AddDays(d, 1) == NextDay(d);
      d := AddDays(d, 1);
    }
  }

  /** The closed room nights, then `adjustedAvailableRoomNights`. */
  method MonthAvailableOf(st: Settings, m: MonthSpan) returns (adjustedAvailableRoomNights: int)
    ensures adjustedAvailableRoomNights == MonthAvailable(st, m)
  {
    var totalUnavailableRoomNights := MonthClosedNightsOf(st, m);
    adjustedAvailableRoomNights := Capacity(st.filter) * m.days - totalUnavailableRoomNights;
  }

  /** The month's roster, from a fresh `seedRandom(789 + monthIndex)`. */
  method MonthRosterOf(st: Settings, m: MonthSpan, soldRoomNights: int) returns (guestDetails: seq<GuestRecord>)
    ensures guestDetails == MonthGuests(st, m, soldRoomNights).0
  {
    var random := new Generator(MonthlySeed(m.monthIndex));
    guestDetails := PeriodRoster(random, st.filter, MonthlyPools, MonthlyMaxStay, MonthRoster, m.start, m.days, m.monthIndex,
                                 MinInt(30, GuestsFor(soldRoomNights)));
  }

  /**
   * The money columns and the row of a month with `a` available and `sold`
   * sold nights; the ratios carry the guard of `MonthRatios`.
   */
  method MonthEntryFor(st: Settings, caption: string, mi: nat, a: int, sold: int, guestDetails: seq<GuestRecord>) returns (row: Row)
    ensures row == MonthFigures(st, caption, mi, a, sold, guestDetails)
  {
    var guestsTotal := GuestsFor(sold);
    var adr := MonthlyAdr(mi);
    var baseRevenue := adr * sold as real;
    var revenue := RoundCents(if st.revIncludesTax then baseRevenue * 1.1 else baseRevenue);
    assert revenue == MonthRevenue(adr, sold, st.revIncludesTax);
    var revPAR := if a > 0 then revenue / a as real else 0.0;
    var occupancyPercentage := if a > 0 then sold as real / a as real * 100.0 else 0.0;
    row := Row(caption, None, a, sold, guestsTotal, occupancyPercentage, revPAR, adr, revenue, None, guestDetails);
  }

  /** The draw of a month: `Math.round(adjustedAvailableRoomNights * occupancyRate)` sold nights, the label and the roster. */
  method MonthRowWithRate(st: Settings, m: MonthSpan, adjustedAvailableRoomNights: int, occupancyRate: real) returns (row: Row)
    ensures row == MonthRowAt(st, m, adjustedAvailableRoomNights, occupancyRate)
  {
    var soldRoomNights := JsRound(adjustedAvailableRoomNights as real * occupancyRate);
    var monthName := MonthName(m.monthIndex) + " " + IntToString(m.year);
    var periodLabel := if m.days < m.monthLength then monthName + DaysSuffix(m.days) else monthName;
    var guestDetails := MonthRosterOf(st, m, soldRoomNights);
    row := MonthEntryFor(st, periodLabel, m.monthIndex, adjustedAvailableRoomNights, soldRoomNights, guestDetails);
  }

  /** One month of the loop with days in range. */
  method BuildMonthRow(st: Settings, m: MonthSpan) returns (row: Row)
    ensures row == MonthRow(st, m)
  {
    var adjustedAvailableRoomNights := MonthAvailableOf(st, m);
    var occupancyRate := MonthlyOccupancy(m.monthIndex);
    row := MonthRowWithRate(st, m, adjustedAvailableRoomNights, occupancyRate);
  }

  lemma MonthlyRowsCons(st: Settings, m: MonthSpan, spans: seq<MonthSpan>)
    ensures MonthlyRows(st, [m] + spans) == MonthEntry(st, m) + MonthlyRows(st, spans)
  {
    assert ([m] + spans)[1..] == spans;
  }

  lemma SpansOfCons(c: Date, cs: seq<Date>, from: Date, to: Date)
    ensures SpansOf([c] + cs, from, to) == [MonthSpanOf(c, from, to)] + SpansOf(cs, from, to)
  {
    assert ([c] + cs)[1..] == cs;
  }

  /** One turn of the month loop: the month of `cur` adds its entry, then the loop goes on from the next month. */
  lemma MonthStep(st: Settings, acc: seq<Row>, cur: Date, endMonth: Date, from: Date, to: Date, target: seq<Row>)
    requires DayNumber(cur) <= DayNumber(endMonth)
    requires acc + MonthlyRows(st, SpansOf(MonthCursors(cur, endMonth), from, to)) == target
    ensures (acc + MonthEntry(st, MonthSpanOf(cur, from, to)))
            + MonthlyRows(st, SpansOf(MonthCursors(SetMonth(cur, cur.month + 1), endMonth), from, to)) == target
    ensures DayNumber(cur) < DayNumber(SetMonth(cur, cur.month + 1))
  {
    SetMonthAdvances(cur);
    var rest := MonthCursors(SetMonth(cur, cur.month + 1), endMonth);
    assert MonthCursors(cur, endMonth) == [cur] + rest;
    SpansOfCons(cur, rest, from, to);
    MonthlyRowsCons(st, MonthSpanOf(cur, from, to), SpansOf(rest, from, to));
    Reassociate(acc, MonthEntry(st, MonthSpanOf(cur, from, to)), MonthlyRows(st, SpansOf(rest, from, to)));
  }

  /** Solver aid: sequence concatenation regrouped, stated on plain variables so that the loop step does not regroup the heavy row terms. */
  lemma Reassociate(a: seq<Row>, b: seq<Row>, c: seq<Row>)
    ensures (a + b) + c == a + (b + c)
  {
  }

  /** `generateMonthlyData` once `dateFrom` and `dateTo` are parsed. */
  method GenerateMonthlyData(st: Settings, from: Date, to: Date) returns (months: seq<Row>)
    ensures months == MonthlyData(st, from, to)
  {
    var startMonth := MakeDate(from.year, from.month, 1);
    var endMonth := MakeDate(to.year, to.month + 1, 0);
    months := [];
    var currentMonth := startMonth;
    while DayNumber(currentMonth) <= DayNumber(endMonth)
      invariant months + MonthlyRows(st, SpansOf(MonthCursors(currentMonth, endMonth), from, to)) == MonthlyData(st, from, to)
      decreases DayNumber(endMonth) - DayNumber(currentMonth)
    {
      months := MonthlyTurn(st, from, to, currentMonth, endMonth, months, MonthlyData(st, from, to));
      currentMonth := SetMonth(currentMonth, currentMonth.month + 1);
    }
    MonthsDone(st, from, to, currentMonth, endMonth);
  }

  /** One turn of the month loop, with the loop's invariant carried from `currentMonth` to the next month. */
  method MonthlyTurn(st: Settings, from: Date, to: Date, currentMonth: Date, endMonth: Date, months: seq<Row>, ghost target: seq<Row>)
    returns (months': seq<Row>)
    requires DayNumber(currentMonth) <= DayNumber(endMonth)
    requires months + MonthlyRows(st, SpansOf(MonthCursors(currentMonth, endMonth), from, to)) == target
    ensures months' == months + MonthEntry(st, MonthSpanOf(currentMonth, from, to))
    ensures months' + MonthlyRows(st, SpansOf(MonthCursors(SetMonth(currentMonth, currentMonth.month + 1), endMonth), from, to)) == target
    ensures DayNumber(currentMonth) < DayNumber(SetMonth(currentMonth, currentMonth.month + 1))
  {
    MonthStep(st, months, currentMonth, endMonth, from, to, target);
    months' := MonthlyStep(st, from, to, currentMonth, months);
  }

  /** Once the cursor passes the last month no month is left. */
  lemma MonthsDone(st: Settings, from: Date, to: Date, cur: Date, endMonth: Date)
    ensures DayNumber(endMonth) < DayNumber(cur) ==> MonthlyRows(st, SpansOf(MonthCursors(cur, endMonth), from, to)) == []
  {
  }

  /** The body of the month loop for the month of `currentMonth`: clip it to the range and add its row if it has days in range. */
  method MonthlyStep(st: Settings, from: Date, to: Date, currentMonth: Date, months: seq<Row>) returns (months': seq<Row>)
    ensures months' == months + MonthEntry(st, MonthSpanOf(currentMonth, from, to))
  {
    var monthYear := currentMonth.year;
    var monthIndex := currentMonth.month;
    var monthStart := MaxDate(from, MakeDate(monthYear, monthIndex, 1));
    var monthEnd := MinDate(to, MakeDate(monthYear, monthIndex + 1, 0));
    var daysInMonth := DaysInRange(monthStart, monthEnd, monthStart, monthEnd);
    var span := MonthSpan(monthYear, monthIndex, monthStart, monthEnd, daysInMonth, MakeDate(monthYear, monthIndex + 1, 0).day);
    assert span == MonthSpanOf(currentMonth, from, to);
    if daysInMonth > 0 {
      var row := BuildMonthRow(st, span);
      months' := months + [row];
    } else {
      months' := months;
      assert months' == months + MonthEntry(st, span);
    }
  }
}

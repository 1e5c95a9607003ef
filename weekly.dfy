/**
 * `generateWeeklyData`: one row per Sunday-aligned week window that overlaps
 * the range, all drawn from one stream seeded with 456 -- the week's
 * occupancy draw first, then the week's roster. Windows that overlap the
 * range in no day are skipped without drawing.
 */
module WeeklyReport {
  import opened Wrappers
  import opened Calendar
  import opened Rooms
  import opened Lcg
  import opened ClosedRooms
  import opened Periods
  import opened Roster
  import opened Metrics

  // ---------------------------------------------------------------------------
  // Closed room nights of a window

  /** `d >= startDate && d <= endDate`. */
  predicate InRange(from: Date, to: Date, d: Date) {
    DayNumber(from) <= DayNumber(d) <= DayNumber(to)
  }

  /** `totalUnavailableRoomNights` of the days `d` through `end`: the closed rooms of the days that lie in `[from, to]`. */
  function ClosedNightsFrom(st: Settings, from: Date, to: Date, d: Date, end: Date): int
    decreases DayNumber(end) - DayNumber(d) + 1
  {
    if DayNumber(end) < DayNumber(d) then 0
    else
      NextDayNumber(d);
      (if InRange(from, to, d) then Unavailable(st, d) else 0) + ClosedNightsFrom(st, from, to, NextDay(d), end)
  }

  /** `totalUnavailableRoomNights` of window `w`. */
  function ClosedNights(st: Settings, from: Date, to: Date, w: Window): int {
    ClosedNightsFrom(st, from, to, w.start, w.end)
  }

  /** `k` for every `n` in `[lo, hi)` with `a <= n <= b`: the most rooms `k`-long lists can close on those days. */
  function WeightedCount(lo: int, hi: int, a: int, b: int, k: int): int
    decreases hi - lo
  {
    if hi <= lo then 0
    else (if a <= lo <= b then k else 0) + WeightedCount(lo + 1, hi, a, b, k)
  }

  lemma {:induction false} WeightedCountIsProduct(lo: int, hi: int, a: int, b: int, k: int)
    ensures WeightedCount(lo, hi, a, b, k) == k * CountBoth(lo, hi, a, b)
    decreases hi - lo
  {
    if hi > lo {
      WeightedCountIsProduct(lo + 1, hi, a, b, k);
      var here := if a <= lo <= b then 1 else 0;
      var rest := CountBoth(lo + 1, hi, a, b);
      assert k * (here + rest) == k * here + k * rest;
    }
  }

  /**
   * No more rooms are closed on a day than the list holds, so the nights of
   * the days in range lie between 0 and that many per day in range; none are
   * counted when closed rooms are excluded.
   */
  lemma {:induction false} ClosedNightsFromBounds(st: Settings, from: Date, to: Date, d: Date, end: Date)
    ensures 0 <= ClosedNightsFrom(st, from, to, d, end)
    decreases DayNumber(end) - DayNumber(d) + 1
  {
    if DayNumber(end) >= DayNumber(d) {
      NextDayNumber(d);
      ClosedNightsFromBounds(st, from, to, NextDay(d), end);
      UnavailableCountBounds(st.closed, st.includeClosed, d, st.filter);
    }
  }

  /** Each day in range closes at most the list's length of rooms. */
  lemma {:induction false} ClosedNightsFromAtMost(st: Settings, from: Date, to: Date, d: Date, end: Date)
    ensures ClosedNightsFrom(st, from, to, d, end)
              <= WeightedCount(DayNumber(d), DayNumber(end) + 1, DayNumber(from), DayNumber(to), |st.closed|)
    decreases DayNumber(end) - DayNumber(d) + 1
  {
    if DayNumber(end) >= DayNumber(d) {
      NextDayNumber(d);
      ClosedNightsFromAtMost(st, from, to, NextDay(d), end);
      UnavailableCountBounds(st.closed, st.includeClosed, d, st.filter);
      DayAtMost(Unavailable(st, d), |st.closed|, InRange(from, to, d), ClosedNightsFrom(st, from, to, NextDay(d), end),
                WeightedCount(DayNumber(NextDay(d)), DayNumber(end) + 1, DayNumber(from), DayNumber(to), |st.closed|));
    }
  }

  /** One day's share of the bound: a count of at most `k` on a day in range, nothing on any other. */
  lemma DayAtMost(x: int, k: int, inRange: bool, rest: int, restBound: int)
    requires x <= k && rest <= restBound
    ensures (if inRange then x else 0) + rest <= (if inRange then k else 0) + restBound
  {
  }

  /** With the check box cleared, no day of a window counts a closed room. */
  lemma {:induction false} ClosedNightsFromExcluded(st: Settings, from: Date, to: Date, d: Date, end: Date)
    requires !st.includeClosed
    ensures ClosedNightsFrom(st, from, to, d, end) == 0
    decreases DayNumber(end) - DayNumber(d) + 1
  {
    if DayNumber(end) >= DayNumber(d) {
      NextDayNumber(d);
      ClosedNightsFromExcluded(st, from, to, NextDay(d), end);
      UnavailableCountBounds(st.closed, st.includeClosed, d, st.filter);
    }
  }

  /** A window's closed nights: at most the list's length for each of its days in range. */
  lemma ClosedNightsBounds(st: Settings, from: Date, to: Date, w: Window)
    ensures 0 <= ClosedNights(st, from, to, w) <= |st.closed| * Overlap(from, to, w)
    ensures !st.includeClosed ==> ClosedNights(st, from, to, w) == 0
  {
    ClosedNightsFromBounds(st, from, to, w.start, w.end);
    ClosedNightsFromAtMost(st, from, to, w.start, w.end);
    if !st.includeClosed {
      ClosedNightsFromExcluded(st, from, to, w.start, w.end);
    }
    WeightedCountIsProduct(DayNumber(w.start), DayNumber(w.end) + 1, DayNumber(from), DayNumber(to), |st.closed|);
    DaysInRangeCounts(from, to, w.start, w.end);
  }

  // ---------------------------------------------------------------------------
  // One week

  /** `occupancyRate` of the week at index `wi` whose draw leaves the stream in state `t`. */
  function WeekRate(t: nat, wi: nat): real {
    WeeklyOccupancy(Fraction(t), wi)
  }

  /** Whatever the draw, the clamp keeps the rate between 0.5 and 0.95. */
  lemma WeekRateClamped(t: nat, wi: nat)
    ensures 0.5 <= WeekRate(t, wi) <= 0.95
  {
  }

  lemma WeekRateBounds(t: nat, wi: nat)
    requires t < Modulus
    ensures BaseOccupancy(wi % 5) - 0.05 <= WeekRate(t, wi) < BaseOccupancy(wi % 5) + 0.05
    ensures 0.63 <= WeekRate(t, wi) < 0.87
  {
    WeeklyOccupancyUnclamped(Fraction(t), wi);
  }

  /** `revenue`: ADR times the sold nights rounded to a whole amount, then the tax. */
  function WeekRevenue(st: Settings, adr: real, sold: int): real {
    JsRound(adr * sold as real) as real * TaxFactor(st.revIncludesTax)
  }

  /** `weekLabel`: the window's label, with `" (N days)"` for a partial week. */
  function WeekCaption(caption: string, days: int): string {
    if days < 7 then caption + DaysSuffix(days) else caption
  }

  /**
   * The available nights of a window that overlaps the range: its room
   * nights less its closed nights, the exact value of `AdjustedRoomNights`.
   */
  function WeekAvailable(st: Settings, from: Date, to: Date, w: Window): int {
    Capacity(st.filter) * Overlap(from, to, w) - ClosedNights(st, from, to, w)
  }

  /**
   * The row of window `w`, the `wi`-th boundary, drawn from state `s`, and the
   * state after it: the occupancy draw, then the roster.
   */
  function WeekRow(s: nat, st: Settings, from: Date, to: Date, w: Window, wi: nat): (Row, nat) {
    WeekRowWith(s, st, w, wi, Overlap(from, to, w), WeekAvailable(st, from, to, w))
  }

  /** `WeekRow` once the window's days in range and available nights are counted. */
  function WeekRowWith(s: nat, st: Settings, w: Window, wi: nat, days: int, a: int): (Row, nat) {
    var rate := WeekRate(Step(s), wi);
    WeekRowOf(Step(s), st, w, wi, days, a, rate, JsRound(a as real * rate))
  }

  /**
   * `WeekRow` once the occupancy draw has left the stream in state `t` and
   * the window's days in range, available nights, rate and sold nights are
   * known.
   */
  function WeekRowOf(t: nat, st: Settings, w: Window, wi: nat, days: int, a: int, rate: real, sold: int): (Row, nat) {
    var roster := PeriodGuests(t, st.filter, WeeklyPools, WeeklyMaxStay, WeekRoster, w.start, days, wi, MinInt(20, GuestsFor(sold)));
    (WeekFigures(st, WeekCaption(w.caption, days), wi, a, rate, sold, roster.0), roster.1)
  }

  /**
   * The row of a week captioned `caption` with `a` available nights, rate
   * `rate`, `sold` nights sold and roster `guests`. `Math.round` of the whole
   * number `a` is `a` (`JsRoundWhole`).
   */
  function WeekFigures(st: Settings, caption: string, wi: nat, a: int, rate: real, sold: int, guests: seq<GuestRecord>): Row {
    var adr := WeeklyAdr(wi, rate);
    var revenue := WeekRevenue(st, adr, sold);
    Row(caption, None, a, sold, GuestsFor(sold),
        Share(sold as real, a as real) * 100.0, Share(revenue, a as real), adr, revenue, None, guests)
  }

  /** `WeekRowOf` once its roster is drawn. */
  lemma WeekRowOfFrom(t: nat, st: Settings, w: Window, wi: nat, days: int, a: int, rate: real, sold: int, guests: seq<GuestRecord>, t2: nat)
    requires guests == PeriodGuests(t, st.filter, WeeklyPools, WeeklyMaxStay, WeekRoster, w.start, days, wi, MinInt(20, GuestsFor(sold))).0
    requires t2 == PeriodGuests(t, st.filter, WeeklyPools, WeeklyMaxStay, WeekRoster, w.start, days, wi, MinInt(20, GuestsFor(sold))).1
    ensures WeekRowOf(t, st, w, wi, days, a, rate, sold).0 == WeekFigures(st, WeekCaption(w.caption, days), wi, a, rate, sold, guests)
    ensures WeekRowOf(t, st, w, wi, days, a, rate, sold).1 == t2
  {
  }

  // ---------------------------------------------------------------------------
  // What a week's row holds

  /**
   * The counts and label of a week with `days` days in range, `a` available
   * nights and `sold` sold nights: 1.6 guests per sold night, rounded down;
   * no weekday and no closed-room column; the window's own label exactly
   * when at least seven days are in range, with `" (N days)"` otherwise.
   */
  predicate WeekCountsAgree(row: Row, w: Window, days: int, a: int, sold: int) {
    && row.availableRooms == a
    && row.soldRooms == sold
    && row.guests == GuestsFor(sold)
    && row.weekday == None && row.unavailableRooms == None
    && (row.caption == w.caption <==> days >= 7)
    && (days < 7 ==> row.caption == w.caption + DaysSuffix(days))
  }

  /** A row sells between none and all of its available nights. */
  predicate SellsWithin(row: Row) {
    0 <= row.soldRooms <= row.availableRooms
  }

  /**
   * A week's roster: `min(20, guests)` records, the `j`-th with id
   * `week-guest-<wi>-<j>`, each a valid record of the filter's rooms checking
   * in within the first `days` days counted from the window's Sunday (so
   * possibly before the range starts, when the range starts mid-week) and
   * staying 1 to 5 nights (so possibly past the window).
   */
  predicate WeekRosterOk(row: Row, st: Settings, w: Window, wi: nat, days: int) {
    && |row.guestDetails| == MaxInt(0, MinInt(20, row.guests))
    && forall j :: 0 <= j < |row.guestDetails| ==>
         && RecordOk(row.guestDetails[j], st.filter, WeeklyPools)
         && PeriodStayOk(row.guestDetails[j], w.start, days, WeeklyMaxStay)
         && row.guestDetails[j].id == GuestId(WeekRoster, wi, j)
  }

  /**
   * How a week's money columns hang together: ADR is the week's price (the
   * seasonal rate, 15 more when the week's occupancy rate tops 0.8), revenue
   * the price times the sold nights rounded, then taxed; occupancy and RevPAR
   * are shares of the available nights, and 0 when there are none.
   */
  predicate WeekMoneyAgrees(row: Row, wi: nat, rate: real, tax: bool) {
    && row.adr == WeeklyAdr(wi, rate)
    && row.revenue == JsRound(row.adr * row.soldRooms as real) as real * TaxFactor(tax)
    && (row.availableRooms > 0 ==>
          && row.occupancyPercentage == row.soldRooms as real / row.availableRooms as real * 100.0
          && row.revPAR == row.revenue / row.availableRooms as real)
    && (row.availableRooms <= 0 ==> row.occupancyPercentage == 0.0 && row.revPAR == 0.0)
  }

  lemma WeekRowOfCounts(t: nat, st: Settings, w: Window, wi: nat, days: int, a: int, rate: real, sold: int)
    ensures WeekCountsAgree(WeekRowOf(t, st, w, wi, days, a, rate, sold).0, w, days, a, sold)
  {
    var roster := PeriodGuests(t, st.filter, WeeklyPools, WeeklyMaxStay, WeekRoster, w.start, days, wi, MinInt(20, GuestsFor(sold)));
    WeekRowOfFrom(t, st, w, wi, days, a, rate, sold, roster.0, roster.1);
    var caption := WeekCaption(w.caption, days);
    if days < 7 {
      assert |caption| > |w.caption|;
    }
  }

  lemma WeekRowOfSoldWithin(t: nat, st: Settings, w: Window, wi: nat, days: int, a: int, rate: real)
    requires 0 <= a && 0.0 <= rate < 1.0
    ensures SellsWithin(WeekRowOf(t, st, w, wi, days, a, rate, JsRound(a as real * rate)).0)
  {
    WeekRowOfCounts(t, st, w, wi, days, a, rate, JsRound(a as real * rate));
    SoldWithin(a, rate);
  }

  lemma WeekRowOfRateSoldWithin(t: nat, st: Settings, w: Window, wi: nat, days: int, a: int)
    requires 0 <= a
    ensures SellsWithin(WeekRowOf(t, st, w, wi, days, a, WeekRate(t, wi), JsRound(a as real * WeekRate(t, wi))).0)
  {
    WeekRateClamped(t, wi);
    WeekRowOfSoldWithin(t, st, w, wi, days, a, WeekRate(t, wi));
  }

  lemma WeekRowOfRoster(t: nat, st: Settings, w: Window, wi: nat, days: int, a: int, rate: real, sold: int)
    requires days > 0
    ensures WeekRosterOk(WeekRowOf(t, st, w, wi, days, a, rate, sold).0, st, w, wi, days)
  {
    var n := MinInt(20, GuestsFor(sold));
    PeriodGuestsOk(t, st.filter, WeeklyPools, WeeklyMaxStay, WeekRoster, w.start, days, wi, n);
    var roster := PeriodGuests(t, st.filter, WeeklyPools, WeeklyMaxStay, WeekRoster, w.start, days, wi, n);
    WeekRowOfFrom(t, st, w, wi, days, a, rate, sold, roster.0, roster.1);
  }

  lemma WeekFiguresMoney(st: Settings, caption: string, wi: nat, a: int, rate: real, sold: int, guests: seq<GuestRecord>)
    ensures WeekMoneyAgrees(WeekFigures(st, caption, wi, a, rate, sold, guests), wi, rate, st.revIncludesTax)
  {
  }

  lemma WeekRowOfMoney(t: nat, st: Settings, w: Window, wi: nat, days: int, a: int, rate: real, sold: int)
    ensures WeekMoneyAgrees(WeekRowOf(t, st, w, wi, days, a, rate, sold).0, wi, rate, st.revIncludesTax)
  {
    var roster := PeriodGuests(t, st.filter, WeeklyPools, WeeklyMaxStay, WeekRoster, w.start, days, wi, MinInt(20, GuestsFor(sold)));
    WeekRowOfFrom(t, st, w, wi, days, a, rate, sold, roster.0, roster.1);
    WeekFiguresMoney(st, WeekCaption(w.caption, days), wi, a, rate, sold, roster.0);
  }

  /** Selling between none and all of the available nights keeps occupancy a percentage. */
  lemma WeekOccupancyBounded(row: Row, wi: nat, rate: real, tax: bool)
    requires WeekMoneyAgrees(row, wi, rate, tax)
    requires SellsWithin(row)
    ensures 0.0 <= row.occupancyPercentage <= 100.0
    ensures 235.0 <= row.adr <= 285.0 && 0.0 <= row.revenue
  {
    WeeklyAdrBounds(wi, rate);
    if row.availableRooms > 0 {
      ShareAtMostOne(row.soldRooms as real, row.availableRooms as real);
    }
    JsRoundBounds(row.adr * row.soldRooms as real);
  }

  // ---------------------------------------------------------------------------
  // The row of a window of the range

  /** `WeekRow` is `WeekRowOf` at the window's available nights, the week's rate and the rounded share it sells. */
  lemma WeekRowIsOf(s: nat, st: Settings, from: Date, to: Date, w: Window, wi: nat)
    ensures var a := WeekAvailable(st, from, to, w);
      var rate := WeekRate(Step(s), wi);
      WeekRow(s, st, from, to, w, wi) == WeekRowOf(Step(s), st, w, wi, Overlap(from, to, w), a, rate, JsRound(a as real * rate))
  {
  }

  /** `WeekRowWith` is `WeekRowOf` at the week's rate and the rounded share of `a` it sells. */
  lemma WeekRowWithIsOf(s: nat, st: Settings, w: Window, wi: nat, days: int, a: int)
    ensures WeekRowWith(s, st, w, wi, days, a)
            == WeekRowOf(Step(s), st, w, wi, days, a, WeekRate(Step(s), wi), JsRound(a as real * WeekRate(Step(s), wi)))
  {
  }

  /**
   * The counts of the week `w` of `[from, to]`: its available nights are
   * `WeekAvailable`, it sells the rounded share the week's rate gives of them,
   * and its label carries the day count exactly when fewer than seven days
   * are in range.
   */
  lemma WeekRowCounts(s: nat, st: Settings, from: Date, to: Date, w: Window, wi: nat)
    ensures WeekCountsAgree(WeekRow(s, st, from, to, w, wi).0, w, Overlap(from, to, w), WeekAvailable(st, from, to, w),
                            JsRound(WeekAvailable(st, from, to, w) as real * WeekRate(Step(s), wi)))
  {
    WeekRowIsOf(s, st, from, to, w, wi);
    WeekRowOfCounts(Step(s), st, w, wi, Overlap(from, to, w), WeekAvailable(st, from, to, w), WeekRate(Step(s), wi),
      JsRound(WeekAvailable(st, from, to, w) as real * WeekRate(Step(s), wi)));
  }

  /** A week whose available nights are not negative sells between none and all of them. */
  lemma WeekRowSoldWithin(s: nat, st: Settings, from: Date, to: Date, w: Window, wi: nat)
    requires 0 <= WeekAvailable(st, from, to, w)
    ensures SellsWithin(WeekRow(s, st, from, to, w, wi).0)
  {
    WeekRowIsOf(s, st, from, to, w, wi);
    WeekRowOfRateSoldWithin(Step(s), st, w, wi, Overlap(from, to, w), WeekAvailable(st, from, to, w));
  }

  /** The roster of a week with days in range. */
  lemma WeekRowRoster(s: nat, st: Settings, from: Date, to: Date, w: Window, wi: nat)
    requires Overlap(from, to, w) > 0
    ensures WeekRosterOk(WeekRow(s, st, from, to, w, wi).0, st, w, wi, Overlap(from, to, w))
  {
    WeekRowIsOf(s, st, from, to, w, wi);
    WeekRowOfRoster(Step(s), st, w, wi, Overlap(from, to, w), WeekAvailable(st, from, to, w), WeekRate(Step(s), wi),
      JsRound(WeekAvailable(st, from, to, w) as real * WeekRate(Step(s), wi)));
  }

  /** The money columns of a week agree with its price and rate. */
  lemma WeekRowMoney(s: nat, st: Settings, from: Date, to: Date, w: Window, wi: nat)
    ensures WeekMoneyAgrees(WeekRow(s, st, from, to, w, wi).0, wi, WeekRate(Step(s), wi), st.revIncludesTax)
  {
    WeekRowIsOf(s, st, from, to, w, wi);
    WeekRowOfMoney(Step(s), st, w, wi, Overlap(from, to, w), WeekAvailable(st, from, to, w), WeekRate(Step(s), wi),
      JsRound(WeekAvailable(st, from, to, w) as real * WeekRate(Step(s), wi)));
  }

  /** With the built-in closures a week keeps at least one room night per day in range. */
  lemma BuiltInWeekAvailable(st: Settings, from: Date, to: Date, w: Window)
    requires st.closed == BuiltInClosedRooms
    ensures Overlap(from, to, w) <= WeekAvailable(st, from, to, w) <= Capacity(st.filter) * Overlap(from, to, w)
  {
    ClosedNightsBounds(st, from, to, w);
    DaysInRangeCounts(from, to, w.start, w.end);
    assert 4 <= Capacity(st.filter);
    RoomNightsLeft(Capacity(st.filter), |st.closed|, Overlap(from, to, w), ClosedNights(st, from, to, w));
  }

  // ---------------------------------------------------------------------------
  // The whole range

  /**
   * The rows of the first `n` windows of `ws`, sharing one stream: a window
   * with no day in range is skipped and draws nothing; the others, at their
   * position `i` in `ws` (`weekBoundaries.indexOf(week)`), add their row.
   */
  function WeeklyRowsUpTo(s: nat, st: Settings, from: Date, to: Date, ws: seq<Window>, n: nat): (seq<Row>, nat)
    requires n <= |ws|
  {
    if n == 0 then ([], s)
    else
      var prev := WeeklyRowsUpTo(s, st, from, to, ws, n - 1);
      if Overlap(from, to, ws[n - 1]) == 0 then prev
      else
        var r := WeekRow(prev.1, st, from, to, ws[n - 1], n - 1);
        (prev.0 + [r.0], r.1)
  }

  /** The weekly report of `[from, to]`. */
  function WeeklyData(st: Settings, from: Date, to: Date): seq<Row> {
    var ws := WeekBoundaries(from, to);
    WeeklyRowsUpTo(WeeklySeed, st, from, to, ws, |ws|).0
  }

  /** One week after another: the row of window `i`, drawn from the state the earlier weeks leave. */
  function WeekStep(st: Settings, from: Date, to: Date): (nat, Window, nat) -> (Row, nat) {
    (s': nat, w: Window, i: nat) => WeekRow(s', st, from, to, w, i)
  }

  /** The stream state the `k`-th week's row starts from when no week is skipped. */
  function WeeklyStateAt(st: Settings, from: Date, to: Date, k: nat): nat
    requires k <= |WeekBoundaries(from, to)|
  {
    Thread(WeeklySeed, WeekBoundaries(from, to), k, WeekStep(st, from, to)).1
  }

  /** When every window has a day in range, none is skipped: the weeks thread the stream one after another. */
  lemma {:induction false} WeeklyRowsThread(s: nat, st: Settings, from: Date, to: Date, ws: seq<Window>, n: nat)
    requires n <= |ws|
    requires forall i :: 0 <= i < n ==> Overlap(from, to, ws[i]) > 0
    ensures WeeklyRowsUpTo(s, st, from, to, ws, n).0 == Thread(s, ws, n, WeekStep(st, from, to)).0
    ensures WeeklyRowsUpTo(s, st, from, to, ws, n).1 == Thread(s, ws, n, WeekStep(st, from, to)).1
  {
    if n > 0 {
      WeeklyRowsThread(s, st, from, to, ws, n - 1);
    }
  }

  /** When no window has a day in range, every one is skipped: no rows, and the stream is not touched. */
  lemma {:induction false} WeeklyRowsSkipped(s: nat, st: Settings, from: Date, to: Date, ws: seq<Window>, n: nat)
    requires n <= |ws|
    requires forall i :: 0 <= i < n ==> Overlap(from, to, ws[i]) == 0
    ensures WeeklyRowsUpTo(s, st, from, to, ws, n).0 == []
    ensures WeeklyRowsUpTo(s, st, from, to, ws, n).1 == s
  {
    if n > 0 {
      WeeklyRowsSkipped(s, st, from, to, ws, n - 1);
    }
  }

  /**
   * A range in order has one row per week boundary, the `k`-th the row of
   * the `k`-th window from the state the earlier weeks leave; a reversed
   * range has none.
   */
  lemma WeeklyDataShape(st: Settings, from: Date, to: Date)
    ensures DayNumber(to) < DayNumber(from) ==> WeeklyData(st, from, to) == []
    ensures DayNumber(from) <= DayNumber(to) ==>
              && |WeeklyData(st, from, to)| == |WeekBoundaries(from, to)| > 0
              && forall k :: 0 <= k < |WeeklyData(st, from, to)| ==>
                   WeeklyData(st, from, to)[k]
                   == WeekRow(WeeklyStateAt(st, from, to, k), st, from, to, WeekBoundaries(from, to)[k], k).0
  {
    var ws := WeekBoundaries(from, to);
    WeekBoundariesShape(from, to);
    if DayNumber(to) < DayNumber(from) {
      WeeklyRowsSkipped(WeeklySeed, st, from, to, ws, |ws|);
    } else {
      WeeklyRowsThread(WeeklySeed, st, from, to, ws, |ws|);
      ThreadAt(WeeklySeed, ws, |ws|, WeekStep(st, from, to));
    }
  }

  /**
   * Under the built-in closures every week of a range in order sells between
   * none and all of its available nights, at least one per day in range, and
   * its occupancy is a percentage.
   */
  lemma BuiltInWeeklyRows(st: Settings, from: Date, to: Date, k: nat)
    requires st.closed == BuiltInClosedRooms
    requires k < |WeeklyData(st, from, to)|
    ensures var row := WeeklyData(st, from, to)[k];
            && 1 <= row.availableRooms
            && SellsWithin(row)
            && 0.0 <= row.occupancyPercentage <= 100.0
  {
    WeeklyDataShape(st, from, to);
    var ws := WeekBoundaries(from, to);
    var s := WeeklyStateAt(st, from, to, k);
    WeekBoundariesShape(from, to);
    BuiltInWeekAvailable(st, from, to, ws[k]);
    WeekRowCounts(s, st, from, to, ws[k], k);
    WeekRowSoldWithin(s, st, from, to, ws[k], k);
    WeekRowMoney(s, st, from, to, ws[k], k);
    WeekOccupancyBounded(WeekRow(s, st, from, to, ws[k], k).0, k, WeekRate(Step(s), k), st.revIncludesTax);
  }

  // ---------------------------------------------------------------------------
  // The generator's loops

  /** `while (currentWeekStart <= endDate)`: the week boundaries from the Sunday on or before `from`. */
  method WeekBoundaryList(from: Date, to: Date) returns (weekBoundaries: seq<Window>)
    ensures weekBoundaries == WeekBoundaries(from, to)
  {
    var currentWeekStart := AddDays(from, -Weekday(from));
    weekBoundaries := [];
    BoundaryStart(from, to);
    while DayNumber(currentWeekStart) <= DayNumber(to)
      invariant weekBoundaries + WindowsFrom(currentWeekStart, to) == WeekBoundaries(from, to)
      decreases DayNumber(to) - DayNumber(currentWeekStart)
    {
      BoundaryStep(weekBoundaries, currentWeekStart, to, WeekBoundaries(from, to));
      var currentWeekEnd := AddDays(currentWeekStart, 6);
      var caption := FormatDate(currentWeekStart) + " - " + FormatDate(currentWeekEnd);
      assert Window(currentWeekStart, currentWeekEnd, caption) == MakeWindow(currentWeekStart);
      weekBoundaries := weekBoundaries + [Window(currentWeekStart, currentWeekEnd, caption)];
      currentWeekStart := AddDays(currentWeekStart, 7);
    }
  }

  /** Before the boundary loop: nothing pushed, and the first start is the Sunday on or before `from`. */
  lemma BoundaryStart(from: Date, to: Date)
    ensures [] + WindowsFrom(AddDays(from, -Weekday(from)), to) == WeekBoundaries(from, to)
  {
    var ws := AddDays(from, -Weekday(from));
    assert WeekStart(from) == ws;
    assert [] + WindowsFrom(ws, to) == WindowsFrom(ws, to);
  }

  /** One turn of the boundary loop: push the window of `ws`, then go on from a week later. */
  lemma BoundaryStep(acc: seq<Window>, ws: Date, to: Date, target: seq<Window>)
    requires DayNumber(ws) <= DayNumber(to)
    requires acc + WindowsFrom(ws, to) == target
    ensures (acc + [MakeWindow(ws)]) + WindowsFrom(AddDays(ws, 7), to) == target
    ensures DayNumber(AddDays(ws, 7)) == DayNumber(ws) + 7
  {
    AddDaysNumber(ws, 7);
    assert WindowsFrom(ws, to) == [MakeWindow(ws)] + WindowsFrom(AddDays(ws, 7), to);
    assert (acc + [MakeWindow(ws)]) + WindowsFrom(AddDays(ws, 7), to) == acc + ([MakeWindow(ws)] + WindowsFrom(AddDays(ws, 7), to));
  }

  /** `for (let d = new Date(week.start); d <= week.end; ...)`: the closed room nights of the window's days in range. */
  method ClosedNightsOf(st: Settings, from: Date, to: Date, w: Window) returns (total: int)
    ensures total == ClosedNights(st, from, to, w)
  {
    total := 0;
    var d := w.start;
    while DayNumber(d) <= DayNumber(w.end)
      invariant total + ClosedNightsFrom(st, from, to, d, w.end) == ClosedNights(st, from, to, w)
      decreases DayNumber(w.end) - DayNumber(d)
    {
      NextDayNumber(d);
      if DayNumber(from) <= DayNumber(d) && DayNumber(d) <= DayNumber(to) {
        var count := GetUnavailableRoomCount(st.closed, st.includeClosed, d, st.filter);
        total := total + count;
      }
      assert AddDays(d, 1) == NextDay(d);
      d := AddDays(d, 1);
    }
  }

  /** The body of `for (const week of weekBoundaries)` for a window with days in range, at position `weekIndex`. */
  method BuildWeekRow(g: Generator, st: Settings, from: Date, to: Date, w: Window, weekIndex: nat) returns (row: Row)
    requires Overlap(from, to, w) > 0
    modifies g
    ensures row == WeekRow(old(g.seed), st, from, to, w, weekIndex).0
    ensures g.seed == WeekRow(old(g.seed), st, from, to, w, weekIndex).1
  {
    var daysInRange := DaysInRange(from, to, w.start, w.end);
    var totalUnavailableRoomNights := ClosedNightsOf(st, from, to, w);
    var adjustedAvailableRoomNights := AdjustedRoomNights(st.filter, daysInRange, totalUnavailableRoomNights);
    assert adjustedAvailableRoomNights == WeekAvailable(st, from, to, w) as real;
    row := WeekEntryFor(g, st, w, weekIndex, daysInRange, adjustedAvailableRoomNights);
  }

  /** The rest of the loop body once the window's days in range and its whole `adjustedAvailableRoomNights` are known. */
  method WeekEntryFor(g: Generator, st: Settings, w: Window, weekIndex: nat, daysInRange: int, adjustedAvailableRoomNights: real)
    returns (row: Row)
    requires adjustedAvailableRoomNights == adjustedAvailableRoomNights.Floor as real
    modifies g
    ensures row == WeekRowWith(old(g.seed), st, w, weekIndex, daysInRange, adjustedAvailableRoomNights.Floor).0
    ensures g.seed == WeekRowWith(old(g.seed), st, w, weekIndex, daysInRange, adjustedAvailableRoomNights.Floor).1
  {
    var occupancyRate, soldRoomNights := WeekDraw(g, weekIndex, adjustedAvailableRoomNights);
    var guestsTotal := GuestsFor(soldRoomNights);
    var weekLabel := WeekCaption(w.caption, daysInRange);
    RosterCongruent(g.seed, Step(old(g.seed)), st.filter, w.start, daysInRange, weekIndex, MinInt(20, guestsTotal),
                    MinInt(20, GuestsFor(JsRound(adjustedAvailableRoomNights.Floor as real * WeekRate(Step(old(g.seed)), weekIndex)))));
    var guestDetails := PeriodRoster(g, st.filter, WeeklyPools, WeeklyMaxStay, WeekRoster, w.start, daysInRange,
                                     weekIndex, MinInt(20, guestsTotal));
    row := WeeklyEntry(st, weekLabel, weekIndex, adjustedAvailableRoomNights, occupancyRate, soldRoomNights, guestDetails);
    FiguresCongruent(st, weekLabel, weekIndex, adjustedAvailableRoomNights.Floor, occupancyRate, WeekRate(Step(old(g.seed)), weekIndex),
                     soldRoomNights, JsRound(adjustedAvailableRoomNights.Floor as real * WeekRate(Step(old(g.seed)), weekIndex)), guestDetails);
    WeekRowWithRoster(old(g.seed), st, w, weekIndex, daysInRange, adjustedAvailableRoomNights.Floor);
  }

  /** `occupancyRate` from one `random()` call, and `soldRoomNights`, the rounded share of the available nights it sells. */
  method WeekDraw(g: Generator, weekIndex: nat, adjustedAvailableRoomNights: real) returns (occupancyRate: real, soldRoomNights: int)
    requires adjustedAvailableRoomNights == adjustedAvailableRoomNights.Floor as real
    modifies g
    ensures g.seed == Step(old(g.seed))
    ensures occupancyRate == WeekRate(Step(old(g.seed)), weekIndex)
    ensures soldRoomNights == JsRound(adjustedAvailableRoomNights.Floor as real * WeekRate(Step(old(g.seed)), weekIndex))
  {
    var v := g.Next();
    occupancyRate := WeeklyOccupancy(v, weekIndex);
    soldRoomNights := JsRound(adjustedAvailableRoomNights * occupancyRate);
    ScaledEqual(adjustedAvailableRoomNights, adjustedAvailableRoomNights.Floor as real, occupancyRate, WeekRate(g.seed, weekIndex));
  }

  /** `WeekRowWith` spelled out: the figures of the drawn rate and sales, and the roster drawn after them. */
  lemma WeekRowWithRoster(s: nat, st: Settings, w: Window, wi: nat, days: int, a: int)
    ensures WeekRowWith(s, st, w, wi, days, a).0
            == WeekFigures(st, WeekCaption(w.caption, days), wi, a, WeekRate(Step(s), wi), JsRound(a as real * WeekRate(Step(s), wi)),
                           PeriodGuests(Step(s), st.filter, WeeklyPools, WeeklyMaxStay, WeekRoster, w.start, days, wi,
                                        MinInt(20, GuestsFor(JsRound(a as real * WeekRate(Step(s), wi))))).0)
    ensures WeekRowWith(s, st, w, wi, days, a).1
            == PeriodGuests(Step(s), st.filter, WeeklyPools, WeeklyMaxStay, WeekRoster, w.start, days, wi,
                            MinInt(20, GuestsFor(JsRound(a as real * WeekRate(Step(s), wi))))).1
  {
    WeekRowWithIsOf(s, st, w, wi, days, a);
  }

  /** Solver aid: the same stream state and the same count draw the same roster (substitution, stated once so that the row proofs do not rewrite under the roster). */
  lemma RosterCongruent(t1: nat, t2: nat, f: Filter, start: Date, days: int, wi: nat, n1: int, n2: int)
    requires t1 == t2 && n1 == n2
    ensures PeriodGuests(t1, f, WeeklyPools, WeeklyMaxStay, WeekRoster, start, days, wi, n1)
            == PeriodGuests(t2, f, WeeklyPools, WeeklyMaxStay, WeekRoster, start, days, wi, n2)
  {
  }

  /** Solver aid: equal rates and sales give equal figures (substitution under the nonlinear row terms). */
  lemma FiguresCongruent(st: Settings, caption: string, wi: nat, a: int, r1: real, r2: real, s1: int, s2: int, guests: seq<GuestRecord>)
    requires r1 == r2 && s1 == s2
    ensures WeekFigures(st, caption, wi, a, r1, s1, guests) == WeekFigures(st, caption, wi, a, r2, s2, guests)
  {
  }

  /** Solver aid: equal factors round to equal products (substitution under `Math.round`). */
  lemma ScaledEqual(x: real, y: real, r: real, q: real)
    requires x == y && r == q
    ensures JsRound(x * r) == JsRound(y * q)
  {
  }

  /**
   * `avgUnavailableRoomsPerDay` and `adjustedAvailableRoomNights`: averaging
   * the closed nights over the days in range and multiplying back gives
   * exactly the room nights less the closed nights.
   */
  method AdjustedRoomNights(f: Filter, daysInRange: int, totalUnavailableRoomNights: int) returns (adjusted: real)
    ensures daysInRange > 0 ==> adjusted == (Capacity(f) * daysInRange - totalUnavailableRoomNights) as real
    ensures daysInRange <= 0 ==> adjusted == (Capacity(f) * daysInRange) as real
  {
    var avgUnavailableRoomsPerDay := if daysInRange > 0 then totalUnavailableRoomNights as real / daysInRange as real else 0.0;
    adjusted := (Capacity(f) as real - avgUnavailableRoomsPerDay) * daysInRange as real;
    if daysInRange > 0 {
      assert avgUnavailableRoomsPerDay * daysInRange as real == totalUnavailableRoomNights as real;
    }
  }

  /**
   * `weeklyData.push({...})`: ADR, revenue and the ratios from the real
   * `adjustedAvailableRoomNights`; when that is a whole number the entry is
   * the week's figures at that number.
   */
  method WeeklyEntry(st: Settings, weekLabel: string, weekIndex: nat, adjustedAvailableRoomNights: real, occupancyRate: real,
                     soldRoomNights: int, guestDetails: seq<GuestRecord>) returns (row: Row)
    requires adjustedAvailableRoomNights == adjustedAvailableRoomNights.Floor as real
    ensures row == WeekFigures(st, weekLabel, weekIndex, adjustedAvailableRoomNights.Floor, occupancyRate, soldRoomNights, guestDetails)
  {
    var guestsTotal := GuestsFor(soldRoomNights);
    var adr := WeeklyAdr(weekIndex, occupancyRate);
    var baseRevenue := JsRound(adr * soldRoomNights as real);
    var revenue := if st.revIncludesTax then baseRevenue as real * 1.1 else baseRevenue as real;
    var revPAR := if adjustedAvailableRoomNights > 0.0 then revenue / adjustedAvailableRoomNights else 0.0;
    var occupancyPercentage :=
      if adjustedAvailableRoomNights > 0.0 then soldRoomNights as real / adjustedAvailableRoomNights * 100.0 else 0.0;
    JsRoundWhole(adjustedAvailableRoomNights.Floor);
    assert JsRound(adjustedAvailableRoomNights) == adjustedAvailableRoomNights.Floor;
    assert revenue == WeekRevenue(st, adr, soldRoomNights);
    assert occupancyPercentage == Share(soldRoomNights as real, adjustedAvailableRoomNights.Floor as real) * 100.0;
    assert revPAR == Share(revenue, adjustedAvailableRoomNights.Floor as real);
    row := Row(weekLabel, None, JsRound(adjustedAvailableRoomNights), soldRoomNights, guestsTotal,
               occupancyPercentage, revPAR, adr, revenue, None, guestDetails);
  }

  /** `generateWeeklyData` once both dates have parsed. */
  method GenerateWeeklyData(st: Settings, from: Date, to: Date) returns (rows: seq<Row>)
    ensures rows == WeeklyData(st, from, to)
  {
    var weekBoundaries := WeekBoundaryList(from, to);
    var random := new Generator(WeeklySeed);
    rows := [];
    var i := 0;
    while i < |weekBoundaries|
      invariant 0 <= i <= |weekBoundaries|
      invariant rows == WeeklyRowsUpTo(WeeklySeed, st, from, to, weekBoundaries, i).0
      invariant random.seed == WeeklyRowsUpTo(WeeklySeed, st, from, to, weekBoundaries, i).1
    {
      rows := WeeklyStep(random, st, from, to, weekBoundaries, i, rows);
      i := i + 1;
    }
  }

  /** One turn of the generator's loop: a window with days in range adds its row, any other is skipped. */
  method WeeklyStep(random: Generator, st: Settings, from: Date, to: Date, weekBoundaries: seq<Window>, i: nat, rows: seq<Row>)
    returns (rows': seq<Row>)
    requires i < |weekBoundaries|
    requires rows == WeeklyRowsUpTo(WeeklySeed, st, from, to, weekBoundaries, i).0
    requires random.seed == WeeklyRowsUpTo(WeeklySeed, st, from, to, weekBoundaries, i).1
    modifies random
    ensures rows' == WeeklyRowsUpTo(WeeklySeed, st, from, to, weekBoundaries, i + 1).0
    ensures random.seed == WeeklyRowsUpTo(WeeklySeed, st, from, to, weekBoundaries, i + 1).1
  {
    var week := weekBoundaries[i];
    var daysInRange := DaysInRange(from, to, week.start, week.end);
    rows' := rows;
    if daysInRange != 0 {
      var row := BuildWeekRow(random, st, from, to, week, i);
      rows' := rows + [row];
    }
  }
}

/**
 * `generateDailyData`: one row per day of the range, all drawn from one
 * stream seeded with 123 -- the sold-room draw first, then that day's roster.
 */
module DailyReport {
  import opened Wrappers
  import opened Calendar
  import opened Rooms
  import opened Lcg
  import opened ClosedRooms
  import opened Periods
  import opened Roster
  import opened Metrics

  /** `day === 'Saturday' || day === 'Sunday'`, for the weekday number `w` (0 = Sunday). */
  predicate IsWeekend(w: int) {
    w == 6 || w == 0
  }

  /** `rate * randomOccupancy * (revIncludesTax ? 1.1 : 1)` on a day with weekday `w`. */
  function DailyRevenue(st: Settings, w: int, sold: int): real {
    DailyRate(st.filter, IsWeekend(w)) * sold as real * TaxFactor(st.revIncludesTax)
  }

  /**
   * The row for `d`, the `index`-th day of the range, drawn from state `s`, and
   * the state after it: the sold-room draw, then the roster of the rooms sold.
   */
  function DailyRow(s: nat, st: Settings, d: Date, index: int): (Row, nat) {
    DayRow(s, st, d, index, Unavailable(st, d), FormatDate(d), Weekday(d))
  }

  /** `DailyRow` once the day's closed rooms `u`, its caption and its weekday are known. */
  function DayRow(s: nat, st: Settings, d: Date, index: int, u: int, date: string, w: int): (Row, nat) {
    var draw := Below(s, Capacity(st.filter) - u + 1);
    var roster := DailyGuests(draw.1, st.filter, d, index, draw.0);
    (DailyFigures(st, date, w, u, draw.0, roster.0), roster.1)
  }

  /** The row of the day captioned `date`, weekday `w`, once `u` rooms are known closed, `sold` sold and their roster drawn. */
  function DailyFigures(st: Settings, date: string, w: int, u: int, sold: int, guests: seq<GuestRecord>): Row {
    var avail := Capacity(st.filter) - u;
    var revenue := DailyRevenue(st, w, sold);
    Row(date, Some(w), avail, sold, Headcount(guests),
        Share(sold as real, avail as real) * 100.0, Share(revenue, avail as real), Share(revenue, sold as real),
        revenue, Some(u), guests)
  }

  /** `DayRow` once its draws are known. */
  lemma DayRowFrom(s: nat, st: Settings, d: Date, index: int, u: int, date: string, w: int,
                   sold: int, s1: nat, guests: seq<GuestRecord>, s2: nat)
    requires sold == Below(s, Capacity(st.filter) - u + 1).0 && s1 == Step(s)
    requires guests == DailyGuests(s1, st.filter, d, index, sold).0 && s2 == DailyGuests(s1, st.filter, d, index, sold).1
    ensures DayRow(s, st, d, index, u, date, w) == (DailyFigures(st, date, w, u, sold, guests), s2)
  {
  }

  /** The rows of the first `n` dates of `ds`, in order, sharing one stream. */
  function DailyRowsUpTo(s: nat, st: Settings, ds: seq<Date>, n: nat): (seq<Row>, nat)
    requires n <= |ds|
  {
    Thread(s, ds, n, (s': nat, d: Date, i: nat) => DailyRow(s', st, d, i))
  }

  /** The daily report of `[from, to]`. */
  function DailyData(st: Settings, from: Date, to: Date): seq<Row> {
    var ds := DailyDates(from, to);
    DailyRowsUpTo(DailySeed, st, ds, |ds|).0
  }

  /** The stream state the `k`-th day's row starts from. */
  function DailyStateAt(st: Settings, from: Date, to: Date, k: nat): nat
    requires k <= |DailyDates(from, to)|
  {
    DailyRowsUpTo(DailySeed, st, DailyDates(from, to), k).1
  }

  // ---------------------------------------------------------------------------
  // One row

  /** Available rooms are the filter's rooms less the closed ones; sales never exceed them. */
  lemma DailyRowCounts(s: nat, st: Settings, d: Date, index: int)
    ensures var row := DailyRow(s, st, d, index).0;
            var u := Unavailable(st, d);
            && row.caption == FormatDate(d) && row.weekday == Some(Weekday(d))
            && row.unavailableRooms == Some(u)
            && row.availableRooms == Capacity(st.filter) - u
            && 0 <= u <= |st.closed|
            && (!st.includeClosed ==> u == 0)
            && (u <= Capacity(st.filter) ==> 0 <= row.soldRooms <= row.availableRooms)
  {
    UnavailableCountBounds(st.closed, st.includeClosed, d, st.filter);
    DayRowCounts(s, st, d, index, Unavailable(st, d), FormatDate(d), Weekday(d));
  }

  lemma DayRowCounts(s: nat, st: Settings, d: Date, index: int, u: int, date: string, w: int)
    ensures var row := DayRow(s, st, d, index, u, date, w).0;
            && row.caption == date && row.weekday == Some(w) && row.unavailableRooms == Some(u)
            && row.availableRooms == Capacity(st.filter) - u
            && (u <= Capacity(st.filter) ==> 0 <= row.soldRooms <= row.availableRooms)
  {
    BelowBounds(s, Capacity(st.filter) - u + 1);
  }

  /** The roster lists one record per sold room, each a valid daily record, and `guests` counts their occupants. */
  lemma DailyRowRoster(s: nat, st: Settings, d: Date, index: int)
    ensures var row := DailyRow(s, st, d, index).0;
            && |row.guestDetails| == MaxInt(0, row.soldRooms)
            && row.guests == Headcount(row.guestDetails)
            && |row.guestDetails| <= row.guests <= 6 * |row.guestDetails|
            && forall j :: 0 <= j < |row.guestDetails| ==>
                 && RecordOk(row.guestDetails[j], st.filter, DailyPools)
                 && DailyStayOk(row.guestDetails[j], d)
                 && row.guestDetails[j].id == GuestId(DayRoster, index, j)
  {
    DayRowRoster(s, st, d, index, Unavailable(st, d), FormatDate(d), Weekday(d));
  }

  lemma DayRowRoster(s: nat, st: Settings, d: Date, index: int, u: int, date: string, w: int)
    ensures var row := DayRow(s, st, d, index, u, date, w).0;
            && |row.guestDetails| == MaxInt(0, row.soldRooms)
            && row.guests == Headcount(row.guestDetails)
            && |row.guestDetails| <= row.guests <= 6 * |row.guestDetails|
            && forall j :: 0 <= j < |row.guestDetails| ==>
                 && RecordOk(row.guestDetails[j], st.filter, DailyPools)
                 && DailyStayOk(row.guestDetails[j], d)
                 && row.guestDetails[j].id == GuestId(DayRoster, index, j)
  {
    var draw := Below(s, Capacity(st.filter) - u + 1);
    var roster := DailyGuests(draw.1, st.filter, d, index, draw.0);
    assert DayRow(s, st, d, index, u, date, w).0 == DailyFigures(st, date, w, u, draw.0, roster.0);
    DailyGuestsOk(draw.1, st.filter, d, index, draw.0);
    HeadcountBounds(roster.0, st.filter, DailyPools);
  }

  /** The nightly price a daily row charges: the day's rate, with tax when asked. */
  function DailyPrice(st: Settings, w: int): real {
    DailyRate(st.filter, IsWeekend(w)) * TaxFactor(st.revIncludesTax)
  }

  /**
   * How a row's money columns hang together at nightly price `price`: revenue
   * is the price times the rooms sold and ADR the price itself (0 when nothing
   * sold); occupancy is sold over available in percent, and RevPAR is ADR times
   * occupancy, both 0 when no room is available.
   */
  predicate MoneyAgrees(row: Row, price: real) {
    && row.revenue == price * row.soldRooms as real
    && row.adr == (if row.soldRooms > 0 then price else 0.0)
    && (row.availableRooms <= 0 ==> row.occupancyPercentage == 0.0 && row.revPAR == 0.0)
    && (row.availableRooms > 0 ==>
          row.occupancyPercentage == row.soldRooms as real / row.availableRooms as real * 100.0)
    && row.revPAR == row.adr * row.occupancyPercentage / 100.0
  }

  /** Occupancy is a percentage and RevPAR lies between 0 and ADR. */
  predicate RatiosBounded(row: Row) {
    0.0 <= row.occupancyPercentage <= 100.0 && 0.0 <= row.revPAR <= row.adr
  }

  /** The figures of any day agree with its nightly price, once sales are not negative where rooms are available. */
  lemma FiguresMoney(st: Settings, date: string, w: int, u: int, sold: int, guests: seq<GuestRecord>)
    requires Capacity(st.filter) - u > 0 ==> 0 <= sold
    ensures MoneyAgrees(DailyFigures(st, date, w, u, sold, guests), DailyPrice(st, w))
  {
    var row := DailyFigures(st, date, w, u, sold, guests);
    var price := DailyPrice(st, w);
    assert row.revenue == price * sold as real by {
      SwapFactors(DailyRate(st.filter, IsWeekend(w)), sold as real, TaxFactor(st.revIncludesTax));
    }
    RatioFacts(row, price);
  }

  /** Selling between none and all of the available rooms keeps the ratios in range. */
  lemma FiguresBounded(st: Settings, date: string, w: int, u: int, sold: int, guests: seq<GuestRecord>)
    requires 0 <= sold <= Capacity(st.filter) - u
    ensures RatiosBounded(DailyFigures(st, date, w, u, sold, guests))
  {
    FiguresMoney(st, date, w, u, sold, guests);
    DailyRateBounds(st.filter, IsWeekend(w));
    var row := DailyFigures(st, date, w, u, sold, guests);
    if sold > 0 {
      ShareAtMostOne(sold as real, (Capacity(st.filter) - u) as real);
      assert 0.0 <= row.occupancyPercentage <= 100.0;
      ScaleWithin(row.adr, row.occupancyPercentage);
    }
  }

  lemma ScaleWithin(a: real, p: real)
    requires 0.0 <= a && 0.0 <= p <= 100.0
    ensures 0.0 <= a * p / 100.0 <= a
  {
    assert a * p <= a * 100.0;
  }

  /** A day's money columns agree with its nightly price. */
  lemma DailyRowMoney(s: nat, st: Settings, d: Date, index: int)
    ensures MoneyAgrees(DailyRow(s, st, d, index).0, DailyPrice(st, Weekday(d)))
  {
    DayRowMoney(s, st, d, index, Unavailable(st, d), FormatDate(d), Weekday(d));
  }

  lemma DayRowMoney(s: nat, st: Settings, d: Date, index: int, u: int, date: string, w: int)
    ensures MoneyAgrees(DayRow(s, st, d, index, u, date, w).0, DailyPrice(st, w))
  {
    var draw := Below(s, Capacity(st.filter) - u + 1);
    BelowBounds(s, Capacity(st.filter) - u + 1);
    var roster := DailyGuests(draw.1, st.filter, d, index, draw.0);
    assert DayRow(s, st, d, index, u, date, w).0 == DailyFigures(st, date, w, u, draw.0, roster.0);
    FiguresMoney(st, date, w, u, draw.0, roster.0);
  }

  /** While some room is open, a day's occupancy is a percentage and its RevPAR at most its ADR. */
  lemma DailyRowRatioBounds(s: nat, st: Settings, d: Date, index: int)
    requires Unavailable(st, d) < Capacity(st.filter)
    ensures RatiosBounded(DailyRow(s, st, d, index).0)
  {
    DayRowRatioBounds(s, st, d, index, Unavailable(st, d), FormatDate(d), Weekday(d));
  }

  lemma DayRowRatioBounds(s: nat, st: Settings, d: Date, index: int, u: int, date: string, w: int)
    requires u < Capacity(st.filter)
    ensures RatiosBounded(DayRow(s, st, d, index, u, date, w).0)
  {
    var draw := Below(s, Capacity(st.filter) - u + 1);
    BelowBounds(s, Capacity(st.filter) - u + 1);
    var roster := DailyGuests(draw.1, st.filter, d, index, draw.0);
    assert DayRow(s, st, d, index, u, date, w).0 == DailyFigures(st, date, w, u, draw.0, roster.0);
    FiguresBounded(st, date, w, u, draw.0, roster.0);
  }

  /** The arithmetic behind the ratios of a row whose revenue is `price` per room sold. */
  lemma RatioFacts(row: Row, price: real)
    requires row.availableRooms > 0 ==> 0 <= row.soldRooms
    requires row.revenue == price * row.soldRooms as real
    requires row.occupancyPercentage == Share(row.soldRooms as real, row.availableRooms as real) * 100.0
    requires row.revPAR == Share(row.revenue, row.availableRooms as real)
    requires row.adr == Share(row.revenue, row.soldRooms as real)
    ensures MoneyAgrees(row, price)
  {
    var x := row.soldRooms as real;
    var y := row.availableRooms as real;
    if row.soldRooms > 0 {
      CancelFactor(price, x);
    }
    if row.availableRooms > 0 && row.soldRooms > 0 {
      ShareOfPrice(price, x, y);
    }
  }

  lemma SwapFactors(a: real, b: real, c: real)
    ensures a * b * c == a * c * b
  {
  }

  lemma CancelFactor(p: real, x: real)
    requires x != 0.0
    ensures p * x / x == p
  {
  }

  lemma ShareOfPrice(p: real, x: real, y: real)
    requires y > 0.0
    ensures p * x / y == p * (x / y * 100.0) / 100.0
  {
    var q := x / y;
    assert q * y == x;
    assert (p * q) * y == p * x;
  }

  // ---------------------------------------------------------------------------
  // The whole range

  /** One row per day from `from` to `to`, the `k`-th for `from + k` days; none when `to < from`. */
  lemma DailyDataShape(st: Settings, from: Date, to: Date)
    ensures |DailyData(st, from, to)| == MaxInt(0, DayNumber(to) - DayNumber(from) + 1)
    ensures forall k :: 0 <= k < |DailyData(st, from, to)| ==>
              DailyData(st, from, to)[k] == DailyRow(DailyStateAt(st, from, to, k), st, AddDays(from, k), k).0
  {
    var ds := DailyDates(from, to);
    DailyDatesShape(from, to);
    ThreadAt(DailySeed, ds, |ds|, (s': nat, d: Date, i: nat) => DailyRow(s', st, d, i));
  }

  /** Under the built-in closures every day has rooms to sell and sells no more than it has. */
  lemma BuiltInDailyRows(st: Settings, from: Date, to: Date, k: nat)
    requires st.closed == BuiltInClosedRooms
    requires k < |DailyData(st, from, to)|
    ensures var row := DailyData(st, from, to)[k];
            && 1 <= row.availableRooms <= Capacity(st.filter)
            && 0 <= row.soldRooms <= row.availableRooms
            && RatiosBounded(row)
  {
    DailyDataShape(st, from, to);
    var d := AddDays(from, k);
    var s := DailyStateAt(st, from, to, k);
    BuiltInBelowCapacity(st, d);
    DailyRowCounts(s, st, d, k);
    DailyRowRatioBounds(s, st, d, k);
  }

  // ---------------------------------------------------------------------------
  // The generator's loops

  /** `while (currentDate <= endDate)`: collect the range's dates one day at a time. */
  method DateList(from: Date, to: Date) returns (dates: seq<Date>)
    ensures dates == DailyDates(from, to)
  {
    dates := [];
    var cur := from;
    while DayNumber(cur) <= DayNumber(to)
      invariant dates + DailyDates(cur, to) == DailyDates(from, to)
      decreases DayNumber(to) - DayNumber(cur)
    {
      NextDayNumber(cur);
      assert DailyDates(cur, to) == [cur] + DailyDates(NextDay(cur), to);
      assert AddDays(cur, 1) == NextDay(cur);
      dates := dates + [cur];
      cur := AddDays(cur, 1);
    }
  }

  /** The body of `datesArray.map((dateObj, index) => ...)`. */
  method BuildDailyRow(g: Generator, st: Settings, d: Date, index: int) returns (row: Row)
    modifies g
    ensures (row, g.seed) == DailyRow(old(g.seed), st, d, index)
  {
    ghost var s0 := g.seed;
    var unavailableRooms := GetUnavailableRoomCount(st.closed, st.includeClosed, d, st.filter);
    var adjustedAvailableRooms := Capacity(st.filter) - unavailableRooms;
    var randomOccupancy := g.Floor(adjustedAvailableRooms + 1);
    ghost var s1 := g.seed;
    var guestDetails, totalGuests := DailyRoster(g, st.filter, d, index, randomOccupancy);
    DayRowFrom(s0, st, d, index, unavailableRooms, FormatDate(d), Weekday(d), randomOccupancy, s1, guestDetails, g.seed);
    var weekday := Weekday(d);
    var revenue := DailyRevenue(st, weekday, randomOccupancy);
    var occupancyPercentage := Share(randomOccupancy as real, adjustedAvailableRooms as real) * 100.0;
    var revPAR := Share(revenue, adjustedAvailableRooms as real);
    var adr := Share(revenue, randomOccupancy as real);
    row := Row(FormatDate(d), Some(weekday), adjustedAvailableRooms, randomOccupancy, totalGuests,
               occupancyPercentage, revPAR, adr, revenue, Some(unavailableRooms), guestDetails);
    assert row == DailyFigures(st, FormatDate(d), weekday, unavailableRooms, randomOccupancy, guestDetails);
  }

  /** `generateDailyData` once both dates have parsed. */
  method GenerateDailyData(st: Settings, from: Date, to: Date) returns (rows: seq<Row>)
    ensures rows == DailyData(st, from, to)
  {
    var dates := DateList(from, to);
    var random := new Generator(DailySeed);
    rows := [];
    var i := 0;
    while i < |dates|
      invariant 0 <= i <= |dates|
      invariant (rows, random.seed) == DailyRowsUpTo(DailySeed, st, dates, i)
    {
      var row := BuildDailyRow(random, st, dates[i], i);
      rows := rows + [row];
      i := i + 1;
    }
  }
}

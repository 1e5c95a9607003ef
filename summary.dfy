/**
 * `calculateSummary`: the totals line under the report table. Counts and
 * revenue are summed over the rows; occupancy, RevPAR and ADR are then
 * recomputed from the totals, never averaged from the rows' own ratios.
 */
module ReportSummary {
  import opened Wrappers
  import opened Metrics

  /** The summary object; the ratios and the revenue are the numbers the source formats with `toFixed`. */
  datatype Summary = Summary(
    available: int,
    occupied: int,
    occupancyPercentage: real,
    revPAR: real,
    adr: real,
    revenue: real,
    guests: int,
    unavailableRooms: int)

  // ---------------------------------------------------------------------------
  // Folds

  /** `rows.reduce((sum, item) => sum + f(item), 0)`: a left fold, the last row added last. */
  function SumInt(rows: seq<Row>, f: Row -> int): int {
    if rows == [] then 0 else SumInt(rows[..|rows| - 1], f) + f(rows[|rows| - 1])
  }

  /** The same fold over a real-valued field. */
  function SumReal(rows: seq<Row>, f: Row -> real): real {
    if rows == [] then 0.0 else SumReal(rows[..|rows| - 1], f) + f(rows[|rows| - 1])
  }

  function AvailableOf(r: Row): int { r.availableRooms }
  function SoldOf(r: Row): int { r.soldRooms }
  function GuestsOf(r: Row): int { r.guests }

  /** `item.unavailableRooms || 0`: weekly and monthly rows carry no closed-room column. */
  function UnavailableOf(r: Row): int {
    if r.unavailableRooms.Some? then r.unavailableRooms.value else 0
  }

  /** `parseFloat(item.revenue)`: the row's revenue as its table cell shows it, to the cent. */
  function ShownRevenueOf(r: Row): real {
    RoundCents(r.revenue)
  }

  /** The row's revenue before its cell rounds it. */
  function ExactRevenueOf(r: Row): real { r.revenue }

  /** `calculateSummary(dataToSummarize)`. */
  function CalculateSummary(rows: seq<Row>): Summary {
    var totalAvailable := SumInt(rows, AvailableOf);
    var totalOccupied := SumInt(rows, SoldOf);
    var totalRevenue := SumReal(rows, ShownRevenueOf);
    var totalGuests := SumInt(rows, GuestsOf);
    var totalUnavailableRooms := SumInt(rows, UnavailableOf);
    Summary(totalAvailable, totalOccupied,
            Share(totalOccupied as real, totalAvailable as real) * 100.0,
            Share(totalRevenue, totalAvailable as real),
            Share(totalRevenue, totalOccupied as real),
            totalRevenue, totalGuests, totalUnavailableRooms)
  }

  // ---------------------------------------------------------------------------
  // The fold law

  lemma {:induction false} SumIntAppend(a: seq<Row>, b: seq<Row>, f: Row -> int)
    ensures SumInt(a + b, f) == SumInt(a, f) + SumInt(b, f)
    decreases |b|
  {
    if b == [] {
      assert a + b == a;
    } else {
      var b' := b[..|b| - 1];
      assert (a + b)[..|a + b| - 1] == a + b';
      SumIntAppend(a, b', f);
    }
  }

  lemma {:induction false} SumRealAppend(a: seq<Row>, b: seq<Row>, f: Row -> real)
    ensures SumReal(a + b, f) == SumReal(a, f) + SumReal(b, f)
    decreases |b|
  {
    if b == [] {
      assert a + b == a;
    } else {
      var b' := b[..|b| - 1];
      assert (a + b)[..|a + b| - 1] == a + b';
      SumRealAppend(a, b', f);
    }
  }

  /** The summary of two reports put together: each total is the sum of the two reports' totals. */
  lemma SummaryAppend(a: seq<Row>, b: seq<Row>)
    ensures CalculateSummary(a + b).available == CalculateSummary(a).available + CalculateSummary(b).available
    ensures CalculateSummary(a + b).occupied == CalculateSummary(a).occupied + CalculateSummary(b).occupied
    ensures CalculateSummary(a + b).revenue == CalculateSummary(a).revenue + CalculateSummary(b).revenue
    ensures CalculateSummary(a + b).guests == CalculateSummary(a).guests + CalculateSummary(b).guests
    ensures CalculateSummary(a + b).unavailableRooms == CalculateSummary(a).unavailableRooms + CalculateSummary(b).unavailableRooms
  {
    SumIntAppend(a, b, AvailableOf);
    SumIntAppend(a, b, SoldOf);
    SumRealAppend(a, b, ShownRevenueOf);
    SumIntAppend(a, b, GuestsOf);
    SumIntAppend(a, b, UnavailableOf);
  }

  /** The summary of a single row repeats that row's counts and shown revenue. */
  lemma SummarySingle(r: Row)
    ensures var s := CalculateSummary([r]);
            && s.available == r.availableRooms && s.occupied == r.soldRooms && s.guests == r.guests
            && s.revenue == RoundCents(r.revenue) && s.unavailableRooms == UnavailableOf(r)
  {
    SumIntSingle(r, AvailableOf);
    SumIntSingle(r, SoldOf);
    SumIntSingle(r, GuestsOf);
    SumIntSingle(r, UnavailableOf);
    SumRealSingle(r, ShownRevenueOf);
  }

  lemma SumIntSingle(r: Row, f: Row -> int)
    ensures SumInt([r], f) == f(r)
  {
    assert [r][..0] == [];
  }

  lemma SumRealSingle(r: Row, f: Row -> real)
    ensures SumReal([r], f) == f(r)
  {
    assert [r][..0] == [];
  }

  // ---------------------------------------------------------------------------
  // Bounds

  /** A fold of a field bounded row by row by another is bounded by the other's fold. */
  lemma {:induction false} SumIntLe(rows: seq<Row>, f: Row -> int, g: Row -> int)
    requires forall i :: 0 <= i < |rows| ==> f(rows[i]) <= g(rows[i])
    ensures SumInt(rows, f) <= SumInt(rows, g)
    decreases |rows|
  {
    if rows != [] {
      var r' := rows[..|rows| - 1];
      assert forall i :: 0 <= i < |r'| ==> r'[i] == rows[i];
      SumIntLe(r', f, g);
    }
  }

  lemma {:induction false} SumIntNonNegative(rows: seq<Row>, f: Row -> int)
    requires forall i :: 0 <= i < |rows| ==> 0 <= f(rows[i])
    ensures 0 <= SumInt(rows, f)
    decreases |rows|
  {
    if rows != [] {
      var r' := rows[..|rows| - 1];
      assert forall i :: 0 <= i < |r'| ==> r'[i] == rows[i];
      SumIntNonNegative(r', f);
    }
  }

  /** When no row sells more than it has, the summary sells no more than the total and is at most fully occupied. */
  lemma SummaryOccupancyBounded(rows: seq<Row>)
    requires forall i :: 0 <= i < |rows| ==> 0 <= rows[i].soldRooms <= rows[i].availableRooms
    ensures var s := CalculateSummary(rows);
            && 0 <= s.occupied <= s.available
            && 0.0 <= s.occupancyPercentage <= 100.0
  {
    assert forall i :: 0 <= i < |rows| ==> 0 <= SoldOf(rows[i]) <= AvailableOf(rows[i]);
    SumIntNonNegative(rows, SoldOf);
    SumIntLe(rows, SoldOf, AvailableOf);
    var s := CalculateSummary(rows);
    if s.available > 0 {
      ShareAtMostOne(s.occupied as real, s.available as real);
    }
  }

  /** Rows without a closed-room column add nothing to the summary's closed rooms. */
  lemma {:induction false} SummaryNoClosedColumn(rows: seq<Row>)
    requires forall i :: 0 <= i < |rows| ==> rows[i].unavailableRooms == None
    ensures CalculateSummary(rows).unavailableRooms == 0
    decreases |rows|
  {
    if rows != [] {
      var r' := rows[..|rows| - 1];
      assert forall i :: 0 <= i < |r'| ==> r'[i] == rows[i];
      SummaryNoClosedColumn(r');
    }
  }

  // ---------------------------------------------------------------------------
  // Ratios from the totals

  /**
   * The summary's ratios hang together as the daily ones do: RevPAR is ADR
   * times the occupied share, and the totals are recovered from the ratios.
   */
  lemma SummaryRatios(rows: seq<Row>)
    ensures var s := CalculateSummary(rows);
            && (s.available > 0 ==> s.revPAR * s.available as real == s.revenue)
            && (s.occupied > 0 ==> s.adr * s.occupied as real == s.revenue)
            && (s.available > 0 ==> s.occupancyPercentage * s.available as real == 100.0 * s.occupied as real)
            && (s.available > 0 && s.occupied > 0 ==> s.revPAR * 100.0 == s.adr * s.occupancyPercentage)
            && (s.available <= 0 ==> s.occupancyPercentage == 0.0 && s.revPAR == 0.0)
            && (s.occupied <= 0 ==> s.adr == 0.0)
  {
    var s := CalculateSummary(rows);
    if s.available > 0 {
      RatioTimes(s.revenue, s.available as real);
      RatioTimes(s.occupied as real, s.available as real);
      if s.occupied > 0 {
        RevParIsAdrTimesOccupancy(s.revenue, s.occupied as real, s.available as real);
      }
    }
    if s.occupied > 0 {
      RatioTimes(s.revenue, s.occupied as real);
    }
  }

  lemma RatioTimes(x: real, y: real)
    requires y > 0.0
    ensures x / y * y == x
  {
  }

  /** `x / a * 100 == x / o * (o / a * 100)`, the identity RevPAR = ADR * occupancy. */
  lemma RevParIsAdrTimesOccupancy(x: real, o: real, a: real)
    requires o > 0.0 && a > 0.0
    ensures x / a * 100.0 == x / o * (o / a * 100.0)
  {
    assert x / o * o == x;
    assert x / o * (o / a) == x / a by {
      assert (x / o * (o / a)) * a == x / o * o;
    }
  }

  /**
   * The summary's occupancy is not the mean of the rows' occupancies: a
   * fully sold room next to three empty ones is 25% occupied, not 50%.
   */
  lemma NotAveraged()
    ensures var full := Row("a", None, 1, 1, 1, 100.0, 0.0, 0.0, 0.0, None, []);
            var empty := Row("b", None, 3, 0, 0, 0.0, 0.0, 0.0, 0.0, None, []);
            && CalculateSummary([full, empty]).occupancyPercentage == 25.0
            && (full.occupancyPercentage + empty.occupancyPercentage) / 2.0 == 50.0
  {
    var full := Row("a", None, 1, 1, 1, 100.0, 0.0, 0.0, 0.0, None, []);
    var empty := Row("b", None, 3, 0, 0, 0.0, 0.0, 0.0, 0.0, None, []);
    SummaryAppend([full], [empty]);
    SummarySingle(full);
    SummarySingle(empty);
    assert [full] + [empty] == [full, empty];
  }

  // ---------------------------------------------------------------------------
  // Revenue to the cent

  /** The whole number of cents `parseFloat(x.toFixed(2))` shows. */
  function CentsOf(x: real): int {
    if x >= 0.0 then (x * 100.0 + 0.5).Floor else -(-x * 100.0 + 0.5).Floor
  }

  function RowCents(r: Row): int { CentsOf(r.revenue) }

  lemma RoundCentsIsCents(x: real)
    ensures RoundCents(x) == CentsOf(x) as real / 100.0
  {
  }

  lemma {:induction false} ShownRevenueCents(rows: seq<Row>)
    ensures SumReal(rows, ShownRevenueOf) == SumInt(rows, RowCents) as real / 100.0
    decreases |rows|
  {
    if rows != [] {
      var r' := rows[..|rows| - 1];
      ShownRevenueCents(r');
      RoundCentsIsCents(rows[|rows| - 1].revenue);
    }
  }

  /** The summary's revenue is a whole number of cents, so its own `toFixed(2)` changes nothing. */
  lemma SummaryRevenueWholeCents(rows: seq<Row>)
    ensures RoundCents(CalculateSummary(rows).revenue) == CalculateSummary(rows).revenue
  {
    ShownRevenueCents(rows);
    RoundCentsOfCents(SumInt(rows, RowCents));
  }

  /** Rounding every row to the cent moves the summary's revenue by at most half a cent a row. */
  lemma {:induction false} SummaryRevenueNearExact(rows: seq<Row>)
    ensures -0.005 * |rows| as real <= CalculateSummary(rows).revenue - SumReal(rows, ExactRevenueOf) <= 0.005 * |rows| as real
    decreases |rows|
  {
    if rows != [] {
      var r' := rows[..|rows| - 1];
      SummaryRevenueNearExact(r');
      RoundCentsClose(rows[|rows| - 1].revenue);
    }
  }
}

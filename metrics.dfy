/**
 * What the three generators share: the report settings, the row they emit,
 * JavaScript's rounding, and the tables of rates and prices.
 */
module Metrics {
  import opened Wrappers
  import opened Calendar
  import opened Rooms
  import opened ClosedRooms
  import opened Roster

  /** The inputs of a report apart from its date range: filter, the two check boxes and the closed-room list. */
  datatype Settings = Settings(filter: Filter, includeClosed: bool, revIncludesTax: bool, closed: seq<ClosedRoom>)

  /**
   * A row of the report table. `caption` is the daily `date` or the weekly and
   * monthly `period`; `weekday` is the daily `day` (0 = Sunday) and
   * `unavailableRooms` is only set by the daily generator. The money and ratio
   * fields hold the numbers the source formats with `toFixed`.
   */
  datatype Row = Row(
    caption: string,
    weekday: Option<int>,
    availableRooms: int,
    soldRooms: int,
    guests: int,
    occupancyPercentage: real,
    revPAR: real,
    adr: real,
    revenue: real,
    unavailableRooms: Option<int>,
    guestDetails: seq<GuestRecord>)

  /** The closed-room list the dashboard starts with and never changes. */
  const BuiltInClosedRooms: seq<ClosedRoom> := [
    ClosedRoom(5, "Standard", "Maintenance", "01 Feb 2025", "10 Feb 2025"),
    ClosedRoom(12, "Deluxe", "Renovation", "05 Feb 2025", "20 Feb 2025"),
    ClosedRoom(17, "Suite", "Water Damage", "15 Feb 2025", "28 Feb 2025")
  ]

  /** `getUnavailableRoomCount(d, roomType)` under the report settings. */
  function Unavailable(st: Settings, d: Date): int {
    UnavailableCount(st.closed, st.includeClosed, d, st.filter)
  }

  /** With the built-in list, at most three rooms are ever closed, fewer than any filter's capacity. */
  lemma BuiltInBelowCapacity(st: Settings, d: Date)
    requires st.closed == BuiltInClosedRooms
    ensures 0 <= Unavailable(st, d) <= 3 < Capacity(st.filter)
  {
    UnavailableCountBounds(st.closed, st.includeClosed, d, st.filter);
  }

  /** `c` rooms a day less at most `k <= 3` closed a day leave at least one a day. */
  lemma RoomNightsLeft(c: int, k: int, days: int, n: int)
    requires 4 <= c && 0 <= k <= 3 && 0 <= days && 0 <= n <= k * days
    ensures days <= c * days - n <= c * days
  {
    assert k * days <= 3 * days;
    assert 4 * days <= c * days;
  }

  // ---------------------------------------------------------------------------
  // Rounding

  /** `Math.round(x)`: the nearest integer, halves rounded up. */
  function JsRound(x: real): int {
    (x + 0.5).Floor
  }

  lemma JsRoundBounds(x: real)
    ensures x - 0.5 < JsRound(x) as real <= x + 0.5
    ensures x >= 0.0 ==> JsRound(x) >= 0
  {
  }

  /** A whole number is its own rounding. */
  lemma JsRoundWhole(n: int)
    ensures JsRound(n as real) == n
  {
  }

  /** Rounding `a * rate` for a rate between 0 and 1 sells between none and all of `a` nights. */
  lemma SoldWithin(a: int, rate: real)
    requires 0 <= a && 0.0 <= rate < 1.0
    ensures 0 <= JsRound(a as real * rate) <= a
  {
    ScaleBelowOne(a as real, rate);
    JsRoundBounds(a as real * rate);
  }

  lemma ScaleBelowOne(x: real, rate: real)
    requires 0.0 <= x && 0.0 <= rate < 1.0
    ensures 0.0 <= x * rate <= x
  {
    assert x * rate <= x * 1.0;
  }

  /** `Math.floor(x * 1.6)`, the guest count drawn from `x` sold room nights. */
  function GuestsFor(sold: int): int {
    (sold as real * 1.6).Floor
  }

  lemma GuestsForBounds(sold: int)
    ensures sold >= 0 ==> sold <= GuestsFor(sold) <= 2 * sold
    ensures GuestsFor(sold) as real <= sold as real * 1.6 < GuestsFor(sold) as real + 1.0
  {
  }

  /** `parseFloat(x.toFixed(2))`: the nearest cent, halves away from zero. */
  function RoundCents(x: real): real {
    if x >= 0.0 then (x * 100.0 + 0.5).Floor as real / 100.0
    else -((-x * 100.0 + 0.5).Floor as real / 100.0)
  }

  lemma RoundCentsClose(x: real)
    ensures -0.005 <= RoundCents(x) - x <= 0.005
    ensures x >= 0.0 ==> RoundCents(x) >= 0.0
  {
    if x >= 0.0 {
      var n := (x * 100.0 + 0.5).Floor;
      assert n as real <= x * 100.0 + 0.5 < n as real + 1.0;
    } else {
      var n := (-x * 100.0 + 0.5).Floor;
      assert n as real <= -x * 100.0 + 0.5 < n as real + 1.0;
    }
  }

  /** A whole number of cents stays as it is. */
  lemma RoundCentsOfCents(n: int)
    ensures RoundCents(n as real / 100.0) == n as real / 100.0
  {
    var x := n as real / 100.0;
    assert x * 100.0 == n as real;
    if x >= 0.0 {
      assert (x * 100.0 + 0.5).Floor == n;
    } else {
      assert -x * 100.0 == (-n) as real;
      assert (-x * 100.0 + 0.5).Floor == -n;
    }
  }

  /** Rounding to cents twice is rounding once. */
  lemma RoundCentsIdempotent(x: real)
    ensures RoundCents(RoundCents(x)) == RoundCents(x)
  {
    if x >= 0.0 {
      RoundCentsOfCents((x * 100.0 + 0.5).Floor);
    } else {
      var n := (-x * 100.0 + 0.5).Floor;
      RoundCentsOfCents(-n);
      assert RoundCents(x) == (-n) as real / 100.0;
    }
  }

  /** `whole > 0 ? part / whole : 0`, the guard every ratio of a row carries. */
  function Share(part: real, whole: real): real {
    if whole > 0.0 then part / whole else 0.0
  }

  /** A part of a positive whole no larger than the whole is a share between 0 and 1. */
  lemma ShareAtMostOne(part: real, whole: real)
    requires 0.0 <= part <= whole && whole > 0.0
    ensures 0.0 <= part / whole <= 1.0
  {
    assert part / whole * whole == part;
  }

  // ---------------------------------------------------------------------------
  // Rates and tables

  /** `revIncludesTax ? 1.1 : 1`. */
  function TaxFactor(tax: bool): real {
    if tax then 1.1 else 1.0
  }

  /** The daily nightly rate: 220 at weekends, 189 otherwise, raised 15% per tier for one room type. */
  function DailyRate(f: Filter, weekend: bool): real {
    var base := if weekend then 220.0 else 189.0;
    match f
    case AllTypes => base
    case OnlyType(t) => base * (1.0 + TypeIndex(t) as real * 0.15)
  }

  lemma DailyRateBounds(f: Filter, weekend: bool)
    ensures 189.0 <= DailyRate(f, weekend) <= 352.0
    ensures f.AllTypes? ==> DailyRate(f, weekend) == (if weekend then 220.0 else 189.0)
    ensures DailyRate(f, false) < DailyRate(f, true)
  {
  }

  /** `baseOccupancies`, indexed by `weekIndex % 5`. */
  function BaseOccupancy(k: int): real {
    if k == 0 then 0.72 else if k == 1 then 0.78 else if k == 2 then 0.68 else if k == 3 then 0.82 else 0.75
  }

  function Clamp(lo: real, hi: real, x: real): real {
    if x < lo then lo else if x > hi then hi else x
  }

  /** `Math.min(0.95, Math.max(0.5, base + (random() * variability * 2 - variability)))`. */
  function WeeklyOccupancy(v: real, weekIndex: nat): real {
    Clamp(0.5, 0.95, BaseOccupancy(weekIndex % 5) + (v * 0.05 * 2.0 - 0.05))
  }

  /** The clamp never bites: every weekly rate lies within 5 points of its base, inside `[0.63, 0.87)`. */
  lemma WeeklyOccupancyUnclamped(v: real, weekIndex: nat)
    requires 0.0 <= v < 1.0
    ensures WeeklyOccupancy(v, weekIndex) == BaseOccupancy(weekIndex % 5) + (v * 0.05 * 2.0 - 0.05)
    ensures BaseOccupancy(weekIndex % 5) - 0.05 <= WeeklyOccupancy(v, weekIndex) < BaseOccupancy(weekIndex % 5) + 0.05
    ensures 0.63 <= WeeklyOccupancy(v, weekIndex) < 0.87
  {
  }

  /** `seasonalADR + (occupancyRate > 0.8 ? 15 : 0)` with 250 raised 20 in the second, lowered 15 in the third of every four weeks. */
  function WeeklyAdr(weekIndex: nat, rate: real): real {
    var adjustment := if weekIndex % 4 == 1 then 20 else if weekIndex % 4 == 2 then -15 else 5;
    (250 + adjustment) as real + (if rate > 0.8 then 15.0 else 0.0)
  }

  lemma WeeklyAdrBounds(weekIndex: nat, rate: real)
    ensures 235.0 <= WeeklyAdr(weekIndex, rate) <= 285.0
    ensures rate > 0.8 ==> WeeklyAdr(weekIndex, rate) == WeeklyAdr(weekIndex, 0.0) + 15.0
  {
  }

  /** `occupancyRates[monthIndex] || 0.75`. */
  function MonthlyOccupancy(m: int): real {
    match m
    case 0 => 0.65 case 1 => 0.775 case 2 => 0.71 case 3 => 0.68
    case 4 => 0.72 case 5 => 0.82 case 6 => 0.88 case 7 => 0.90
    case 8 => 0.76 case 9 => 0.69 case 10 => 0.72 case 11 => 0.88
    case _ => 0.75
  }

  /** `monthlyADRs[monthIndex] || 250.00`. */
  function MonthlyAdr(m: int): real {
    match m
    case 0 => 230.50 case 1 => 257.66 case 2 => 245.80 case 3 => 235.20
    case 4 => 252.50 case 5 => 275.30 case 6 => 290.80 case 7 => 298.50
    case 8 => 268.75 case 9 => 245.90 case 10 => 252.40 case 11 => 310.25
    case _ => 250.00
  }

  /** Every month's table rate, the fallback 0.75 included, lies in [0.65, 0.90], and every price in [230.50, 310.25]. */
  lemma MonthlyTablesBounds(m: int)
    ensures 0.65 <= MonthlyOccupancy(m) <= 0.90
    ensures 230.50 <= MonthlyAdr(m) <= 310.25
  {
  }

  /** The month names of the monthly labels. */
  function MonthName(m: int): string {
    match m
    case 0 => "January" case 1 => "February" case 2 => "March" case 3 => "April"
    case 4 => "May" case 5 => "June" case 6 => "July" case 7 => "August"
    case 8 => "September" case 9 => "October" case 10 => "November" case _ => "December"
  }

  /** The suffix a partial week or month gets: `" (N days)"`. */
  function DaysSuffix(days: int): string {
    " (" + IntToString(days) + " days)"
  }
}

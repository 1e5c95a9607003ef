/**
 * The period expander: how each generator turns the report's date range into
 * periods. Days run from `from` to `to`; weeks are Sunday-aligned 7-day
 * windows; months are calendar months clipped to the range. As in the
 * source, the weekly and monthly lists may hold periods that overlap the
 * range in no day; the generators skip those.
 */
module Periods {
  import opened Wrappers
  import opened Calendar

  // ---------------------------------------------------------------------------
  // Days

  /** `datesArray` of `generateDailyData`: every date from `from` through `to`. */
  function DailyDates(from: Date, to: Date): seq<Date>
    decreases DayNumber(to) - DayNumber(from) + 1
  {
    if DayNumber(to) < DayNumber(from) then []
    else
      NextDayNumber(from);
      [from] + DailyDates(NextDay(from), to)
  }

  /** One date per day of the range, in order, and none when `to < from`. */
  lemma {:induction false} DailyDatesShape(from: Date, to: Date)
    ensures |DailyDates(from, to)| == MaxInt(0, DayNumber(to) - DayNumber(from) + 1)
    ensures forall k :: 0 <= k < |DailyDates(from, to)| ==>
              DailyDates(from, to)[k] == AddDays(from, k) && DayNumber(DailyDates(from, to)[k]) == DayNumber(from) + k
    decreases DayNumber(to) - DayNumber(from) + 1
  {
    if DayNumber(to) >= DayNumber(from) {
      NextDayNumber(from);
      var rest := DailyDates(NextDay(from), to);
      DailyDatesShape(NextDay(from), to);
      assert DailyDates(from, to) == [from] + rest;
      forall k | 0 <= k < |DailyDates(from, to)|
        ensures DailyDates(from, to)[k] == AddDays(from, k) && DayNumber(DailyDates(from, to)[k]) == DayNumber(from) + k
      {
        if k > 0 {
          assert DailyDates(from, to)[k] == rest[k - 1];
        }
      }
    }
  }

  // ---------------------------------------------------------------------------
  // Weeks

  /** An entry of `weekBoundaries`. */
  datatype Window = Window(start: Date, end: Date, caption: string)

  /** `firstSunday`: `setDate(getDate() - getDay())`. */
  function WeekStart(d: Date): (r: Date)
    ensures Weekday(r) == 0
    ensures DayNumber(d) - 6 <= DayNumber(r) <= DayNumber(d)
  {
    AddDaysNumber(d, -Weekday(d));
    WeekdayShift(d, AddDays(d, -Weekday(d)), -Weekday(d));
    AddDays(d, -Weekday(d))
  }

  /** The boundary pushed for a week starting on `ws`: the window is `ws` and the six days after it. */
  function MakeWindow(ws: Date): Window {
    var we := AddDays(ws, 6);
    Window(ws, we, FormatDate(ws) + " - " + FormatDate(we))
  }

  /** The boundary loop: windows 7 days apart from `ws` while their start is not after `to`. */
  function WindowsFrom(ws: Date, to: Date): seq<Window>
    decreases DayNumber(to) - DayNumber(ws) + 1
  {
    if DayNumber(to) < DayNumber(ws) then []
    else
      AddDaysNumber(ws, 7);
      [MakeWindow(ws)] + WindowsFrom(AddDays(ws, 7), to)
  }

  function WeekBoundaries(from: Date, to: Date): seq<Window> {
    WindowsFrom(WeekStart(from), to)
  }

  /** The `daysInRange` of one window: its overlap with `[from, to]`. */
  function Overlap(from: Date, to: Date, w: Window): int {
    DaysInRange(from, to, w.start, w.end)
  }

  function OverlapTotal(ws: seq<Window>, from: Date, to: Date): int {
    if ws == [] then 0 else Overlap(from, to, ws[0]) + OverlapTotal(ws[1..], from, to)
  }

  /** The boundary loop runs while window starts are not after `to`, and no further. */
  lemma {:induction false} WindowsCount(ws: Date, to: Date)
    ensures var r := WindowsFrom(ws, to);
      && (|r| == 0 <==> DayNumber(to) < DayNumber(ws))
      && DayNumber(to) < DayNumber(ws) + 7 * |r|
    decreases DayNumber(to) - DayNumber(ws) + 1
  {
    if DayNumber(to) >= DayNumber(ws) {
      AddDaysNumber(ws, 7);
      WindowsCount(AddDays(ws, 7), to);
    }
  }

  /** Window `i` of the loop started on `ws`: it starts `7 * i` days after `ws`, on the same weekday, no later than `to`, and spans 7 days. */
  predicate WindowAt(w: Window, ws: Date, to: Date, i: int) {
    && DayNumber(w.start) == DayNumber(ws) + 7 * i
    && DayNumber(w.end) == DayNumber(w.start) + 6
    && DayNumber(w.start) <= DayNumber(to)
    && Weekday(w.start) == Weekday(ws)
  }

  /** Windows are consecutive 7-day spans, each starting on the weekday of `ws` and no later than `to`. */
  lemma {:induction false} WindowsAt(ws: Date, to: Date)
    ensures forall i :: 0 <= i < |WindowsFrom(ws, to)| ==> WindowAt(WindowsFrom(ws, to)[i], ws, to, i)
    decreases DayNumber(to) - DayNumber(ws) + 1
  {
    if DayNumber(to) >= DayNumber(ws) {
      var next := AddDays(ws, 7);
      AddDaysNumber(ws, 7);
      AddDaysNumber(ws, 6);
      WindowsAt(next, to);
      var r, rest := WindowsFrom(ws, to), WindowsFrom(next, to);
      assert r == [MakeWindow(ws)] + rest;
      forall i | 0 <= i < |r|
        ensures WindowAt(r[i], ws, to, i)
      {
        if i > 0 {
          assert r[i] == rest[i - 1];
          assert WindowAt(rest[i - 1], next, to, i - 1);
          WeekdayWeekLater(ws, next);
        } else {
          assert r[0] == MakeWindow(ws);
        }
      }
    }
  }

  /** The windows' overlaps add up to the days of `[max(from, ws), to]`. */
  lemma {:induction false} OverlapTotalFrom(ws: Date, from: Date, to: Date)
    ensures OverlapTotal(WindowsFrom(ws, to), from, to)
            == MaxInt(0, DayNumber(to) - MaxInt(DayNumber(from), DayNumber(ws)) + 1)
    decreases DayNumber(to) - DayNumber(ws) + 1
  {
    if DayNumber(to) >= DayNumber(ws) {
      var next := AddDays(ws, 7);
      AddDaysNumber(ws, 7);
      AddDaysNumber(ws, 6);
      OverlapTotalFrom(next, from, to);
      var r := WindowsFrom(ws, to);
      assert r[0] == MakeWindow(ws) && r[1..] == WindowsFrom(next, to);
    }
  }

  /**
   * Weekly expansion: the first window starts on the Sunday on or before
   * `from`, windows follow 7 days apart while they start no later than `to`,
   * each overlaps the range in at most 7 days, and the overlaps partition the
   * range. When `from <= to` no window is skipped; when `to < from` all are.
   */
  lemma WeekBoundariesShape(from: Date, to: Date)
    ensures var r := WeekBoundaries(from, to);
      && (|r| > 0 ==> Weekday(r[0].start) == 0 && DayNumber(from) - 6 <= DayNumber(r[0].start) <= DayNumber(from))
      && (forall i :: 0 <= i < |r| ==> Weekday(r[i].start) == 0 && DayNumber(r[i].start) <= DayNumber(to))
      && (forall i :: 0 <= i < |r| - 1 ==> DayNumber(r[i + 1].start) == DayNumber(r[i].start) + 7)
      && (forall i :: 0 <= i < |r| ==> 0 <= Overlap(from, to, r[i]) <= 7)
      && (DayNumber(from) <= DayNumber(to) ==> |r| > 0 && forall i :: 0 <= i < |r| ==> Overlap(from, to, r[i]) > 0)
      && (DayNumber(to) < DayNumber(from) ==> forall i :: 0 <= i < |r| ==> Overlap(from, to, r[i]) == 0)
      && OverlapTotal(r, from, to) == MaxInt(0, DayNumber(to) - DayNumber(from) + 1)
  {
    var ws := WeekStart(from);
    var r := WeekBoundaries(from, to);
    WindowsCount(ws, to);
    WindowsAt(ws, to);
    OverlapTotalFrom(ws, from, to);
    assert forall i :: 0 <= i < |r| ==> WindowAt(r[i], ws, to, i);
    forall i | 0 <= i < |r|
      ensures 0 <= Overlap(from, to, r[i]) <= 7
      ensures DayNumber(from) <= DayNumber(to) ==> Overlap(from, to, r[i]) > 0
      ensures DayNumber(to) < DayNumber(from) ==> Overlap(from, to, r[i]) == 0
    {
      DaysInRangeCounts(from, to, r[i].start, r[i].end);
    }
    if DayNumber(from) <= DayNumber(to) {
      assert DayNumber(ws) <= DayNumber(to);
    }
  }

  // ---------------------------------------------------------------------------
  // Months

  /** A month of the monthly loop: its year and index, its span clipped to the range, and its length. */
  datatype MonthSpan = MonthSpan(year: int, monthIndex: nat, start: Date, end: Date, days: int, monthLength: int)

  /** `monthStart`, `monthEnd`, `daysInMonth` and the month length the partial-month test uses. */
  function MonthSpanOf(cur: Date, from: Date, to: Date): MonthSpan {
    var y, m := cur.year, cur.month;
    var monthStart := MaxDate(from, MakeDate(y, m, 1));
    var monthEnd := MinDate(to, MakeDate(y, m + 1, 0));
    MonthSpan(y, m, monthStart, monthEnd, DaysInRange(monthStart, monthEnd, monthStart, monthEnd), MakeDate(y, m + 1, 0).day)
  }

  lemma SetMonthAdvances(d: Date)
    ensures DayNumber(SetMonth(d, d.month + 1)) > DayNumber(d)
  {
    var next: Date := if d.month < 11 then Ymd(d.year, d.month + 1, 1) else Ymd(d.year + 1, 0, 1);
    assert SetMonth(d, d.month + 1) == AddDays(next, d.day - 1) by {
      assert FoldMonth(d.year, d.month + 1) == (next.year, next.month);
    }
    assert DayNumber(next) > DayNumber(d) by {
      FirstOfNextMonth(d);
      NextDayNumber(LastOfMonth(d));
    }
    AddDaysNumber(next, d.day - 1);
  }

  /** The month loop: `currentMonth` advances with `setMonth(getMonth() + 1)` while it is not after `endMonth`. */
  function MonthCursors(cur: Date, endMonth: Date): seq<Date>
    decreases DayNumber(endMonth) - DayNumber(cur) + 1
  {
    if DayNumber(endMonth) < DayNumber(cur) then []
    else
      SetMonthAdvances(cur);
      [cur] + MonthCursors(SetMonth(cur, cur.month + 1), endMonth)
  }

  /** The month computed on each visit of the loop. */
  function SpansOf(cursors: seq<Date>, from: Date, to: Date): (r: seq<MonthSpan>)
    ensures |r| == |cursors|
  {
    if cursors == [] then [] else [MonthSpanOf(cursors[0], from, to)] + SpansOf(cursors[1..], from, to)
  }

  lemma {:induction false} SpansOfAt(cursors: seq<Date>, from: Date, to: Date, i: int)
    requires 0 <= i < |cursors|
    ensures SpansOf(cursors, from, to)[i] == MonthSpanOf(cursors[i], from, to)
  {
    if i > 0 {
      SpansOfAt(cursors[1..], from, to, i - 1);
    }
  }

  /** From `startMonth = new Date(from's year, from's month, 1)` to `endMonth = new Date(to's year, to's month + 1, 0)`. */
  function MonthSpans(from: Date, to: Date): seq<MonthSpan> {
    SpansOf(MonthCursors(MakeDate(from.year, from.month, 1), MakeDate(to.year, to.month + 1, 0)), from, to)
  }

  /** The months since year 0, counted so that consecutive months differ by one. */
  function AbsMonth(d: Date): int { 12 * d.year + d.month }

  /** A date no later than another falls in the same or an earlier month. */
  lemma AbsMonthOrder(a: Date, b: Date)
    ensures DayNumber(a) <= DayNumber(b) ==> AbsMonth(a) <= AbsMonth(b)
  {
    if AbsMonth(b) < AbsMonth(a) {
      DayNumberLess(b, a);
    }
  }

  lemma AbsMonthYear(a: Date, b: Date)
    requires AbsMonth(a) <= AbsMonth(b)
    ensures a.year <= b.year
    ensures AbsMonth(a) == AbsMonth(b) ==> a.year == b.year && a.month == b.month
  {
  }

  /** The first day of the month after the one of `d`. */
  function NextFirst(d: Date): (r: Date)
    ensures AbsMonth(r) == AbsMonth(d) + 1 && r.day == 1
  {
    if d.month < 11 then Ymd(d.year, d.month + 1, 1) else Ymd(d.year + 1, 0, 1)
  }

  lemma NextFirstNumber(d: Date)
    ensures DayNumber(NextFirst(d)) == DayNumber(LastOfMonth(d)) + 1
    ensures d.day == 1 ==> SetMonth(d, d.month + 1) == NextFirst(d)
  {
    FirstOfNextMonth(d);
    NextDayNumber(LastOfMonth(d));
    if d.day == 1 {
      NextMonthStart(d);
    }
  }

  /** The first of a later month comes after every day of an earlier month. */
  lemma {:induction false} LaterMonthStartsLater(a: Date, b: Date)
    requires b.day == 1 && AbsMonth(a) < AbsMonth(b)
    ensures DayNumber(LastOfMonth(a)) < DayNumber(b)
    decreases AbsMonth(b) - AbsMonth(a)
  {
    var n := NextFirst(a);
    NextFirstNumber(a);
    if AbsMonth(n) < AbsMonth(b) {
      LaterMonthStartsLater(n, b);
      FirstOfNextMonth(n);
    } else {
      assert n == b;
    }
  }

  /** How a day `d` lies against the first `c` of some month. */
  lemma DateAgainstMonthStart(d: Date, c: Date)
    requires c.day == 1
    ensures AbsMonth(c) > AbsMonth(d) ==> DayNumber(d) < DayNumber(c)
    ensures AbsMonth(c) < AbsMonth(d) ==> DayNumber(LastOfMonth(c)) < DayNumber(d)
    ensures AbsMonth(c) == AbsMonth(d) ==> c == FirstOfMonth(d)
  {
    FirstOfNextMonth(d);
    FirstOfNextMonth(c);
    if AbsMonth(c) > AbsMonth(d) {
      LaterMonthStartsLater(d, c);
    } else if AbsMonth(c) < AbsMonth(d) {
      LaterMonthStartsLater(c, FirstOfMonth(d));
    } else {
      AbsMonthYear(c, d);
    }
  }

  /** Reference definition: the days of the month starting on `c` that lie in `[from, to]`. */
  function ClippedDays(c: Date, from: Date, to: Date): int {
    MaxInt(0, MinInt(DayNumber(to), DayNumber(LastOfMonth(c))) - MaxInt(DayNumber(from), DayNumber(c)) + 1)
  }

  /** The span `MonthSpanOf` computes for a month starting on `c`. */
  lemma MonthSpanOfCursor(c: Date, from: Date, to: Date)
    requires c.day == 1 && 100 <= c.year
    ensures var s := MonthSpanOf(c, from, to);
      && s.year == c.year && s.monthIndex == c.month
      && s.monthLength == MonthLength(c.year, c.month)
      && s.start == MaxDate(from, c)
      && s.end == MinDate(to, LastOfMonth(c))
      && s.days == ClippedDays(c, from, to)
  {
    MakeFirstOfMonth(c.year, c.month);
    GetDaysInMonthIsLength(c.year, c.month);
  }

  /** A month wholly inside the range is the whole month: from its first to its last day, all its days. */
  lemma MonthSpanInside(c: Date, from: Date, to: Date)
    requires c.day == 1 && 100 <= c.year
    requires DayNumber(from) <= DayNumber(c) && DayNumber(LastOfMonth(c)) <= DayNumber(to)
    ensures MonthSpanOf(c, from, to)
            == MonthSpan(c.year, c.month, c, LastOfMonth(c), MonthLength(c.year, c.month), MonthLength(c.year, c.month))
  {
    MonthSpanOfCursor(c, from, to);
    DayNumberInjective(from, c);
    DayNumberInjective(to, LastOfMonth(c));
  }

  /** Every date the loop visits is no later than `endMonth`. */
  lemma {:induction false} MonthCursorsBounded(cur: Date, endMonth: Date)
    ensures forall i :: 0 <= i < |MonthCursors(cur, endMonth)| ==> DayNumber(MonthCursors(cur, endMonth)[i]) <= DayNumber(endMonth)
    decreases DayNumber(endMonth) - DayNumber(cur) + 1
  {
    if DayNumber(endMonth) >= DayNumber(cur) {
      var nxt := SetMonth(cur, cur.month + 1);
      var cs, rest := MonthCursors(cur, endMonth), MonthCursors(nxt, endMonth);
      assert cs == [cur] + rest && DayNumber(cur) < DayNumber(nxt) by {
        SetMonthAdvances(cur);
      }
      MonthCursorsBounded(nxt, endMonth);
      forall i | 0 <= i < |cs|
        ensures DayNumber(cs[i]) <= DayNumber(endMonth)
      {
        if i > 0 {
          assert cs[i] == rest[i - 1];
        }
      }
    }
  }

  /** One turn of the month loop from the first of a month. */
  lemma MonthCursorsStep(cur: Date, endMonth: Date)
    requires cur.day == 1 && DayNumber(endMonth) >= DayNumber(cur)
    ensures MonthCursors(cur, endMonth) == [cur] + MonthCursors(NextFirst(cur), endMonth)
    ensures DayNumber(cur) < DayNumber(NextFirst(cur))
  {
    NextFirstNumber(cur);
    FirstOfNextMonth(cur);
  }

  /** Started on the first of a month, the loop visits the firsts of consecutive months. */
  lemma {:induction false} MonthCursorsFirsts(cur: Date, endMonth: Date)
    requires cur.day == 1
    ensures var cs := MonthCursors(cur, endMonth);
      forall i :: 0 <= i < |cs| ==> cs[i].day == 1 && AbsMonth(cs[i]) == AbsMonth(cur) + i
    decreases DayNumber(endMonth) - DayNumber(cur) + 1
  {
    var cs := MonthCursors(cur, endMonth);
    if DayNumber(endMonth) >= DayNumber(cur) {
      var rest := MonthCursors(NextFirst(cur), endMonth);
      MonthCursorsStep(cur, endMonth);
      MonthCursorsFirsts(NextFirst(cur), endMonth);
      forall i | 0 <= i < |cs|
        ensures cs[i].day == 1 && AbsMonth(cs[i]) == AbsMonth(cur) + i
      {
        if i > 0 {
          assert cs[i] == rest[i - 1];
        }
      }
    }
  }

  /** Each date the loop visits is the first of the month after the one before it. */
  lemma {:induction false} MonthCursorsLinked(cur: Date, endMonth: Date)
    requires cur.day == 1
    ensures var cs := MonthCursors(cur, endMonth);
      forall i :: 0 <= i < |cs| - 1 ==> cs[i + 1] == NextFirst(cs[i])
    decreases DayNumber(endMonth) - DayNumber(cur) + 1
  {
    var cs := MonthCursors(cur, endMonth);
    if DayNumber(endMonth) >= DayNumber(cur) {
      var rest := MonthCursors(NextFirst(cur), endMonth);
      MonthCursorsStep(cur, endMonth);
      MonthCursorsLinked(NextFirst(cur), endMonth);
      forall i | 0 <= i < |cs| - 1
        ensures cs[i + 1] == NextFirst(cs[i])
      {
        if i > 0 {
          assert cs[i] == rest[i - 1] && cs[i + 1] == rest[i];
        }
      }
    }
  }

  /** The loop stops at the first month that starts after `endMonth`. */
  lemma {:induction false} MonthCursorsStop(cur: Date, endMonth: Date)
    requires cur.day == 1
    ensures var cs := MonthCursors(cur, endMonth);
      && (cs == [] ==> DayNumber(endMonth) < DayNumber(cur))
      && (cs != [] ==> DayNumber(endMonth) < DayNumber(NextFirst(cs[|cs| - 1])))
    decreases DayNumber(endMonth) - DayNumber(cur) + 1
  {
    var cs := MonthCursors(cur, endMonth);
    if DayNumber(endMonth) >= DayNumber(cur) {
      var rest := MonthCursors(NextFirst(cur), endMonth);
      MonthCursorsStep(cur, endMonth);
      MonthCursorsStop(NextFirst(cur), endMonth);
      if rest != [] {
        assert cs[|cs| - 1] == rest[|rest| - 1];
      }
    }
  }

  /**
   * Started on the first of a month, the loop visits the firsts of consecutive
   * months, and stops at the first month that starts after `endMonth`.
   */
  lemma MonthCursorsAt(cur: Date, endMonth: Date)
    requires cur.day == 1
    ensures var cs := MonthCursors(cur, endMonth);
      && (forall i :: 0 <= i < |cs| ==> cs[i].day == 1 && AbsMonth(cs[i]) == AbsMonth(cur) + i)
      && (forall i :: 0 <= i < |cs| - 1 ==> cs[i + 1] == NextFirst(cs[i]))
      && (cs == [] ==> DayNumber(endMonth) < DayNumber(cur))
      && (cs != [] ==> DayNumber(endMonth) < DayNumber(NextFirst(cs[|cs| - 1])))
  {
    MonthCursorsFirsts(cur, endMonth);
    MonthCursorsLinked(cur, endMonth);
    MonthCursorsStop(cur, endMonth);
  }

  function DaysTotal(spans: seq<MonthSpan>): int {
    if spans == [] then 0 else spans[0].days + DaysTotal(spans[1..])
  }

  function ClippedTotal(cs: seq<Date>, from: Date, to: Date): int {
    if cs == [] then 0 else ClippedDays(cs[0], from, to) + ClippedTotal(cs[1..], from, to)
  }

  /** The spans the loop computes carry the reference day counts. */
  lemma {:induction false} SpansTotal(cs: seq<Date>, from: Date, to: Date)
    requires forall i :: 0 <= i < |cs| ==> cs[i].day == 1 && 100 <= cs[i].year
    ensures DaysTotal(SpansOf(cs, from, to)) == ClippedTotal(cs, from, to)
  {
    if cs != [] {
      SpansTotal(cs[1..], from, to);
      MonthSpanOfCursor(cs[0], from, to);
      var spans := SpansOf(cs, from, to);
      assert spans[1..] == SpansOf(cs[1..], from, to);
    }
  }

  /**
   * Months that follow each other without gap, the last of them reaching
   * `to`, clip to the days of `[max(from, first start), to]`.
   */
  lemma {:induction false} ChainTotal(cs: seq<Date>, from: Date, to: Date)
    requires |cs| > 0
    requires forall i :: 0 <= i < |cs| ==> DayNumber(cs[i]) <= DayNumber(LastOfMonth(cs[i]))
    requires forall i :: 0 <= i < |cs| - 1 ==> DayNumber(cs[i + 1]) == DayNumber(LastOfMonth(cs[i])) + 1
    requires DayNumber(to) <= DayNumber(LastOfMonth(cs[|cs| - 1]))
    ensures ClippedTotal(cs, from, to) == MaxInt(0, DayNumber(to) - MaxInt(DayNumber(from), DayNumber(cs[0])) + 1)
  {
    if |cs| > 1 {
      var rest := cs[1..];
      assert forall i :: 0 <= i < |rest| ==> rest[i] == cs[i + 1];
      ChainTotal(rest, from, to);
    }
  }

  /** The loop's ends: `startMonth` is the first of `from`'s month, `endMonth` the last day of `to`'s. */
  lemma LoopEnds(from: Date, to: Date)
    requires 100 <= from.year && 100 <= to.year
    ensures MakeDate(from.year, from.month, 1) == FirstOfMonth(from)
    ensures MakeDate(to.year, to.month + 1, 0) == LastOfMonth(to)
  {
    MakeFirstOfMonth(from.year, from.month);
    GetDaysInMonthIsLength(to.year, to.month);
  }

  /** The months the report computes are those of the cursors from the first of `from`'s month to the last of `to`'s. */
  lemma MonthSpansCursors(from: Date, to: Date)
    requires 100 <= from.year && 100 <= to.year
    ensures MonthSpans(from, to) == SpansOf(MonthCursors(FirstOfMonth(from), LastOfMonth(to)), from, to)
  {
    LoopEnds(from, to);
  }

  /** The loop visits one first-of-month per month from that of `from` through that of `to`. */
  lemma MonthCursorsCount(from: Date, to: Date)
    ensures var cs := MonthCursors(FirstOfMonth(from), LastOfMonth(to));
      && |cs| == MaxInt(0, AbsMonth(to) - AbsMonth(from) + 1)
      && (forall i :: 0 <= i < |cs| ==> cs[i].day == 1 && AbsMonth(cs[i]) == AbsMonth(from) + i)
      && (forall i :: 0 <= i < |cs| - 1 ==> cs[i + 1] == NextFirst(cs[i]))
  {
    var c0, endMonth := FirstOfMonth(from), LastOfMonth(to);
    var cs := MonthCursors(c0, endMonth);
    MonthCursorsFirsts(c0, endMonth);
    MonthCursorsLinked(c0, endMonth);
    assert |cs| == MaxInt(0, AbsMonth(to) - AbsMonth(from) + 1) by {
      MonthCursorsStop(c0, endMonth);
      if cs == [] {
        assert AbsMonth(to) < AbsMonth(from) by {
          FirstOfNextMonth(to);
          DateAgainstMonthStart(to, c0);
        }
      } else {
        var last := cs[|cs| - 1];
        assert AbsMonth(last) <= AbsMonth(to) by {
          MonthCursorsBounded(c0, endMonth);
          DateAgainstMonthStart(endMonth, last);
        }
        assert AbsMonth(to) < AbsMonth(NextFirst(last)) by {
          FirstOfNextMonth(to);
          DateAgainstMonthStart(to, NextFirst(last));
        }
      }
    }
  }

  /** Consecutive cursors have no gap between them, and the last one's month holds `to`. */
  lemma MonthCursorsChain(from: Date, to: Date)
    ensures var cs := MonthCursors(FirstOfMonth(from), LastOfMonth(to));
      && (forall i :: 0 <= i < |cs| ==> DayNumber(cs[i]) <= DayNumber(LastOfMonth(cs[i])))
      && (forall i :: 0 <= i < |cs| - 1 ==> DayNumber(cs[i + 1]) == DayNumber(LastOfMonth(cs[i])) + 1)
      && (cs != [] ==> DayNumber(to) <= DayNumber(LastOfMonth(cs[|cs| - 1])) && cs[0] == FirstOfMonth(from))
      && (cs == [] ==> DayNumber(to) < DayNumber(from))
  {
    var c0 := FirstOfMonth(from);
    var cs := MonthCursors(c0, LastOfMonth(to));
    forall i | 0 <= i < |cs|
      ensures DayNumber(cs[i]) <= DayNumber(LastOfMonth(cs[i]))
    {
      FirstOfNextMonth(cs[i]);
    }
    forall i | 0 <= i < |cs| - 1
      ensures DayNumber(cs[i + 1]) == DayNumber(LastOfMonth(cs[i])) + 1
    {
      assert cs[i + 1] == NextFirst(cs[i]) by {
        MonthCursorsLinked(c0, LastOfMonth(to));
      }
      NextFirstNumber(cs[i]);
    }
    if cs == [] {
      assert DayNumber(to) < DayNumber(from) by {
        MonthCursorsCount(from, to);
        FirstOfNextMonth(from);
        DateAgainstMonthStart(to, c0);
      }
    } else {
      var last := cs[|cs| - 1];
      assert AbsMonth(last) == AbsMonth(to) && last.day == 1 && AbsMonth(cs[0]) == AbsMonth(from) && cs[0].day == 1 by {
        MonthCursorsCount(from, to);
      }
      assert DayNumber(to) <= DayNumber(LastOfMonth(last)) by {
        DateAgainstMonthStart(to, last);
        FirstOfNextMonth(to);
      }
      assert cs[0] == c0 by {
        AbsMonthYear(from, cs[0]);
      }
    }
  }

  /** The loop's cursors are firsts of months of a year the `Date` constructor leaves alone. */
  lemma CursorsAreFirsts(from: Date, to: Date)
    requires 100 <= from.year
    ensures var cs := MonthCursors(FirstOfMonth(from), LastOfMonth(to));
      forall i :: 0 <= i < |cs| ==> cs[i].day == 1 && 100 <= cs[i].year
  {
    var cs := MonthCursors(FirstOfMonth(from), LastOfMonth(to));
    MonthCursorsCount(from, to);
    forall i | 0 <= i < |cs|
      ensures cs[i].day == 1 && 100 <= cs[i].year
    {
      AbsMonthYear(from, cs[i]);
    }
  }

  /** The clipped spans partition the range. */
  lemma MonthSpansTotal(from: Date, to: Date)
    requires 100 <= from.year && 100 <= to.year
    ensures DaysTotal(MonthSpans(from, to)) == MaxInt(0, DayNumber(to) - DayNumber(from) + 1)
  {
    var cs := MonthCursors(FirstOfMonth(from), LastOfMonth(to));
    assert DaysTotal(MonthSpans(from, to)) == ClippedTotal(cs, from, to) by {
      MonthSpansCursors(from, to);
      CursorsAreFirsts(from, to);
      SpansTotal(cs, from, to);
    }
    assert ClippedTotal(cs, from, to) == MaxInt(0, DayNumber(to) - DayNumber(from) + 1) by {
      MonthCursorsChain(from, to);
      if cs != [] {
        FirstOfNextMonth(from);
        ChainTotal(cs, from, to);
      }
    }
  }

  /** The span computed for the first `c` of a month between those of `from` and `to`. */
  lemma MonthSpanFacts(from: Date, to: Date, c: Date)
    requires c.day == 1 && 100 <= c.year
    requires AbsMonth(from) <= AbsMonth(c) <= AbsMonth(to)
    ensures var s := MonthSpanOf(c, from, to);
      && 12 * s.year + s.monthIndex == AbsMonth(c)
      && 0 <= s.monthIndex < 12
      && s.monthLength == MonthLength(s.year, s.monthIndex)
      && s.start == MaxDate(from, Ymd(s.year, s.monthIndex, 1))
      && s.end == MinDate(to, Ymd(s.year, s.monthIndex, s.monthLength))
      && 0 <= s.days <= s.monthLength
      && (DayNumber(from) <= DayNumber(to) ==> s.days > 0)
      && (DayNumber(to) < DayNumber(from) ==> s.days == 0)
  {
    MonthSpanOfCursor(c, from, to);
    FirstOfNextMonth(c);
    DateAgainstMonthStart(from, c);
    DateAgainstMonthStart(to, c);
  }

  /**
   * Monthly expansion: one span per calendar month from the month of `from`
   * through the month of `to`, each clipped to `[from, to]`; every span is
   * non-empty when `from <= to`, every span is empty when `to < from`.
   */
  lemma MonthSpansShape(from: Date, to: Date)
    requires 100 <= from.year && 100 <= to.year
    ensures var r := MonthSpans(from, to);
      && |r| == MaxInt(0, AbsMonth(to) - AbsMonth(from) + 1)
      && (forall i :: 0 <= i < |r| ==>
            && 12 * r[i].year + r[i].monthIndex == AbsMonth(from) + i
            && 0 <= r[i].monthIndex < 12
            && r[i].monthLength == MonthLength(r[i].year, r[i].monthIndex)
            && r[i].start == MaxDate(from, Ymd(r[i].year, r[i].monthIndex, 1))
            && r[i].end == MinDate(to, Ymd(r[i].year, r[i].monthIndex, r[i].monthLength))
            && 0 <= r[i].days <= r[i].monthLength
            && (DayNumber(from) <= DayNumber(to) ==> r[i].days > 0)
            && (DayNumber(to) < DayNumber(from) ==> r[i].days == 0))
  {
    var cs := MonthCursors(FirstOfMonth(from), LastOfMonth(to));
    MonthCursorsCount(from, to);
    MonthSpansCursors(from, to);
    var r := MonthSpans(from, to);
    forall i | 0 <= i < |r|
      ensures 12 * r[i].year + r[i].monthIndex == AbsMonth(from) + i
      ensures 0 <= r[i].monthIndex < 12
      ensures r[i].monthLength == MonthLength(r[i].year, r[i].monthIndex)
      ensures r[i].start == MaxDate(from, Ymd(r[i].year, r[i].monthIndex, 1))
      ensures r[i].end == MinDate(to, Ymd(r[i].year, r[i].monthIndex, r[i].monthLength))
      ensures 0 <= r[i].days <= r[i].monthLength
      ensures DayNumber(from) <= DayNumber(to) ==> r[i].days > 0
      ensures DayNumber(to) < DayNumber(from) ==> r[i].days == 0
    {
      SpansOfAt(cs, from, to, i);
      AbsMonthYear(from, cs[i]);
      MonthSpanFacts(from, to, cs[i]);
    }
  }
}

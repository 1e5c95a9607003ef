/**
 * The closed-room index: `getUnavailableRoomCount(date, selectedRoomType)`
 * counts the rooms withdrawn from inventory on a date.
 */
module ClosedRooms {
  import opened Wrappers
  import opened Calendar
  import opened Rooms

  /** An entry of the closed-room list; its dates are "DD Mon YYYY" strings as in the source. */
  datatype ClosedRoom = ClosedRoom(roomId: int, roomType: string, reason: string, startDate: string, endDate: string)

  /** `dateObj >= startDate && dateObj <= endDate`; an unparseable end compares false. */
  predicate Covers(c: ClosedRoom, d: Date) {
    match (ParseDate(c.startDate), ParseDate(c.endDate))
    case (Some(s), Some(e)) => DayNumber(s) <= DayNumber(d) <= DayNumber(e)
    case _ => false
  }

  /** `selectedRoomType === 'all' || selectedRoomType === room.roomType.toLowerCase()`. */
  predicate MatchesFilter(c: ClosedRoom, f: Filter) {
    FilterKey(f) == "all" || FilterKey(f) == AsciiLower(c.roomType)
  }

  predicate Counts(c: ClosedRoom, d: Date, f: Filter) {
    Covers(c, d) && MatchesFilter(c, f)
  }

  /** The elements of `xs` that satisfy `p`, in order: `Array.prototype.filter`. */
  function Keep(xs: seq<ClosedRoom>, p: ClosedRoom -> bool): (r: seq<ClosedRoom>)
    ensures |r| <= |xs|
  {
    if xs == [] then [] else (if p(xs[0]) then [xs[0]] else []) + Keep(xs[1..], p)
  }

  lemma {:induction false} KeepMembers(xs: seq<ClosedRoom>, p: ClosedRoom -> bool, c: ClosedRoom)
    ensures c in Keep(xs, p) <==> c in xs && p(c)
  {
    if xs != [] {
      KeepMembers(xs[1..], p, c);
      assert xs == [xs[0]] + xs[1..];
    }
  }

  lemma {:induction false} KeepAppend(a: seq<ClosedRoom>, b: seq<ClosedRoom>, p: ClosedRoom -> bool)
    ensures Keep(a + b, p) == Keep(a, p) + Keep(b, p)
  {
    if a != [] {
      KeepAppend(a[1..], b, p);
      assert (a + b)[1..] == a[1..] + b;
    } else {
      assert a + b == b;
    }
  }

  lemma {:induction false} KeepAll(xs: seq<ClosedRoom>, p: ClosedRoom -> bool)
    requires forall i :: 0 <= i < |xs| ==> p(xs[i])
    ensures Keep(xs, p) == xs
  {
    if xs != [] {
      assert forall i :: 0 <= i < |xs[1..]| ==> xs[1..][i] == xs[i + 1];
      KeepAll(xs[1..], p);
      assert xs == [xs[0]] + xs[1..];
    }
  }

  /** The entries that make a room unavailable on `d`, in list order. */
  function Closing(closed: seq<ClosedRoom>, d: Date, f: Filter): (r: seq<ClosedRoom>)
    ensures |r| <= |closed|
  {
    Keep(closed, c => Counts(c, d, f))
  }

  /** What `getUnavailableRoomCount` returns. */
  function UnavailableCount(closed: seq<ClosedRoom>, includeClosed: bool, d: Date, f: Filter): int {
    if !includeClosed then 0 else |Closing(closed, d, f)|
  }

  /** An entry is among those counted exactly when it covers the date and matches the filter. */
  lemma ClosingMembers(closed: seq<ClosedRoom>, d: Date, f: Filter, c: ClosedRoom)
    ensures c in Closing(closed, d, f) <==> c in closed && Counts(c, d, f)
  {
    KeepMembers(closed, c => Counts(c, d, f), c);
  }

  lemma ClosingAppend(a: seq<ClosedRoom>, b: seq<ClosedRoom>, d: Date, f: Filter)
    ensures Closing(a + b, d, f) == Closing(a, d, f) + Closing(b, d, f)
  {
    KeepAppend(a, b, c => Counts(c, d, f));
  }

  /** When every entry covers the date and matches the filter, every entry is counted. */
  lemma ClosingAll(closed: seq<ClosedRoom>, d: Date, f: Filter)
    requires forall i :: 0 <= i < |closed| ==> Counts(closed[i], d, f)
    ensures UnavailableCount(closed, true, d, f) == |closed|
  {
    KeepAll(closed, c => Counts(c, d, f));
  }

  /** The count: zero when closed rooms are not included, otherwise at most the list's length. */
  lemma UnavailableCountBounds(closed: seq<ClosedRoom>, includeClosed: bool, d: Date, f: Filter)
    ensures 0 <= UnavailableCount(closed, includeClosed, d, f) <= |closed|
    ensures !includeClosed ==> UnavailableCount(closed, includeClosed, d, f) == 0
    ensures includeClosed && f.AllTypes? ==> UnavailableCount(closed, includeClosed, d, f) == |Closing(closed, d, AllTypes)|
  {
  }

  /** An entry counts for a single-type filter exactly when its type name is that type's. */
  lemma MatchesOneType(c: ClosedRoom, t: RoomType, u: RoomType)
    requires c.roomType == TypeName(t)
    ensures MatchesFilter(c, OnlyType(u)) <==> t == u
    ensures MatchesFilter(c, AllTypes)
  {
    FilterKeyMatchesTypeName(t, u);
  }

  /** `getUnavailableRoomCount` as written: a counter incremented inside `forEach`. */
  method GetUnavailableRoomCount(closed: seq<ClosedRoom>, includeClosed: bool, d: Date, f: Filter) returns (count: int)
    ensures count == UnavailableCount(closed, includeClosed, d, f)
  {
    if !includeClosed {
      return 0;
    }
    count := 0;
    var i := 0;
    while i < |closed|
      invariant 0 <= i <= |closed|
      invariant count == |Closing(closed[..i], d, f)|
    {
      var room := closed[i];
      var startDate := ParseDate(room.startDate);
      var endDate := ParseDate(room.endDate);
      if startDate.Some? && endDate.Some? && DayNumber(startDate.value) <= DayNumber(d) <= DayNumber(endDate.value) {
        if FilterKey(f) == "all" || FilterKey(f) == AsciiLower(room.roomType) {
          count := count + 1;
        }
      }
      ClosingAppend(closed[..i], [room], d, f);
      assert closed[..i + 1] == closed[..i] + [room];
      i := i + 1;
    }
    assert closed[..i] == closed;
  }

  lemma ParsesExampleEnds()
    ensures ParseDate("01 Feb 2025").Some? && ParseDate("01 Feb 2025").value == Ymd(2025, 1, 1)
    ensures ParseDate("10 Feb 2025").Some? && ParseDate("10 Feb 2025").value == Ymd(2025, 1, 10)
  {
    assert Canonical("01 Feb 2025") && Canonical("10 Feb 2025");
    assert "01 Feb 2025"[3..6] == "Feb" && "10 Feb 2025"[3..6] == "Feb";
    assert DayField("10 Feb 2025") == 10 && YearField("10 Feb 2025") == 2025;
    assert DayField("01 Feb 2025") == 1 && YearField("01 Feb 2025") == 2025;
    AddDaysWithinMonth(2025, 1, 10);
  }

  lemma CountSingle(c: ClosedRoom, d: Date, f: Filter)
    ensures UnavailableCount([c], true, d, f) == if Counts(c, d, f) then 1 else 0
  {
    assert [c][1..] == [];
  }

  /** The closed-room list's maintenance entry and the days around its end. */
  const Maintenance := ClosedRoom(5, "Standard", "Maintenance", "01 Feb 2025", "10 Feb 2025")
  const Feb1: Date := Ymd(2025, 1, 1)
  const Feb5: Date := Ymd(2025, 1, 5)
  const Feb10: Date := Ymd(2025, 1, 10)
  const Feb11: Date := Ymd(2025, 1, 11)

  /** The closed-room boundary example: an interval is counted on both of its end days and not after. */
  lemma InclusiveEnds()
    ensures UnavailableCount([Maintenance], true, Feb1, AllTypes) == 1
    ensures UnavailableCount([Maintenance], true, Feb10, AllTypes) == 1
    ensures UnavailableCount([Maintenance], true, Feb11, AllTypes) == 0
    ensures UnavailableCount([Maintenance], true, Feb10, OnlyType(Standard)) == 1
    ensures UnavailableCount([Maintenance], true, Feb10, OnlyType(Deluxe)) == 0
    ensures UnavailableCount([Maintenance], false, Feb5, AllTypes) == 0
  {
    var c := Maintenance;
    ParsesExampleEnds();
    assert DayNumber(Feb10) == DayNumber(Feb1) + 9 && DayNumber(Feb11) == DayNumber(Feb1) + 10;
    assert Covers(c, Feb1) && Covers(c, Feb10) && !Covers(c, Feb11);
    MatchesOneType(c, Standard, Standard);
    MatchesOneType(c, Standard, Deluxe);
    CountSingle(c, Feb1, AllTypes);
    CountSingle(c, Feb10, AllTypes);
    CountSingle(c, Feb11, AllTypes);
    CountSingle(c, Feb10, OnlyType(Standard));
    CountSingle(c, Feb10, OnlyType(Deluxe));
  }
}

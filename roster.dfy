/**
 * The roster synthesizer: the guest records a report row lists for its sold
 * rooms. Every record is drawn from the report's pseudo-random stream in a
 * fixed order; names, phone numbers and notes are kept as the indices and
 * numbers drawn, not as the strings the dashboard assembles from them.
 */
module Roster {
  import opened Wrappers
  import opened Calendar
  import opened Rooms
  import opened Lcg

  /** A guest name: indices into the first-name and last-name pools. */
  datatype Name = Name(first: int, last: int)

  /** An entry of `allGuests`; `isChild` is the source's `type === 'child'`. */
  datatype Occupant = Occupant(name: Name, age: int, isChild: bool)

  /** `+1 AAA-EEE-LLLL`. */
  datatype Phone = Phone(area: int, exchange: int, line: int)

  /** Which generator made a record: ids read `guest-`, `week-guest-` and `month-guest-`. */
  datatype Source = DayRoster | WeekRoster | MonthRoster

  /** The record id: its generator, the period's index and the slot within the period. */
  datatype GuestId = GuestId(source: Source, period: int, slot: int)

  /** An entry of a row's `guestDetails`; its `checkIn`/`checkOut` are `FormatDate` of `CheckIn(stay)`/`CheckOut(stay)`. */
  datatype GuestRecord = GuestRecord(
    id: GuestId,
    room: int,
    roomType: RoomType,
    primaryGuest: Name,
    allGuests: seq<Occupant>,
    stay: Stay,
    phone: Phone,
    note: Option<int>)

  /** A drawn stay: check-in `inOffset` days after `anchor`, for `nights` nights. */
  datatype Stay = Stay(anchor: Date, inOffset: int, nights: int)

  function CheckIn(st: Stay): Date { AddDays(st.anchor, st.inOffset) }
  function CheckOut(st: Stay): Date { AddDays(CheckIn(st), st.nights) }

  /** The sizes of the name and note pools a generator draws from. */
  datatype Pools = Pools(firstNames: int, lastNames: int, notes: int)

  const DailyPools: Pools := Pools(8, 7, 4)
  const WeeklyPools: Pools := Pools(8, 7, 4)
  const MonthlyPools: Pools := Pools(10, 10, 6)

  /** The longest stay, in nights, of a weekly and of a monthly record. */
  const WeeklyMaxStay: int := 5
  const MonthlyMaxStay: int := 7

  // ---------------------------------------------------------------------------
  // Single draws; each returns its value and the stream state after it

  /** `selectedRoomType`: the filter's type, or a draw from `roomTypes` for `'all'`. */
  function DrawType(s: nat, f: Filter): (RoomType, nat) {
    if f.OnlyType? then (f.only, s)
    else
      BelowBounds(s, |RoomTypes|);
      var (k, s1) := Below(s, |RoomTypes|);
      (RoomTypes[k], s1)
  }

  /** `roomNumber = floorStart * 100 + floor(random() * rooms) + 1`. */
  function DrawRoom(s: nat, t: RoomType): (int, nat) {
    var (k, s1) := Below(s, Config(t).rooms);
    (Config(t).floorStart * 100 + k + 1, s1)
  }

  /** `roomGuests`: a party size between the type's `minGuests` and `maxGuests`. */
  function DrawParty(s: nat, t: RoomType): (int, nat) {
    var c := Config(t);
    var (k, s1) := Below(s, c.maxGuests - c.minGuests + 1);
    (k + c.minGuests, s1)
  }

  function DrawName(s: nat, p: Pools): (Name, nat) {
    var (a, s1) := Below(s, p.firstNames);
    var (b, s2) := Below(s1, p.lastNames);
    (Name(a, b), s2)
  }

  /** A child's age is `floor(random() * 17) + 1`, an adult's `floor(random() * 40) + 25`. */
  function DrawAge(s: nat, child: bool): (int, nat) {
    if child then var (k, s1) := Below(s, 17); (k + 1, s1)
    else var (k, s1) := Below(s, 40); (k + 25, s1)
  }

  /**
   * The first `k` occupants the `while (remainingGuests > 0)` loop adds to a
   * party with `slots` companion slots: the `j`-th is drawn with `slots - j`
   * slots remaining.
   */
  function CompanionsUpTo(s: nat, slots: int, k: int, p: Pools): (seq<Occupant>, nat)
    decreases k
  {
    if k <= 0 then ([], s)
    else
      var (prev, s1) := CompanionsUpTo(s, slots, k - 1, p);
      var (o, s2) := DrawCompanion(s1, slots - (k - 1), p);
      (prev + [o], s2)
  }

  /** The whole companion loop: one occupant per remaining slot. */
  function Companions(s: nat, remaining: int, p: Pools): (seq<Occupant>, nat) {
    CompanionsUpTo(s, remaining, remaining, p)
  }

  /**
   * One companion: `remainingGuests > 1 && random() > 0.7` draws only while
   * more than one slot is left, so the last slot never holds a child.
   */
  function DrawCompanion(s: nat, remaining: int, p: Pools): (Occupant, nat) {
    var (child, s1) := if remaining > 1 then Chance(s) else (false, s);
    var (name, s2) := DrawName(s1, p);
    var (age, s3) := DrawAge(s2, child);
    (Occupant(name, age, child), s3)
  }

  /** The daily stay: check-in up to two days before `day`, then 1 to 5 nights. */
  function DrawDailyStay(s: nat, day: Date): (Stay, nat) {
    var (back, s1) := Below(s, 3);
    var (stay, s2) := Below(s1, 5);
    (Stay(day, -back, stay + 1), s2)
  }

  /** A period stay: check-in `floor(random() * days)` days after `start`, then 1 to `maxStay` nights. */
  function DrawPeriodStay(s: nat, start: Date, days: int, maxStay: int): (Stay, nat) {
    var (offset, s1) := Below(s, days);
    var (stay, s2) := Below(s1, maxStay);
    (Stay(start, offset, stay + 1), s2)
  }

  /** `random() > 0.7 ? notes[floor(random() * n)] : null`. */
  function DrawNote(s: nat, n: int): (Option<int>, nat) {
    var (b, s1) := Chance(s);
    if b then var (k, s2) := Below(s1, n); (Some(k), s2) else (None, s1)
  }

  function DrawPhone(s: nat): (Phone, nat) {
    var (a, s1) := Below(s, 900);
    var (e, s2) := Below(s1, 900);
    var (l, s3) := Below(s2, 9000);
    (Phone(a + 100, e + 100, l + 1000), s3)
  }

  // ---------------------------------------------------------------------------
  // Records

  /** A record of the daily roster of `day`, in `generateDailyData`'s draw order. */
  function DailyGuest(s: nat, f: Filter, day: Date, index: int, slot: int): (GuestRecord, nat) {
    var (t, s1) := DrawType(s, f);
    var (room, s2) := DrawRoom(s1, t);
    var (party, s3) := DrawParty(s2, t);
    var (st, s4) := DrawDailyStay(s3, day);
    var (primary, s5) := DrawName(s4, DailyPools);
    var (age, s6) := DrawAge(s5, false);
    var (others, s7) := Companions(s6, party - 1, DailyPools);
    var (note, s8) := DrawNote(s7, DailyPools.notes);
    var (phone, s9) := DrawPhone(s8);
    (GuestRecord(GuestId(DayRoster, index, slot), room, t, primary, [Occupant(primary, age, false)] + others,
                 st, phone, note), s9)
  }

  /**
   * A record of a weekly or monthly roster, in the draw order the two
   * generators share: the check-in is `start` plus a draw below `days`.
   */
  function PeriodGuest(s: nat, f: Filter, p: Pools, maxStay: int, src: Source, start: Date, days: int, period: int, slot: int)
    : (GuestRecord, nat)
  {
    var (t, s1) := DrawType(s, f);
    var (room, s2) := DrawRoom(s1, t);
    var (st, s3) := DrawPeriodStay(s2, start, days, maxStay);
    var (primary, s4) := DrawName(s3, p);
    var (party, s5) := DrawParty(s4, t);
    var (age, s6) := DrawAge(s5, false);
    var (others, s7) := Companions(s6, party - 1, p);
    var (note, s8) := DrawNote(s7, p.notes);
    var (phone, s9) := DrawPhone(s8);
    (GuestRecord(GuestId(src, period, slot), room, t, primary, [Occupant(primary, age, false)] + others,
                 st, phone, note), s9)
  }

  /** The first `n` records of a daily roster, slots `0 .. n - 1` (none when `n <= 0`). */
  function DailyGuests(s: nat, f: Filter, day: Date, index: int, n: int): (seq<GuestRecord>, nat)
    decreases n
  {
    if n <= 0 then ([], s)
    else
      var (rs, s1) := DailyGuests(s, f, day, index, n - 1);
      var (r, s2) := DailyGuest(s1, f, day, index, n - 1);
      (rs + [r], s2)
  }

  /** The first `n` records of a weekly or monthly roster. */
  function PeriodGuests(s: nat, f: Filter, p: Pools, maxStay: int, src: Source, start: Date, days: int, period: int, n: int)
    : (seq<GuestRecord>, nat)
    decreases n
  {
    if n <= 0 then ([], s)
    else
      var (rs, s1) := PeriodGuests(s, f, p, maxStay, src, start, days, period, n - 1);
      var (r, s2) := PeriodGuest(s1, f, p, maxStay, src, start, days, period, n - 1);
      (rs + [r], s2)
  }

  /** `totalGuests`: the occupants of all records. */
  function Headcount(rs: seq<GuestRecord>): int {
    if rs == [] then 0 else |rs[0].allGuests| + Headcount(rs[1..])
  }

  // ---------------------------------------------------------------------------
  // What every record satisfies

  predicate AdultAge(a: int) { 25 <= a <= 64 }
  predicate ChildAge(a: int) { 1 <= a <= 17 }

  /** The first occupant is an adult; a child only ever sits before the last slot. */
  predicate OccupantsOk(occ: seq<Occupant>) {
    && |occ| >= 1
    && !occ[0].isChild
    && forall j :: 0 <= j < |occ| ==>
         if occ[j].isChild then ChildAge(occ[j].age) && j < |occ| - 1 else AdultAge(occ[j].age)
  }

  predicate NameIn(n: Name, p: Pools) {
    0 <= n.first < p.firstNames && 0 <= n.last < p.lastNames
  }

  /** The facts every record states whatever generator drew it. */
  predicate RecordOk(r: GuestRecord, f: Filter, p: Pools) {
    var c := Config(r.roomType);
    && (f.OnlyType? ==> r.roomType == f.only)
    && c.minGuests <= |r.allGuests| <= c.maxGuests
    && c.floorStart * 100 + 1 <= r.room <= c.floorStart * 100 + c.rooms
    && OccupantsOk(r.allGuests)
    && r.allGuests[0].name == r.primaryGuest
    && (forall j :: 0 <= j < |r.allGuests| ==> NameIn(r.allGuests[j].name, p))
    && 100 <= r.phone.area <= 999 && 100 <= r.phone.exchange <= 999 && 1000 <= r.phone.line <= 9999
    && (r.note.Some? ==> 0 <= r.note.value < p.notes)
  }

  /** A daily record checks in on `day` or up to two days before, for 1 to 5 nights. */
  predicate DailyStayOk(r: GuestRecord, day: Date) {
    r.stay.anchor == day && -2 <= r.stay.inOffset <= 0 && 1 <= r.stay.nights <= 5
  }

  /** A period record checks in within `days` days from `start`, for 1 to `maxStay` nights. */
  predicate PeriodStayOk(r: GuestRecord, start: Date, days: int, maxStay: int) {
    r.stay.anchor == start && 0 <= r.stay.inOffset < days && 1 <= r.stay.nights <= maxStay
  }

  /** The dates a stay shows: check-in `inOffset` days from the anchor, check-out `nights` days later. */
  lemma StayDates(st: Stay)
    ensures DayNumber(CheckIn(st)) == DayNumber(st.anchor) + st.inOffset
    ensures DayNumber(CheckOut(st)) == DayNumber(CheckIn(st)) + st.nights
  {
    AddDaysNumber(st.anchor, st.inOffset);
    AddDaysNumber(CheckIn(st), st.nights);
  }

  lemma TypeDrawn(s: nat, f: Filter)
    ensures f.OnlyType? ==> DrawType(s, f).0 == f.only
  {
  }

  lemma RoomDrawn(s: nat, t: RoomType)
    ensures var room := DrawRoom(s, t).0;
      Config(t).floorStart * 100 + 1 <= room <= Config(t).floorStart * 100 + Config(t).rooms
  {
    BelowBounds(s, Config(t).rooms);
  }

  lemma PartyDrawn(s: nat, t: RoomType)
    ensures Config(t).minGuests <= DrawParty(s, t).0 <= Config(t).maxGuests
  {
    BelowBounds(s, Config(t).maxGuests - Config(t).minGuests + 1);
  }

  lemma NameDrawn(s: nat, p: Pools)
    requires p.firstNames > 0 && p.lastNames > 0
    ensures NameIn(DrawName(s, p).0, p)
  {
    BelowBounds(s, p.firstNames);
    BelowBounds(Step(s), p.lastNames);
  }

  lemma AgeDrawn(s: nat, child: bool)
    ensures child ==> ChildAge(DrawAge(s, child).0)
    ensures !child ==> AdultAge(DrawAge(s, child).0)
  {
    BelowBounds(s, 17);
    BelowBounds(s, 40);
  }

  lemma NoteDrawn(s: nat, n: int)
    requires n > 0
    ensures var note := DrawNote(s, n).0; note.Some? ==> 0 <= note.value < n
  {
    BelowBounds(Step(s), n);
  }

  lemma PhoneDrawn(s: nat)
    ensures var ph := DrawPhone(s).0;
      100 <= ph.area <= 999 && 100 <= ph.exchange <= 999 && 1000 <= ph.line <= 9999
  {
    BelowBounds(s, 900);
    BelowBounds(Step(s), 900);
    BelowBounds(Step(Step(s)), 9000);
  }

  lemma DailyStayDrawn(s: nat, day: Date)
    ensures var st := DrawDailyStay(s, day).0;
      st.anchor == day && -2 <= st.inOffset <= 0 && 1 <= st.nights <= 5
  {
    BelowBounds(s, 3);
    BelowBounds(Step(s), 5);
  }

  lemma PeriodStayDrawn(s: nat, start: Date, days: int, maxStay: int)
    requires days > 0 && maxStay > 0
    ensures var st := DrawPeriodStay(s, start, days, maxStay).0;
      st.anchor == start && 0 <= st.inOffset < days && 1 <= st.nights <= maxStay
  {
    BelowBounds(s, days);
    BelowBounds(Step(s), maxStay);
  }

  lemma CompanionDrawn(s: nat, remaining: int, p: Pools)
    requires p.firstNames > 0 && p.lastNames > 0
    ensures var o := DrawCompanion(s, remaining, p).0;
      && NameIn(o.name, p)
      && (if o.isChild then ChildAge(o.age) && remaining > 1 else AdultAge(o.age))
  {
    var (child, s1) := if remaining > 1 then Chance(s) else (false, s);
    NameDrawn(s1, p);
    AgeDrawn(DrawName(s1, p).1, child);
  }

  /**
   * The companion loop adds exactly one occupant per slot; a child (aged 1
   * to 17) only where another slot follows, every other occupant an adult
   * aged 25 to 64, all names from the pools.
   */
  lemma {:induction false} CompanionsUpToOk(s: nat, slots: int, k: int, p: Pools)
    requires p.firstNames > 0 && p.lastNames > 0
    ensures var occ := CompanionsUpTo(s, slots, k, p).0;
      && |occ| == MaxInt(0, k)
      && forall j :: 0 <= j < |occ| ==>
           && NameIn(occ[j].name, p)
           && (if occ[j].isChild then ChildAge(occ[j].age) && j < slots - 1 else AdultAge(occ[j].age))
    decreases k
  {
    if k > 0 {
      var (prev, s1) := CompanionsUpTo(s, slots, k - 1, p);
      CompanionsUpToOk(s, slots, k - 1, p);
      CompanionDrawn(s1, slots - (k - 1), p);
      var o := DrawCompanion(s1, slots - (k - 1), p).0;
      var occ := CompanionsUpTo(s, slots, k, p).0;
      assert occ == prev + [o];
      forall j | 0 <= j < |occ|
        ensures NameIn(occ[j].name, p)
        ensures if occ[j].isChild then ChildAge(occ[j].age) && j < slots - 1 else AdultAge(occ[j].age)
      {
        if j < |prev| {
          assert occ[j] == prev[j];
        }
      }
    }
  }

  lemma CompanionsOk(s: nat, remaining: int, p: Pools)
    requires p.firstNames > 0 && p.lastNames > 0
    ensures var occ := Companions(s, remaining, p).0;
      && |occ| == MaxInt(0, remaining)
      && forall j :: 0 <= j < |occ| ==>
           && NameIn(occ[j].name, p)
           && (if occ[j].isChild then ChildAge(occ[j].age) && j < |occ| - 1 else AdultAge(occ[j].age))
  {
    CompanionsUpToOk(s, remaining, remaining, p);
  }

  /** The occupants of a record: the primary adult, then the companions. */
  lemma PartyOk(primary: Name, age: int, s: nat, party: int, p: Pools)
    requires p.firstNames > 0 && p.lastNames > 0
    requires party >= 1 && AdultAge(age) && NameIn(primary, p)
    ensures var occ := [Occupant(primary, age, false)] + Companions(s, party - 1, p).0;
      && |occ| == party
      && OccupantsOk(occ)
      && forall j :: 0 <= j < |occ| ==> NameIn(occ[j].name, p)
  {
    var others := Companions(s, party - 1, p).0;
    CompanionsOk(s, party - 1, p);
    var occ := [Occupant(primary, age, false)] + others;
    forall j | 0 <= j < |occ|
      ensures NameIn(occ[j].name, p)
      ensures if occ[j].isChild then ChildAge(occ[j].age) && j < |occ| - 1 else AdultAge(occ[j].age)
    {
      if j > 0 {
        assert occ[j] == others[j - 1];
      }
    }
  }

  /**
   * Every daily record: the filter's type (any type for `'all'`), a room of
   * that type's floor, a party within the type's limits whose first occupant
   * is the primary adult and whose last is an adult, and a stay of 1 to 5
   * nights starting on the day or up to two days before.
   */
  lemma DailyGuestOk(s: nat, f: Filter, day: Date, index: int, slot: int)
    ensures var r := DailyGuest(s, f, day, index, slot).0;
      && RecordOk(r, f, DailyPools)
      && DailyStayOk(r, day)
      && r.id == GuestId(DayRoster, index, slot)
  {
    var (t, s1) := DrawType(s, f);
    var (room, s2) := DrawRoom(s1, t);
    var (party, s3) := DrawParty(s2, t);
    var (st, s4) := DrawDailyStay(s3, day);
    var (primary, s5) := DrawName(s4, DailyPools);
    var (age, s6) := DrawAge(s5, false);
    var (others, s7) := Companions(s6, party - 1, DailyPools);
    var (note, s8) := DrawNote(s7, DailyPools.notes);
    TypeDrawn(s, f);
    RoomDrawn(s1, t);
    PartyDrawn(s2, t);
    DailyStayDrawn(s3, day);
    NameDrawn(s4, DailyPools);
    AgeDrawn(s5, false);
    PartyOk(primary, age, s6, party, DailyPools);
    NoteDrawn(s7, DailyPools.notes);
    PhoneDrawn(s8);
  }

  /**
   * Every weekly or monthly record satisfies `RecordOk` and checks in within
   * `days` days from `start`, for 1 to `maxStay` nights.
   */
  lemma PeriodGuestOk(s: nat, f: Filter, p: Pools, maxStay: int, src: Source, start: Date, days: int, period: int, slot: int)
    requires p.firstNames > 0 && p.lastNames > 0 && p.notes > 0
    requires days > 0 && maxStay > 0
    ensures var r := PeriodGuest(s, f, p, maxStay, src, start, days, period, slot).0;
      && RecordOk(r, f, p)
      && PeriodStayOk(r, start, days, maxStay)
      && r.id == GuestId(src, period, slot)
  {
    var (t, s1) := DrawType(s, f);
    var (room, s2) := DrawRoom(s1, t);
    var (st, s3) := DrawPeriodStay(s2, start, days, maxStay);
    var (primary, s4) := DrawName(s3, p);
    var (party, s5) := DrawParty(s4, t);
    var (age, s6) := DrawAge(s5, false);
    var (others, s7) := Companions(s6, party - 1, p);
    var (note, s8) := DrawNote(s7, p.notes);
    TypeDrawn(s, f);
    RoomDrawn(s1, t);
    PeriodStayDrawn(s2, start, days, maxStay);
    NameDrawn(s3, p);
    PartyDrawn(s4, t);
    AgeDrawn(s5, false);
    PartyOk(primary, age, s6, party, p);
    NoteDrawn(s7, p.notes);
    PhoneDrawn(s8);
  }

  /** A daily roster holds one record per sold room, in slots `0 .. n - 1`, each satisfying `DailyGuestOk`. */
  lemma {:induction false} DailyGuestsOk(s: nat, f: Filter, day: Date, index: int, n: int)
    ensures var rs := DailyGuests(s, f, day, index, n).0;
      && |rs| == MaxInt(0, n)
      && forall j :: 0 <= j < |rs| ==>
           RecordOk(rs[j], f, DailyPools) && DailyStayOk(rs[j], day) && rs[j].id == GuestId(DayRoster, index, j)
    decreases n
  {
    if n > 0 {
      var (prev, s1) := DailyGuests(s, f, day, index, n - 1);
      DailyGuestsOk(s, f, day, index, n - 1);
      DailyGuestOk(s1, f, day, index, n - 1);
      var r := DailyGuest(s1, f, day, index, n - 1).0;
      var rs := DailyGuests(s, f, day, index, n).0;
      assert rs == prev + [r];
      forall j | 0 <= j < |rs|
        ensures RecordOk(rs[j], f, DailyPools) && DailyStayOk(rs[j], day) && rs[j].id == GuestId(DayRoster, index, j)
      {
        if j < |prev| {
          assert rs[j] == prev[j];
        }
      }
    }
  }

  lemma {:induction false} PeriodGuestsOk(s: nat, f: Filter, p: Pools, maxStay: int, src: Source, start: Date, days: int, period: int, n: int)
    requires p.firstNames > 0 && p.lastNames > 0 && p.notes > 0
    requires days > 0 && maxStay > 0
    ensures var rs := PeriodGuests(s, f, p, maxStay, src, start, days, period, n).0;
      && |rs| == MaxInt(0, n)
      && forall j :: 0 <= j < |rs| ==>
           RecordOk(rs[j], f, p) && PeriodStayOk(rs[j], start, days, maxStay) && rs[j].id == GuestId(src, period, j)
    decreases n
  {
    if n > 0 {
      var (prev, s1) := PeriodGuests(s, f, p, maxStay, src, start, days, period, n - 1);
      PeriodGuestsOk(s, f, p, maxStay, src, start, days, period, n - 1);
      PeriodGuestOk(s1, f, p, maxStay, src, start, days, period, n - 1);
      var r := PeriodGuest(s1, f, p, maxStay, src, start, days, period, n - 1).0;
      var rs := PeriodGuests(s, f, p, maxStay, src, start, days, period, n).0;
      assert rs == prev + [r];
      forall j | 0 <= j < |rs|
        ensures RecordOk(rs[j], f, p) && PeriodStayOk(rs[j], start, days, maxStay) && rs[j].id == GuestId(src, period, j)
      {
        if j < |prev| {
          assert rs[j] == prev[j];
        }
      }
    }
  }

  /** The headcount of a roster lies between its records' type limits; in particular it is at least the number of records. */
  lemma {:induction false} HeadcountBounds(rs: seq<GuestRecord>, f: Filter, p: Pools)
    requires forall j :: 0 <= j < |rs| ==> RecordOk(rs[j], f, p)
    ensures |rs| <= Headcount(rs) <= 6 * |rs|
  {
    if rs != [] {
      HeadcountBounds(rs[1..], f, p);
      assert RecordOk(rs[0], f, p);
    }
  }

  lemma {:induction false} HeadcountAppend(a: seq<GuestRecord>, b: seq<GuestRecord>)
    ensures Headcount(a + b) == Headcount(a) + Headcount(b)
  {
    if a != [] {
      HeadcountAppend(a[1..], b);
      assert (a + b)[1..] == a[1..] + b;
    } else {
      assert a + b == b;
    }
  }

  lemma HeadcountSnoc(rs: seq<GuestRecord>, r: GuestRecord)
    ensures Headcount(rs + [r]) == Headcount(rs) + |r.allGuests|
  {
    HeadcountAppend(rs, [r]);
    assert [r][1..] == [];
  }

  // ---------------------------------------------------------------------------
  // The generators' loops, drawing from the closure object

  /** One pass of `while (remainingGuests > 0)`: `isChild`, the name, the age, then the push. */
  method Companion(g: Generator, remaining: int, p: Pools) returns (o: Occupant)
    modifies g
    ensures (o, g.seed) == DrawCompanion(old(g.seed), remaining, p)
  {
    var isChild := false;
    if remaining > 1 {
      isChild := g.Over();
    }
    var first := g.Floor(p.firstNames);
    var last := g.Floor(p.lastNames);
    var age;
    if isChild {
      age := g.Floor(17);
      age := age + 1;
    } else {
      age := g.Floor(40);
      age := age + 25;
    }
    o := Occupant(Name(first, last), age, isChild);
  }

  /** `allGuests.push(...)` per remaining slot, as `while (remainingGuests > 0)` does. */
  method AddCompanions(g: Generator, remaining: int, p: Pools) returns (added: seq<Occupant>)
    modifies g
    ensures (added, g.seed) == Companions(old(g.seed), remaining, p)
  {
    added := [];
    var left := remaining;
    while left > 0
      invariant remaining > 0 ==> 0 <= left <= remaining
      invariant remaining <= 0 ==> left == remaining
      invariant (added, g.seed) == CompanionsUpTo(old(g.seed), remaining, remaining - left, p)
      decreases left
    {
      var o := Companion(g, left, p);
      added := added + [o];
      left := left - 1;
    }
  }

  method PhoneNumber(g: Generator) returns (ph: Phone)
    modifies g
    ensures (ph, g.seed) == DrawPhone(old(g.seed))
  {
    var a := g.Floor(900);
    var e := g.Floor(900);
    var l := g.Floor(9000);
    ph := Phone(a + 100, e + 100, l + 1000);
  }

  method GuestNote(g: Generator, n: int) returns (note: Option<int>)
    modifies g
    ensures (note, g.seed) == DrawNote(old(g.seed), n)
  {
    var b := g.Over();
    if b {
      var k := g.Floor(n);
      note := Some(k);
    } else {
      note := None;
    }
  }

  method RoomAndType(g: Generator, f: Filter) returns (t: RoomType, room: int)
    modifies g
    ensures var (t', s1) := DrawType(old(g.seed), f); t == t' && (room, g.seed) == DrawRoom(s1, t)
  {
    if f.AllTypes? {
      var k := g.Floor(|RoomTypes|);
      t := RoomTypes[k];
    } else {
      t := f.only;
    }
    var k := g.Floor(Config(t).rooms);
    room := Config(t).floorStart * 100 + k + 1;
  }

  method DailyStay(g: Generator, day: Date) returns (st: Stay)
    modifies g
    ensures (st, g.seed) == DrawDailyStay(old(g.seed), day)
  {
    var back := g.Floor(3);
    var stay := g.Floor(5);
    st := Stay(day, -back, stay + 1);
  }

  method PeriodStay(g: Generator, start: Date, days: int, maxStay: int) returns (st: Stay)
    modifies g
    ensures (st, g.seed) == DrawPeriodStay(old(g.seed), start, days, maxStay)
  {
    var dayOffset := g.Floor(days);
    var stayLength := g.Floor(maxStay);
    st := Stay(start, dayOffset, stayLength + 1);
  }

  method GuestName(g: Generator, p: Pools) returns (n: Name)
    modifies g
    ensures (n, g.seed) == DrawName(old(g.seed), p)
  {
    var first := g.Floor(p.firstNames);
    var last := g.Floor(p.lastNames);
    n := Name(first, last);
  }

  method PartySize(g: Generator, t: RoomType) returns (roomGuests: int)
    modifies g
    ensures (roomGuests, g.seed) == DrawParty(old(g.seed), t)
  {
    var c := Config(t);
    var k := g.Floor(c.maxGuests - c.minGuests + 1);
    roomGuests := k + c.minGuests;
  }

  /** One iteration of `generateDailyData`'s roster loop. */
  method DailyRecord(g: Generator, f: Filter, day: Date, index: int, slot: int) returns (r: GuestRecord)
    modifies g
    ensures (r, g.seed) == DailyGuest(old(g.seed), f, day, index, slot)
  {
    var t, room := RoomAndType(g, f);
    var roomGuests := PartySize(g, t);
    var st := DailyStay(g, day);
    var primary := GuestName(g, DailyPools);
    var age := g.Floor(40);
    var others := AddCompanions(g, roomGuests - 1, DailyPools);
    var notes := GuestNote(g, DailyPools.notes);
    var phone := PhoneNumber(g);
    r := GuestRecord(GuestId(DayRoster, index, slot), room, t, primary, [Occupant(primary, age + 25, false)] + others,
                     st, phone, notes);
  }

  /** One iteration of the weekly or monthly roster loop. */
  method PeriodRecord(g: Generator, f: Filter, p: Pools, maxStay: int, src: Source, start: Date, days: int, period: int, slot: int)
    returns (r: GuestRecord)
    modifies g
    ensures (r, g.seed) == PeriodGuest(old(g.seed), f, p, maxStay, src, start, days, period, slot)
  {
    var t, room := RoomAndType(g, f);
    var st := PeriodStay(g, start, days, maxStay);
    var primary := GuestName(g, p);
    var roomGuests := PartySize(g, t);
    var age := g.Floor(40);
    var others := AddCompanions(g, roomGuests - 1, p);
    var notes := GuestNote(g, p.notes);
    var phone := PhoneNumber(g);
    r := GuestRecord(GuestId(src, period, slot), room, t, primary, [Occupant(primary, age + 25, false)] + others,
                     st, phone, notes);
  }

  /** `for (let i = 0; i < randomOccupancy; i++)` with `totalGuests += allGuests.length`. */
  method DailyRoster(g: Generator, f: Filter, day: Date, index: int, n: int) returns (guestDetails: seq<GuestRecord>, totalGuests: int)
    modifies g
    ensures (guestDetails, g.seed) == DailyGuests(old(g.seed), f, day, index, n)
    ensures totalGuests == Headcount(guestDetails)
  {
    guestDetails := [];
    totalGuests := 0;
    var i := 0;
    while i < n
      invariant 0 <= i <= MaxInt(0, n)
      invariant (guestDetails, g.seed) == DailyGuests(old(g.seed), f, day, index, i)
      invariant totalGuests == Headcount(guestDetails)
    {
      var r := DailyRecord(g, f, day, index, i);
      assert (guestDetails + [r], g.seed) == DailyGuests(old(g.seed), f, day, index, i + 1);
      assert totalGuests + |r.allGuests| == Headcount(guestDetails + [r]) by {
        HeadcountSnoc(guestDetails, r);
      }
      guestDetails := guestDetails + [r];
      totalGuests := totalGuests + |r.allGuests|;
      i := i + 1;
    }
    assert i == MaxInt(0, n);
    assert DailyGuests(old(g.seed), f, day, index, i) == DailyGuests(old(g.seed), f, day, index, n);
  }

  /** `for (let i = 0; i < numberOfGuests; i++)` of the weekly and monthly generators. */
  method PeriodRoster(g: Generator, f: Filter, p: Pools, maxStay: int, src: Source, start: Date, days: int, period: int, n: int)
    returns (guestDetails: seq<GuestRecord>)
    modifies g
    ensures guestDetails == PeriodGuests(old(g.seed), f, p, maxStay, src, start, days, period, n).0
    ensures g.seed == PeriodGuests(old(g.seed), f, p, maxStay, src, start, days, period, n).1
  {
    guestDetails := [];
    var i := 0;
    while i < n
      invariant 0 <= i <= MaxInt(0, n)
      invariant (guestDetails, g.seed) == PeriodGuests(old(g.seed), f, p, maxStay, src, start, days, period, i)
    {
      var r := PeriodRecord(g, f, p, maxStay, src, start, days, period, i);
      assert (guestDetails + [r], g.seed) == PeriodGuests(old(g.seed), f, p, maxStay, src, start, days, period, i + 1);
      guestDetails := guestDetails + [r];
      i := i + 1;
    }
    assert i == MaxInt(0, n);
    assert PeriodGuests(old(g.seed), f, p, maxStay, src, start, days, period, i) == PeriodGuests(old(g.seed), f, p, maxStay, src, start, days, period, n);
  }
}

/** The hotel's room types, their configuration and the room-type filter of a report. */
module Rooms {

  datatype RoomType = Standard | Deluxe | Suite | Executive | Family

  /** `roomTypes`, in the order the generators index it. */
  const RoomTypes: seq<RoomType> := [Standard, Deluxe, Suite, Executive, Family]

  datatype RoomConfig = RoomConfig(minGuests: int, maxGuests: int, baseRate: int, floorStart: int, rooms: int)

  /** `roomTypeConfig`. */
  function Config(t: RoomType): (c: RoomConfig)
    ensures 1 <= c.minGuests <= c.maxGuests && c.rooms == 4 && 1 <= c.floorStart <= 5
  {
    match t
    case Standard => RoomConfig(1, 2, 189, 1, 4)
    case Deluxe => RoomConfig(1, 3, 229, 2, 4)
    case Suite => RoomConfig(2, 4, 299, 3, 4)
    case Executive => RoomConfig(2, 4, 359, 4, 4)
    case Family => RoomConfig(2, 6, 399, 5, 4)
  }

  /** `roomTypes.indexOf(t)`. */
  function TypeIndex(t: RoomType): (i: int)
    ensures 0 <= i < |RoomTypes| && RoomTypes[i] == t
  {
    match t
    case Standard => 0
    case Deluxe => 1
    case Suite => 2
    case Executive => 3
    case Family => 4
  }

  /** The capitalised name that `roomTypeConfig` and the closed-room list use. */
  function TypeName(t: RoomType): string {
    match t
    case Standard => "Standard"
    case Deluxe => "Deluxe"
    case Suite => "Suite"
    case Executive => "Executive"
    case Family => "Family"
  }

  /** The report's room-type filter: `'all'` or one lower-case type name. */
  datatype Filter = AllTypes | OnlyType(only: RoomType)

  /** The filter's string value as the dashboard's room-type menu holds it. */
  function FilterKey(f: Filter): string {
    match f
    case AllTypes => "all"
    case OnlyType(Standard) => "standard"
    case OnlyType(Deluxe) => "deluxe"
    case OnlyType(Suite) => "suite"
    case OnlyType(Executive) => "executive"
    case OnlyType(Family) => "family"
  }

  /** Rooms a filter covers: 20 for `'all'`, the 4 rooms of one type otherwise. */
  function Capacity(f: Filter): (n: int)
    ensures f.OnlyType? ==> n == Config(f.only).rooms
    ensures f.AllTypes? ==> n == |RoomTypes| * 4
  {
    if f.AllTypes? then 20 else 4
  }

  /** `toLowerCase` on one character: ASCII capitals map to small letters, the rest is unchanged. */
  function LowerChar(c: char): (r: char)
    ensures 'A' <= c <= 'Z' ==> 'a' <= r <= 'z' && r as int == c as int + 32
    ensures !('A' <= c <= 'Z') ==> r == c
  {
    if 'A' <= c <= 'Z' then (c as int + 32) as char else c
  }

  /** `String.prototype.toLowerCase` on the ASCII letters. */
  function AsciiLower(s: string): (r: string)
    ensures |r| == |s|
  {
    if s == [] then [] else [LowerChar(s[0])] + AsciiLower(s[1..])
  }

  lemma {:induction false} AsciiLowerAt(s: string, i: int)
    requires 0 <= i < |s|
    ensures AsciiLower(s)[i] == LowerChar(s[i])
  {
    if i > 0 {
      AsciiLowerAt(s[1..], i - 1);
    }
  }

  /** Lower-casing `s` character by character gives `t`. */
  lemma LowersTo(s: string, t: string)
    requires |s| == |t|
    requires forall i :: 0 <= i < |s| ==> LowerChar(s[i]) == t[i]
    ensures AsciiLower(s) == t
  {
    forall i | 0 <= i < |s|
      ensures AsciiLower(s)[i] == t[i]
    {
      AsciiLowerAt(s, i);
    }
  }

  /** The menu value of a single type is its capitalised name in lower case. */
  lemma FilterKeyIsLowerName(t: RoomType)
    ensures FilterKey(OnlyType(t)) == AsciiLower(TypeName(t))
  {
    LowersTo(TypeName(t), FilterKey(OnlyType(t)));
  }

  /** A closed room of type name `TypeName(t)` matches the single-type filter `u` exactly when `t == u`. */
  lemma FilterKeyMatchesTypeName(t: RoomType, u: RoomType)
    ensures FilterKey(OnlyType(u)) == AsciiLower(TypeName(t)) <==> t == u
    ensures FilterKey(OnlyType(u)) != "all"
  {
    FilterKeyIsLowerName(t);
    var a, b := FilterKey(OnlyType(t)), FilterKey(OnlyType(u));
    if t != u {
      assert a[0] != b[0] || a[1] != b[1];
    }
  }
}

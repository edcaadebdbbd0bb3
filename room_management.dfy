/** The room management page: the filtered rooms grouped by floor, the
    floors listed from the top down, the colour and label of each room
    state, and the edit form a room opens. The filter is
    `Entities.MatchingRooms`, shared with the room calendar. */
module RoomManagement {
  import opened Wrappers
  import opened Text
  import opened Seqs
  import opened Entities

  // ---------------------------------------------------------------------
  // Colours and labels

  /** The badge colour of each state. */
  function StatusColor(s: RoomStatus): string
  {
    match s
    case Available => "bg-green-500"
    case OccupiedMonthly => "bg-blue-500"
    case OccupiedDaily => "bg-teal-600"
    case Reserved => "bg-orange-500"
    case Maintenance => "bg-gray-500"
  }

  /** The Thai label of each state. */
  function StatusLabel(s: RoomStatus): string
  {
    match s
    case Available => "ว่าง"
    case OccupiedMonthly => "รายเดือน"
    case OccupiedDaily => "รายวัน"
    case Reserved => "จอง"
    case Maintenance => "ซ่อม"
  }

  /** The state a status text names, if it names one. */
  function StatusOf(name: string): (r: Option<RoomStatus>)
    ensures r.Some? ==> StatusName(r.value) == name
    ensures r.None? ==> forall s :: StatusName(s) != name
  {
    if name == StatusName(Available) then Some(Available)
    else if name == StatusName(OccupiedMonthly) then Some(OccupiedMonthly)
    else if name == StatusName(OccupiedDaily) then Some(OccupiedDaily)
    else if name == StatusName(Reserved) then Some(Reserved)
    else if name == StatusName(Maintenance) then Some(Maintenance)
    else None
  }

  /** The colour a room's status text looks up: missing for a text that
      names no state. */
  function ColorOf(name: string): Option<string>
  {
    match StatusOf(name)
    case Some(s) => Some(StatusColor(s))
    case None => None
  }

  /** The label a room's status text looks up. */
  function LabelOf(name: string): Option<string>
  {
    match StatusOf(name)
    case Some(s) => Some(StatusLabel(s))
    case None => None
  }

  /** Both tables cover every state, and different states look different:
      no two share a colour or a label. */
  lemma TablesTotalAndDistinct(a: RoomStatus, b: RoomStatus)
    ensures ColorOf(StatusName(a)) == Some(StatusColor(a))
    ensures LabelOf(StatusName(a)) == Some(StatusLabel(a))
    ensures a != b ==> StatusColor(a) != StatusColor(b) && StatusLabel(a) != StatusLabel(b)
  {
    StatusNamesDistinct(a, Available);
    StatusNamesDistinct(a, OccupiedMonthly);
    StatusNamesDistinct(a, OccupiedDaily);
    StatusNamesDistinct(a, Reserved);
  }

  // ---------------------------------------------------------------------
  // Grouping by floor

  /** The key of a room's floor: the floor as text. */
  function FloorKey(r: Room): string
  {
    IntToString(r.floor)
  }

  /** The rooms on the floor with key `k`, in their order. */
  function OnFloor(rooms: seq<Room>, k: string): seq<Room>
  {
    if rooms == [] then []
    else
      var last := rooms[|rooms| - 1];
      OnFloor(rooms[..|rooms| - 1], k) + (if FloorKey(last) == k then [last] else [])
  }

  /** A floor's rooms are the rooms whose floor has that key. */
  lemma {:induction false} OnFloorMembers(rooms: seq<Room>, k: string, x: Room)
    ensures x in OnFloor(rooms, k) <==> x in rooms && FloorKey(x) == k
  {
    if rooms != [] {
      var init := rooms[..|rooms| - 1];
      OnFloorMembers(init, k, x);
      assert rooms == init + [rooms[|rooms| - 1]];
    }
  }

  /** Adding a room at the end adds it to its own floor, and to no other. */
  lemma OnFloorAppend(done: seq<Room>, room: Room, k: string)
    ensures OnFloor(done + [room], k) == OnFloor(done, k) + (if FloorKey(room) == k then [room] else [])
  {
    assert (done + [room])[..|done|] == done;
  }

  /** The total number of rooms in the groups named by `keys`. */
  function GroupSizes(groups: map<string, seq<Room>>, keys: seq<string>): nat
  {
    if keys == [] then 0
    else (if keys[0] in groups then |groups[keys[0]]| else 0) + GroupSizes(groups, keys[1..])
  }

  /** Each key once. */
  predicate Distinct(keys: seq<string>)
  {
    forall i, j :: 0 <= i < j < |keys| ==> keys[i] != keys[j]
  }

  /** Growing the group of a key named once adds to the total. */
  lemma {:induction false} GroupSizesGrow(groups: map<string, seq<Room>>, keys: seq<string>, k: string, x: Room)
    requires Distinct(keys) && k in keys && k in groups
    ensures GroupSizes(groups[k := groups[k] + [x]], keys) == GroupSizes(groups, keys) + 1
  {
    if keys[0] != k {
      GroupSizesGrow(groups, keys[1..], k, x);
    } else {
      GroupSizesOther(groups, keys[1..], k, groups[k] + [x]);
    }
  }

  /** A key not named does not count. */
  lemma {:induction false} GroupSizesOther(groups: map<string, seq<Room>>, keys: seq<string>, k: string, v: seq<Room>)
    requires k !in keys
    ensures GroupSizes(groups[k := v], keys) == GroupSizes(groups, keys)
  {
    if keys != [] {
      GroupSizesOther(groups, keys[1..], k, v);
    }
  }

  /** A new key at the end adds its group. */
  lemma {:induction false} GroupSizesAppend(groups: map<string, seq<Room>>, keys: seq<string>, k: string)
    requires k in groups
    ensures GroupSizes(groups, keys + [k]) == GroupSizes(groups, keys) + |groups[k]|
  {
    if keys == [] {
      assert keys + [k] == [k];
    } else {
      assert (keys + [k])[1..] == keys[1..] + [k];
      GroupSizesAppend(groups, keys[1..], k);
    }
  }

  /** A key has a group exactly when it is listed, and each key is listed
      once. */
  ghost predicate KeysListed(groups: map<string, seq<Room>>, keys: seq<string>)
  {
    (forall k :: k in groups <==> k in keys) && Distinct(keys)
  }

  /** The group of a floor is exactly that floor's rooms in list order and
      is never empty, and a floor with no group has no rooms. */
  ghost predicate GroupsAreFloors(groups: map<string, seq<Room>>, done: seq<Room>)
  {
    && (forall k :: k in groups ==> groups[k] == OnFloor(done, k) && groups[k] != [])
    && (forall k :: k !in groups ==> OnFloor(done, k) == [])
  }

  /** `groups` and `keys` hold the rooms of `done` grouped by floor, and the
      group sizes add up to the number of rooms, so every room is in
      exactly one group. */
  ghost predicate Grouped(groups: map<string, seq<Room>>, keys: seq<string>, done: seq<Room>)
  {
    KeysListed(groups, keys) && GroupsAreFloors(groups, done) && GroupSizes(groups, keys) == |done|
  }

  /** One step of the grouping, when the room's floor has no group yet: the
      floor gets a new group holding the room. */
  lemma GroupedNewFloor(groups: map<string, seq<Room>>, keys: seq<string>, done: seq<Room>, room: Room)
    requires Grouped(groups, keys, done) && FloorKey(room) !in groups
    ensures Grouped(groups[FloorKey(room) := [room]], keys + [FloorKey(room)], done + [room])
  {
    var key := FloorKey(room);
    var g := groups[key := [room]];
    assert KeysListed(g, keys + [key]) by {
      assert forall i :: 0 <= i < |keys| ==> (keys + [key])[i] == keys[i];
    }
    assert GroupsAreFloors(g, done + [room]) by {
      forall k
        ensures OnFloor(done + [room], k) == OnFloor(done, k) + (if key == k then [room] else [])
      {
        OnFloorAppend(done, room, k);
      }
      assert OnFloor(done, key) + [room] == [room];
    }
    GroupSizesOther(groups, keys, key, [room]);
    GroupSizesAppend(g, keys, key);
  }

  /** One step of the grouping, when the room's floor has a group: the room
      goes to the end of that group. */
  lemma GroupedSameFloor(groups: map<string, seq<Room>>, keys: seq<string>, done: seq<Room>, room: Room)
    requires Grouped(groups, keys, done) && FloorKey(room) in groups
    ensures Grouped(groups[FloorKey(room) := groups[FloorKey(room)] + [room]], keys, done + [room])
  {
    var key := FloorKey(room);
    var g := groups[key := groups[key] + [room]];
    assert KeysListed(g, keys);
    assert GroupsAreFloors(g, done + [room]) by {
      forall k
        ensures OnFloor(done + [room], k) == OnFloor(done, k) + (if key == k then [room] else [])
      {
        OnFloorAppend(done, room, k);
      }
    }
    GroupSizesGrow(groups, keys, key, room);
  }

  /** One step of the grouping, on the `i`-th room: its floor's group, empty
      if the floor has none yet, gets the room at its end, and a new floor is
      listed after the others. */
  lemma GroupedStep(groups: map<string, seq<Room>>, keys: seq<string>, rooms: seq<Room>, i: int)
    requires 0 <= i < |rooms| && Grouped(groups, keys, rooms[..i])
    ensures var key := FloorKey(rooms[i]);
      Grouped(groups[key := (if key in groups then groups[key] else []) + [rooms[i]]],
              if key in groups then keys else keys + [key],
              rooms[..i + 1])
  {
    var key := FloorKey(rooms[i]);
    assert rooms[..i + 1] == rooms[..i] + [rooms[i]];
    if key in groups {
      GroupedSameFloor(groups, keys, rooms[..i], rooms[i]);
    } else {
      GroupedNewFloor(groups, keys, rooms[..i], rooms[i]);
      assert [] + [rooms[i]] == [rooms[i]];
    }
  }

  /** The `reduce` that groups the filtered rooms by floor into a
      dictionary: a floor's list is created when its first room comes, and
      each room is pushed onto its floor's list. `keys` records the floors in
      the order their lists were created. */
  method GroupByFloor(rooms: seq<Room>) returns (groups: map<string, seq<Room>>, keys: seq<string>)
    ensures Grouped(groups, keys, rooms)
  {
    groups, keys := map[], [];
    var i := 0;
    while i < |rooms|
      invariant 0 <= i <= |rooms|
      invariant Grouped(groups, keys, rooms[..i])
    {
      var key := FloorKey(rooms[i]);
      GroupedStep(groups, keys, rooms, i);
      var group := if key in groups then groups[key] else [];
      if key !in groups {
        keys := keys + [key];
      }
      groups := groups[key := group + [rooms[i]]];
      i := i + 1;
    }
    assert rooms[..i] == rooms;
  }

  /** After the grouping a room is found under its own floor's key and under
      no other, and every group holds rooms of its own floor only. */
  lemma GroupedPlacesEachRoom(groups: map<string, seq<Room>>, keys: seq<string>, rooms: seq<Room>, x: Room, k: string)
    requires Grouped(groups, keys, rooms)
    ensures x in rooms ==> FloorKey(x) in groups && x in groups[FloorKey(x)]
    ensures k in groups && x in groups[k] ==> x in rooms && FloorKey(x) == k
  {
    OnFloorMembers(rooms, k, x);
    OnFloorMembers(rooms, FloorKey(x), x);
  }

  // ---------------------------------------------------------------------
  // The floors in display order

  /** `parseInt(key) || 0`: a key that is not a number counts as floor 0. */
  function FloorNumber(key: string): int
  {
    ParseIntOrZero(key)
  }

  /** The comparator `numB - numA`: the higher floor first. */
  predicate FloorBefore(a: string, b: string)
  {
    FloorNumber(a) > FloorNumber(b)
  }

  lemma FloorOrderIsStrictWeak()
    ensures StrictWeakOrder(FloorBefore)
  {
  }

  /** The floors as the page lists them: the keys sorted by floor, the
      highest first. */
  function FloorOrder(keys: seq<string>): (r: seq<string>)
    ensures multiset(r) == multiset(keys)
    ensures forall i, j :: 0 <= i < j < |r| ==> FloorNumber(r[i]) >= FloorNumber(r[j])
  {
    FloorOrderIsStrictWeak();
    SortBySorted(keys, FloorBefore);
    SortBy(keys, FloorBefore)
  }

  /** A key without a digit in it counts as the ground floor, 0. */
  lemma KeyWithoutDigitsIsZero(key: string)
    requires forall i :: 0 <= i < |key| ==> !IsDigit(key[i])
    ensures FloorNumber(key) == 0
  {
    var t := TrimStart(key);
    var body := if |t| > 0 && (t[0] == '-' || t[0] == '+') then t[1..] else t;
    assert body == key[|key| - |body|..];
    if body != [] {
      assert body[0] == key[|key| - |body|];
    }
  }

  /** A floor key reads back as its floor, so ordering the keys by
      `FloorNumber` lists the floors from the top floor down; and two rooms
      share a key exactly when they are on the same floor. */
  lemma FloorKeyReadsBack(r: Room, s: Room)
    ensures FloorNumber(FloorKey(r)) == r.floor
    ensures FloorKey(r) == FloorKey(s) <==> r.floor == s.floor
  {
    ParseIntOrZeroOfString(r.floor);
    if FloorKey(r) == FloorKey(s) {
      IntToStringInjective(r.floor, s.floor);
    }
  }

  // ---------------------------------------------------------------------
  // Editing a room

  /** The room form's fields, as the inputs hold them. */
  datatype RoomForm = RoomForm(roomNumber: string, floor: string, typeId: string,
                               pricePerDay: string, pricePerMonth: string)

  /** The form the edit button opens: the room's number, floor and type, and
      the prices of its type. A room sent without its type cannot be edited:
      reading the type's rates throws, which is `None` here. */
  function EditForm(room: Room): (f: Option<RoomForm>)
    ensures f.None? <==> room.roomType.None?
  {
    match room.roomType
    case None => None
    case Some(t) =>
      Some(RoomForm(room.roomNumber, IntToString(room.floor), IntToString(room.typeId),
                    IntToString(t.baseDailyRate), IntToString(t.baseMonthlyRate)))
  }

  /** The seeded form reads back as the room: its floor and type parse to the
      room's, and its prices to the type's daily and monthly rates. */
  lemma EditFormReadsBack(room: Room)
    requires room.roomType.Some?
    ensures var f := EditForm(room).value;
      && f.roomNumber == room.roomNumber
      && ParseIntOrZero(f.floor) == room.floor
      && ParseInt(f.typeId) == Some(room.typeId)
      && NumberValue(f.pricePerDay) == Some(room.roomType.value.baseDailyRate)
      && NumberValue(f.pricePerMonth) == Some(room.roomType.value.baseMonthlyRate)
  {
    ParseIntOrZeroOfString(room.floor);
    IntToStringRoundTrip(room.typeId);
    NumberValueOfString(room.roomType.value.baseDailyRate);
    NumberValueOfString(room.roomType.value.baseMonthlyRate);
  }
}

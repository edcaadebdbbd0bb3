/** The records the pages load from the back end, the id lookups they run
    over them, and the room filter two pages share. Dates are day ordinals
    (see `CalendarDates`); amounts are whole baht. */
module Entities {
  import opened Wrappers
  import opened Text
  import opened Seqs

  /** The five room states. */
  datatype RoomStatus = Available | OccupiedMonthly | OccupiedDaily | Reserved | Maintenance

  /** The text the back end uses for each room state. */
  function StatusName(s: RoomStatus): string
  {
    match s
    case Available => "AVAILABLE"
    case OccupiedMonthly => "OCCUPIED_M"
    case OccupiedDaily => "OCCUPIED_D"
    case Reserved => "RESERVED"
    case Maintenance => "MAINTENANCE"
  }

  /** Each state has its own name, and none is the status filter's "all". */
  lemma StatusNamesDistinct(a: RoomStatus, b: RoomStatus)
    ensures StatusName(a) == StatusName(b) <==> a == b
    ensures StatusName(a) != "all"
  {
  }

  // The booking and contract states the pages compare against.
  const Pending: string := "PENDING"
  const Stayed: string := "STAYED"
  const CheckedOut: string := "CHECKED_OUT"
  const Active: string := "ACTIVE"

  datatype RoomType = RoomType(id: int, typeName: string, baseDailyRate: int, baseMonthlyRate: int)

  /** A room; its status is the text the back end sent. `pricePerDay` and
      `pricePerMonth` may be absent; `roomType` is present when the back end
      includes the room's type in the record. */
  datatype Room = Room(id: int, roomNumber: string, floor: int, typeId: int, currentStatus: string,
                       pricePerDay: Option<int>, pricePerMonth: Option<int>, roomType: Option<RoomType>)

  datatype Customer = Customer(id: int, fullName: string, citizenId: string, address: string,
                               phone: string, carLicense: string)

  /** A daily booking; the stay runs from `checkInDate` to `checkOutDate`,
      both included. */
  datatype DailyBooking = DailyBooking(id: int, customerId: int, roomId: int,
                                       checkInDate: int, checkOutDate: int,
                                       numGuests: int, extraBedCount: int, totalAmount: int,
                                       bookingStatus: string, paymentStatus: string)

  /** A monthly contract; a missing `endDate` means an open-ended contract. */
  datatype MonthlyContract = MonthlyContract(id: int, customerId: int, roomId: int,
                                             startDate: int, endDate: Option<int>,
                                             depositAmount: int, advancePayment: int,
                                             monthlyRentRate: int, contractStatus: string)

  datatype Role = Staff | Admin

  function RoleName(r: Role): string
  {
    match r
    case Staff => "STAFF"
    case Admin => "ADMIN"
  }

  datatype SystemUser = SystemUser(id: int, username: string, fullName: string, email: string,
                                   phone: string, role: Role)

  // ---------------------------------------------------------------------
  // Lookups by id: `list.find((x) => x.id === id)`

  /** The first room with the id, or nothing (never an error). */
  function FindRoom(rooms: seq<Room>, id: int): (r: Option<Room>)
    ensures r.None? <==> forall i :: 0 <= i < |rooms| ==> rooms[i].id != id
    ensures r.Some? ==> r.value in rooms && r.value.id == id
    ensures r.Some? ==> exists i :: 0 <= i < |rooms| && rooms[i] == r.value
                                    && forall j :: 0 <= j < i ==> rooms[j].id != id
  {
    Find(rooms, (x: Room) => x.id == id)
  }

  /** The first customer with the id, or nothing. */
  function FindCustomer(customers: seq<Customer>, id: int): (r: Option<Customer>)
    ensures r.None? <==> forall i :: 0 <= i < |customers| ==> customers[i].id != id
    ensures r.Some? ==> r.value in customers && r.value.id == id
    ensures r.Some? ==> exists i :: 0 <= i < |customers| && customers[i] == r.value
                                    && forall j :: 0 <= j < i ==> customers[j].id != id
  {
    Find(customers, (x: Customer) => x.id == id)
  }

  /** The first room type with the id, or nothing. */
  function FindRoomType(types: seq<RoomType>, id: int): (r: Option<RoomType>)
    ensures r.None? <==> forall i :: 0 <= i < |types| ==> types[i].id != id
    ensures r.Some? ==> r.value in types && r.value.id == id
    ensures r.Some? ==> exists i :: 0 <= i < |types| && types[i] == r.value
                                    && forall j :: 0 <= j < i ==> types[j].id != id
  {
    Find(types, (x: RoomType) => x.id == id)
  }

  /** With ids that are unique, the lookup returns the one record that has it. */
  lemma FindRoomUnique(rooms: seq<Room>, k: int)
    requires 0 <= k < |rooms|
    requires forall i, j :: 0 <= i < j < |rooms| ==> rooms[i].id != rooms[j].id
    ensures FindRoom(rooms, rooms[k].id) == Some(rooms[k])
  {
    var r := FindRoom(rooms, rooms[k].id);
    var i :| 0 <= i < |rooms| && rooms[i] == r.value;
    assert rooms[i].id == rooms[k].id;
  }

  // ---------------------------------------------------------------------
  // The room filter of the calendar and of the room management page

  /** The status drop-down holds "all" or one status name. */
  predicate StatusMatches(status: string, statusFilter: string)
  {
    statusFilter == "all" || status == statusFilter
  }

  /** A room is listed when its number contains the search text and its
      status passes the status filter. */
  predicate RoomMatches(room: Room, searchTerm: string, statusFilter: string)
  {
    Includes(room.roomNumber, searchTerm) && StatusMatches(room.currentStatus, statusFilter)
  }

  /** The list the room filter leaves: exactly the matching rooms, in order. */
  function MatchingRooms(rooms: seq<Room>, searchTerm: string, statusFilter: string): (r: seq<Room>)
    ensures forall x :: x in r <==> x in rooms && RoomMatches(x, searchTerm, statusFilter)
    ensures IsSubsequence(r, rooms)
    ensures forall x :: multiset(r)[x] == if RoomMatches(x, searchTerm, statusFilter) then multiset(rooms)[x] else 0
  {
    var p := (x: Room) => RoomMatches(x, searchTerm, statusFilter);
    FilterIsSubsequence(rooms, p);
    FilterCounts(rooms, p);
    Filter(rooms, p)
  }

  /** An empty search with the "all" filter keeps every room in order. */
  lemma MatchingRoomsKeepsAll(rooms: seq<Room>)
    ensures MatchingRooms(rooms, "", "all") == rooms
  {
    forall i | 0 <= i < |rooms|
      ensures RoomMatches(rooms[i], "", "all")
    {
      IncludesEmpty(rooms[i].roomNumber);
    }
    FilterKeepsAll(rooms, (x: Room) => RoomMatches(x, "", "all"));
  }

  /** A specific status filter keeps only rooms in that state. */
  lemma MatchingRoomsByStatus(rooms: seq<Room>, searchTerm: string, status: RoomStatus)
    ensures forall x :: x in MatchingRooms(rooms, searchTerm, StatusName(status)) ==>
      x.currentStatus == StatusName(status) && Includes(x.roomNumber, searchTerm)
  {
  }
}

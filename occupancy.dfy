/** What occupies one cell of the room calendar: a room on one day. */
module Occupancy {
  import opened Wrappers
  import opened Seqs
  import opened Entities
  import opened CalendarDates

  /** The cell's occupant: a daily booking or a monthly contract, each
      carrying its record. */
  datatype Occupant = DailyStay(booking: DailyBooking) | MonthlyLease(contract: MonthlyContract)

  /** The end an open-ended contract is given: 31 December 2099. */
  const OpenEnd: int := DayNumber(2099, 12, 31)

  /** A daily booking covers the room's day from check-in to check-out,
      both included, whatever its status. */
  predicate BookingCovers(b: DailyBooking, roomId: int, date: int)
  {
    b.roomId == roomId && b.checkInDate <= date <= b.checkOutDate
  }

  /** The last day of a contract: its end date, or `OpenEnd` when it has none. */
  function ContractEnd(c: MonthlyContract): int
  {
    c.endDate.GetOr(OpenEnd)
  }

  /** An active contract covers the room's days from its start to its end,
      both included; a contract in any other state covers nothing. */
  predicate ContractCovers(c: MonthlyContract, roomId: int, date: int)
  {
    c.roomId == roomId && c.contractStatus == Active && c.startDate <= date <= ContractEnd(c)
  }

  /** The occupant of room `roomId` on day `date`: the first covering
      booking in list order, else the first covering contract, else none. */
  function CellOccupant(bookings: seq<DailyBooking>, contracts: seq<MonthlyContract>,
                        roomId: int, date: int): (r: Option<Occupant>)
    ensures r.Some? && r.value.DailyStay? ==>
              r.value.booking in bookings && BookingCovers(r.value.booking, roomId, date)
    ensures r.Some? && r.value.MonthlyLease? ==>
              r.value.contract in contracts && ContractCovers(r.value.contract, roomId, date)
  {
    match Find(bookings, (b: DailyBooking) => BookingCovers(b, roomId, date))
    case Some(b) => Some(DailyStay(b))
    case None =>
      match Find(contracts, (c: MonthlyContract) => ContractCovers(c, roomId, date))
      case Some(c) => Some(MonthlyLease(c))
      case None => None
  }

  /** Daily bookings take precedence: a covering booking always wins, and
      it is the first covering one in list order; only when no booking covers
      the day is the first covering contract the occupant; a cell is free
      exactly when nothing covers it. */
  lemma CellOccupantSpec(bookings: seq<DailyBooking>, contracts: seq<MonthlyContract>, roomId: int, date: int)
    ensures var r := CellOccupant(bookings, contracts, roomId, date);
      && (r.None? <==>
            (forall i :: 0 <= i < |bookings| ==> !BookingCovers(bookings[i], roomId, date))
            && (forall i :: 0 <= i < |contracts| ==> !ContractCovers(contracts[i], roomId, date)))
      && ((exists i :: 0 <= i < |bookings| && BookingCovers(bookings[i], roomId, date)) ==>
            r.Some? && r.value.DailyStay?)
      && (r.Some? && r.value.DailyStay? ==>
            exists i :: 0 <= i < |bookings| && bookings[i] == r.value.booking
                        && BookingCovers(bookings[i], roomId, date)
                        && forall j :: 0 <= j < i ==> !BookingCovers(bookings[j], roomId, date))
      && (r.Some? && r.value.MonthlyLease? ==>
            (forall i :: 0 <= i < |bookings| ==> !BookingCovers(bookings[i], roomId, date))
            && exists i :: 0 <= i < |contracts| && contracts[i] == r.value.contract
                           && ContractCovers(contracts[i], roomId, date)
                           && forall j :: 0 <= j < i ==> !ContractCovers(contracts[j], roomId, date))
  {
  }

  /** A one-night stay (check-in day equal to check-out day) occupies exactly
      that day of its room, and is found when it is the first booking. */
  lemma SingleDayStay(b: DailyBooking, rest: seq<DailyBooking>, contracts: seq<MonthlyContract>, date: int)
    requires b.checkInDate == b.checkOutDate
    ensures BookingCovers(b, b.roomId, date) <==> date == b.checkInDate
    ensures CellOccupant([b] + rest, contracts, b.roomId, b.checkInDate) == Some(DailyStay(b))
  {
    var p := (x: DailyBooking) => BookingCovers(x, b.roomId, b.checkInDate);
    assert ([b] + rest)[0] == b;
    assert Find([b] + rest, p) == Some(b);
  }

  /** The status of a booking is not consulted: a cancelled or checked-out
      booking still occupies its days, ahead of any contract. */
  lemma AnyBookingStatusOccupies(bookings: seq<DailyBooking>, contracts: seq<MonthlyContract>,
                                 k: int, status: string)
    requires 0 <= k < |bookings|
    ensures var b := bookings[k];
      var changed := bookings[k := b.(bookingStatus := status)];
      forall date :: b.checkInDate <= date <= b.checkOutDate ==>
        CellOccupant(changed, contracts, b.roomId, date).Some?
        && CellOccupant(changed, contracts, b.roomId, date).value.DailyStay?
  {
    var b := bookings[k];
    var changed := bookings[k := b.(bookingStatus := status)];
    forall date | b.checkInDate <= date <= b.checkOutDate
      ensures CellOccupant(changed, contracts, b.roomId, date).Some?
              && CellOccupant(changed, contracts, b.roomId, date).value.DailyStay?
    {
      assert BookingCovers(changed[k], b.roomId, date);
    }
  }

  /** An active contract without an end date occupies its room from its
      start through 31 December 2099, and not after. */
  lemma OpenEndedContract(c: MonthlyContract, bookings: seq<DailyBooking>, date: int)
    requires c.contractStatus == Active && c.endDate.None?
    requires forall i :: 0 <= i < |bookings| ==> bookings[i].roomId != c.roomId
    ensures CellOccupant(bookings, [c], c.roomId, date) ==
              if c.startDate <= date <= DayNumber(2099, 12, 31) then Some(MonthlyLease(c)) else None
  {
    if c.startDate <= date <= OpenEnd {
      assert ContractCovers([c][0], c.roomId, date);
    }
  }

  /** A contract that is not active never occupies a cell. */
  lemma InactiveContractIgnored(bookings: seq<DailyBooking>, contracts: seq<MonthlyContract>,
                                c: MonthlyContract, roomId: int, date: int)
    requires c.contractStatus != Active
    ensures CellOccupant(bookings, contracts + [c], roomId, date) == CellOccupant(bookings, contracts, roomId, date)
    ensures CellOccupant(bookings, Filter(contracts, (x: MonthlyContract) => x.contractStatus == Active), roomId, date)
            == CellOccupant(bookings, contracts, roomId, date)
  {
    var p := (x: MonthlyContract) => ContractCovers(x, roomId, date);
    FindAppendNone(contracts, [c], p);
    FindFilter(contracts, p, (x: MonthlyContract) => x.contractStatus == Active);
  }

  /** Records of other rooms do not change a cell: the occupant is the same
      when only the room's own bookings and contracts are searched. */
  lemma OnlyOwnRoomCounts(bookings: seq<DailyBooking>, contracts: seq<MonthlyContract>, roomId: int, date: int)
    ensures CellOccupant(Filter(bookings, (b: DailyBooking) => b.roomId == roomId),
                         Filter(contracts, (c: MonthlyContract) => c.roomId == roomId), roomId, date)
            == CellOccupant(bookings, contracts, roomId, date)
  {
    FindFilter(bookings, (b: DailyBooking) => BookingCovers(b, roomId, date), (b: DailyBooking) => b.roomId == roomId);
    FindFilter(contracts, (c: MonthlyContract) => ContractCovers(c, roomId, date), (c: MonthlyContract) => c.roomId == roomId);
  }
}

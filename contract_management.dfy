/** The contract management page: contracts split into those awaiting
    approval and the active ones, the approve and cancel requests, and what
    a pending row shows. */
module ContractManagement {
  import opened Wrappers
  import opened Seqs
  import opened Api
  import opened Entities

  // ---------------------------------------------------------------------
  // The two lists

  /** Contracts awaiting approval: every contract that is not ACTIVE, in order. */
  function PendingContracts(contracts: seq<MonthlyContract>): (r: seq<MonthlyContract>)
    ensures forall c :: c in r <==> c in contracts && c.contractStatus != Active
    ensures IsSubsequence(r, contracts)
  {
    var p := (c: MonthlyContract) => c.contractStatus != Active;
    FilterIsSubsequence(contracts, p);
    Filter(contracts, p)
  }

  /** The active contracts, in order. */
  function ActiveContracts(contracts: seq<MonthlyContract>): (r: seq<MonthlyContract>)
    ensures forall c :: c in r <==> c in contracts && c.contractStatus == Active
    ensures IsSubsequence(r, contracts)
  {
    var p := (c: MonthlyContract) => c.contractStatus == Active;
    FilterIsSubsequence(contracts, p);
    Filter(contracts, p)
  }

  /** Every contract is in exactly one of the two lists. */
  lemma ExactlyOneList(contracts: seq<MonthlyContract>, c: MonthlyContract)
    requires c in contracts
    ensures c in PendingContracts(contracts) <==> c !in ActiveContracts(contracts)
  {
  }

  /** The two lists together are as long as the list of contracts. */
  lemma ListsAddUp(contracts: seq<MonthlyContract>)
    ensures |PendingContracts(contracts)| + |ActiveContracts(contracts)| == |contracts|
  {
    FilterComplement(contracts, (c: MonthlyContract) => c.contractStatus == Active,
                     (c: MonthlyContract) => c.contractStatus != Active);
  }

  /** Each contract is listed as often as it occurs, in the list its state picks. */
  lemma ListsKeepEveryCopy(contracts: seq<MonthlyContract>, c: MonthlyContract)
    ensures multiset(PendingContracts(contracts))[c] + multiset(ActiveContracts(contracts))[c]
            == multiset(contracts)[c]
  {
    FilterCount(contracts, (x: MonthlyContract) => x.contractStatus != Active, c);
    FilterCount(contracts, (x: MonthlyContract) => x.contractStatus == Active, c);
  }

  // ---------------------------------------------------------------------
  // Approving and cancelling

  /** The two actions of the page whose outcome a notice reports. */
  datatype Action = Approval | Cancellation

  /** What approving does: the request, whether the lists reload, and the
      notice shown. */
  datatype ApproveResult = ApproveResult(request: Request, reload: bool, notice: Toast<Action>)

  /** Approving a contract sets its state to ACTIVE. When that succeeds
      (`approved`) a success notice shows and the lists reload; otherwise an
      error notice shows and nothing reloads. */
  function Approve(contractId: int, approved: bool): (r: ApproveResult)
    ensures r.request.verb == Put && r.request.body == ContractStatusBody("ACTIVE")
    ensures r.request.path == RecordPath("/monthly-contracts", contractId)
    ensures r.reload <==> approved
    ensures r.notice == if approved then Success(Approval) else Failure(Approval)
  {
    var request := Request(Put, RecordPath("/monthly-contracts", contractId), ContractStatusBody(Active));
    if approved then ApproveResult(request, true, Success(Approval))
    else ApproveResult(request, false, Failure(Approval))
  }

  /** Approving one contract never updates another. */
  lemma ApproveTargetsContract(i: int, j: int, approved: bool)
    requires i != j
    ensures Approve(i, approved).request != Approve(j, approved).request
  {
    if Approve(i, approved).request.path == Approve(j, approved).request.path {
      RecordPathInjective("/monthly-contracts", i, j);
    }
  }

  /** What confirming a cancellation does: the request, the dialog and the
      chosen contract after it, whether the lists reload, and the notice. */
  datatype DeleteResult = DeleteResult(request: Option<Request>, dialogOpen: bool, chosen: Option<MonthlyContract>,
                                       reload: bool, notice: Option<Toast<Action>>)

  /** Confirming a cancellation: nothing without a chosen contract; otherwise
      its record is deleted, and when that succeeds (`deleted`) a success
      notice shows, the dialog closes, the choice is cleared and the lists
      reload, while a failure shows an error notice and changes nothing else. */
  function ConfirmDelete(chosen: Option<MonthlyContract>, dialogOpen: bool, deleted: bool): (r: DeleteResult)
    ensures chosen.None? ==> r == DeleteResult(None, dialogOpen, chosen, false, None)
    ensures chosen.Some? ==>
              && r.request == Some(Request(Delete, RecordPath("/monthly-contracts", chosen.value.id), NoBody))
              && (deleted ==> !r.dialogOpen && r.chosen.None? && r.reload && r.notice == Some(Success(Cancellation)))
              && (!deleted ==> r.dialogOpen == dialogOpen && r.chosen == chosen && !r.reload
                               && r.notice == Some(Failure(Cancellation)))
  {
    match chosen
    case None => DeleteResult(None, dialogOpen, None, false, None)
    case Some(c) =>
      var request := Request(Delete, RecordPath("/monthly-contracts", c.id), NoBody);
      if deleted then DeleteResult(Some(request), false, None, true, Some(Success(Cancellation)))
      else DeleteResult(Some(request), dialogOpen, chosen, false, Some(Failure(Cancellation)))
  }

  // ---------------------------------------------------------------------
  // A pending row

  /** What a date cell shows: a dash, or the date in the Thai long format
      (the rendering is not modelled; the cell keeps the text it renders). */
  datatype DateCell = Dash | Formatted(date: string)

  /** A missing (`null` or `undefined`) or empty date shows a dash. */
  function FormatDate(date: Option<string>): (cell: DateCell)
    ensures cell == Dash <==> date.None? || date.value == ""
    ensures cell.Formatted? ==> cell.date == date.value
  {
    if date.None? || date.value == "" then Dash else Formatted(date.value)
  }

  /** The monthly rate a pending row shows: the base monthly rate of the
      room's type, or 0 when the room, its type or the rate is missing or 0. */
  function PendingRowRate(rooms: seq<Room>, types: seq<RoomType>, c: MonthlyContract): (rate: int)
    ensures FindRoom(rooms, c.roomId).None? ==> rate == 0
    ensures FindRoom(rooms, c.roomId).Some? && FindRoomType(types, FindRoom(rooms, c.roomId).value.typeId).Some? ==>
              rate == FindRoomType(types, FindRoom(rooms, c.roomId).value.typeId).value.baseMonthlyRate
    ensures FindRoom(rooms, c.roomId).Some? && FindRoomType(types, FindRoom(rooms, c.roomId).value.typeId).None? ==>
              rate == 0
  {
    var room := FindRoom(rooms, c.roomId);
    var roomType := if room.Some? then FindRoomType(types, room.value.typeId) else None;
    if roomType.Some? && roomType.value.baseMonthlyRate != 0 then roomType.value.baseMonthlyRate else 0
  }

  /** A row whose room is not loaded shows 0, not an error. */
  lemma MissingRoomShowsZero(rooms: seq<Room>, types: seq<RoomType>, c: MonthlyContract)
    requires forall i :: 0 <= i < |rooms| ==> rooms[i].id != c.roomId
    ensures PendingRowRate(rooms, types, c) == 0
  {
  }
}

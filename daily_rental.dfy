/** The daily rental page: the day bookings split by status into the
    pending, stayed and checked-out lists, the number of days a stay spans,
    and the check-in and check-out confirmations. */
module DailyRental {
  import opened Wrappers
  import opened Text
  import opened Seqs
  import opened CalendarDates
  import opened Api
  import opened Entities

  // ---------------------------------------------------------------------
  // Days of a stay

  /** The days a stay spans: the elapsed milliseconds from the check-in
      midnight to the check-out midnight, divided by a day and rounded up,
      plus one. Between two midnights that is the number of calendar days
      from check-in to check-out, both included. */
  function CalculateDays(checkIn: int, checkOut: int): (n: int)
    ensures n == checkOut - checkIn + 1
  {
    InclusiveDayCountOfDates(checkIn, checkOut);
    InclusiveDayCount(MidnightMs(checkIn), MidnightMs(checkOut))
  }

  /** A stay that checks out on its check-in day counts as one day. */
  lemma SameDayIsOneDay(d: int)
    ensures CalculateDays(d, d) == 1
  {
  }

  // ---------------------------------------------------------------------
  // The three lists

  /** The bookings in the given state, in their order. */
  function WithStatus(bookings: seq<DailyBooking>, status: string): (r: seq<DailyBooking>)
    ensures forall b :: b in r <==> b in bookings && b.bookingStatus == status
    ensures IsSubsequence(r, bookings)
  {
    var p := (b: DailyBooking) => b.bookingStatus == status;
    FilterIsSubsequence(bookings, p);
    Filter(bookings, p)
  }

  function PendingBookings(bookings: seq<DailyBooking>): seq<DailyBooking>
  {
    WithStatus(bookings, Pending)
  }

  function CheckedInBookings(bookings: seq<DailyBooking>): seq<DailyBooking>
  {
    WithStatus(bookings, Stayed)
  }

  function CheckedOutBookings(bookings: seq<DailyBooking>): seq<DailyBooking>
  {
    WithStatus(bookings, CheckedOut)
  }

  /** A list holds each booking in its state as often as the bookings do,
      and no booking in another state. */
  lemma WithStatusCounts(bookings: seq<DailyBooking>, status: string, b: DailyBooking)
    ensures multiset(WithStatus(bookings, status))[b] ==
              if b.bookingStatus == status then multiset(bookings)[b] else 0
  {
    FilterCount(bookings, (x: DailyBooking) => x.bookingStatus == status, b);
  }

  /** No booking is in two of the lists. */
  lemma ListsDisjoint(bookings: seq<DailyBooking>, b: DailyBooking)
    ensures !(b in PendingBookings(bookings) && b in CheckedInBookings(bookings))
    ensures !(b in PendingBookings(bookings) && b in CheckedOutBookings(bookings))
    ensures !(b in CheckedInBookings(bookings) && b in CheckedOutBookings(bookings))
  {
  }

  /** A booking in any other state, a cancelled one say, is in none of them. */
  lemma OtherStatusInNoList(bookings: seq<DailyBooking>, b: DailyBooking)
    requires b.bookingStatus != Pending && b.bookingStatus != Stayed && b.bookingStatus != CheckedOut
    ensures b !in PendingBookings(bookings) && b !in CheckedInBookings(bookings)
            && b !in CheckedOutBookings(bookings)
  {
  }

  /** The bookings in none of the three states. */
  function OtherBookings(bookings: seq<DailyBooking>): seq<DailyBooking>
  {
    Filter(bookings, (b: DailyBooking) =>
      b.bookingStatus != Pending && b.bookingStatus != Stayed && b.bookingStatus != CheckedOut)
  }

  /** The three lists and the remaining bookings account for every booking
      once: their lengths add up to the number of bookings. */
  lemma {:induction false} ListsCoverAll(bookings: seq<DailyBooking>)
    ensures |PendingBookings(bookings)| + |CheckedInBookings(bookings)| + |CheckedOutBookings(bookings)|
            + |OtherBookings(bookings)| == |bookings|
  {
    if bookings != [] {
      ListsCoverAll(bookings[1..]);
      FilterStep(bookings, (b: DailyBooking) => b.bookingStatus == Pending);
      FilterStep(bookings, (b: DailyBooking) => b.bookingStatus == Stayed);
      FilterStep(bookings, (b: DailyBooking) => b.bookingStatus == CheckedOut);
      FilterStep(bookings, (b: DailyBooking) =>
        b.bookingStatus != Pending && b.bookingStatus != Stayed && b.bookingStatus != CheckedOut);
    }
  }

  // ---------------------------------------------------------------------
  // Check-in and check-out

  datatype ConfirmKind = CheckIn | CheckOut

  /** The confirmation dialog: whether it is open, what it confirms, and
      the booking it is for. */
  datatype ConfirmDialog = ConfirmDialog(isOpen: bool, kind: Option<ConfirmKind>, bookingId: Option<int>)

  const ClosedDialog: ConfirmDialog := ConfirmDialog(false, None, None)

  /** The check-in or check-out button of a booking opens the dialog for it. */
  function OpenConfirm(kind: ConfirmKind, bookingId: int): (d: ConfirmDialog)
    ensures d.isOpen && d.kind == Some(kind) && d.bookingId == Some(bookingId)
  {
    ConfirmDialog(true, Some(kind), Some(bookingId))
  }

  /** The state a confirmation sets: STAYED for a check-in, CHECKED_OUT
      for a check-out. */
  function TargetStatus(kind: ConfirmKind): string
  {
    match kind
    case CheckIn => Stayed
    case CheckOut => CheckedOut
  }

  /** What confirming does: the request it sends, the dialog after it,
      whether the lists reload, and the notice it shows (the success or the
      failure of the check-in or check-out). */
  datatype ConfirmResult = ConfirmResult(request: Option<Request>, dialog: ConfirmDialog, reload: bool,
                                         notice: Option<Toast<ConfirmKind>>)

  /** Confirming a check-in or check-out. With no booking id (missing or 0)
      nothing happens; otherwise the booking's new state is sent, and when
      that succeeds (`saved`) a success notice shows, the dialog closes and
      the lists reload, while a failure shows an error notice and leaves the
      dialog as it was. */
  function Confirm(d: ConfirmDialog, kind: ConfirmKind, saved: bool): (r: ConfirmResult)
    ensures r.request.None? <==> d.bookingId.None? || d.bookingId.value == 0
    ensures r.request.None? ==> r.dialog == d && !r.reload && r.notice.None?
    ensures r.request.Some? ==>
              && r.request.value.verb == Put && r.request.value.body == BookingStatusBody(TargetStatus(kind))
              && r.request.value.path == RecordPath("/daily-bookings", d.bookingId.value)
              && (r.dialog == if saved then ClosedDialog else d)
              && r.reload == saved
              && r.notice == Some(if saved then Success(kind) else Failure(kind))
  {
    match d.bookingId
    case None => ConfirmResult(None, d, false, None)
    case Some(id) =>
      if id == 0 then ConfirmResult(None, d, false, None)
      else
        var request := Request(Put, RecordPath("/daily-bookings", id), BookingStatusBody(TargetStatus(kind)));
        if saved then ConfirmResult(Some(request), ClosedDialog, true, Some(Success(kind)))
        else ConfirmResult(Some(request), d, false, Some(Failure(kind)))
  }

  /** Confirming a check-in: the booking becomes STAYED. */
  function ConfirmCheckIn(d: ConfirmDialog, saved: bool): (r: ConfirmResult)
    ensures r.request.Some? ==> r.request.value.body == BookingStatusBody("STAYED")
    ensures r.notice.Some? ==> r.notice.value.message == CheckIn
  {
    Confirm(d, CheckIn, saved)
  }

  /** Confirming a check-out: the booking becomes CHECKED_OUT. */
  function ConfirmCheckOut(d: ConfirmDialog, saved: bool): (r: ConfirmResult)
    ensures r.request.Some? ==> r.request.value.body == BookingStatusBody("CHECKED_OUT")
    ensures r.notice.Some? ==> r.notice.value.message == CheckOut
  {
    Confirm(d, CheckOut, saved)
  }

  /** Check-in sends STAYED and check-out CHECKED_OUT for the booking whose
      button opened the dialog, and a confirmed update of one booking never
      reaches another. */
  lemma ConfirmTargetsBooking(id: int, other: int, saved: bool)
    requires id != 0 && other != id
    ensures var r := ConfirmCheckIn(OpenConfirm(CheckIn, id), saved);
      r.request.Some? && r.request.value.body.bookingStatus == "STAYED"
      && r.request.value.path == RecordPath("/daily-bookings", id)
      && r.request.value.path != RecordPath("/daily-bookings", other)
    ensures var r := ConfirmCheckOut(OpenConfirm(CheckOut, id), saved);
      r.request.Some? && r.request.value.body.bookingStatus == "CHECKED_OUT"
      && r.request.value.path == RecordPath("/daily-bookings", id)
  {
    if RecordPath("/daily-bookings", id) == RecordPath("/daily-bookings", other) {
      RecordPathInjective("/daily-bookings", id, other);
    }
  }

  /** The confirmation after a check-in is the one that cleared the dialog:
      confirming again with the closed dialog does nothing. */
  lemma ConfirmTwiceIsNoop(id: int)
    requires id != 0
    ensures ConfirmCheckIn(ConfirmCheckIn(OpenConfirm(CheckIn, id), true).dialog, true).request.None?
  {
  }
}

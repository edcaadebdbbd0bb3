/** The room calendar page: a month of days across the listed rooms, each
    cell free or occupied, with a booking form for free cells and a cancel
    dialog for occupied ones.

    The page's decisions (which cell is occupied, what a booking sends and
    which checks it must pass) are pure functions; the `CalendarPage` class
    holds the page's state in fields, and its handlers are proved to update
    those fields as the functions decide. The requests and notices the
    handlers issue are appended to `effects`. */
module RoomCalendar {
  import opened Wrappers
  import opened Text
  import opened Seqs
  import opened CalendarDates
  import opened Api
  import opened Entities
  import opened Occupancy

  // ---------------------------------------------------------------------
  // The listed rooms: filtered, then sorted by floor descending and room
  // number ascending

  /** The comparator: a higher floor first; on one floor, the room number
      that sorts first. */
  predicate DisplayedBefore(a: Room, b: Room)
  {
    a.floor > b.floor || (a.floor == b.floor && LexLess(a.roomNumber, b.roomNumber))
  }

  lemma LexNotLessTransitive(a: string, b: string, c: string)
    requires !LexLess(a, b) && !LexLess(b, c)
    ensures !LexLess(a, c)
  {
    if LexLess(a, c) {
      if a != b {
        LexLessTotal(a, b);
        LexLessTransitive(b, a, c);
      }
    }
  }

  /** The comparator is a strict weak order, so sorting by it is well defined. */
  lemma DisplayOrderIsStrictWeak()
    ensures StrictWeakOrder(DisplayedBefore)
  {
    forall a: Room, b: Room | DisplayedBefore(a, b)
      ensures !DisplayedBefore(b, a)
    {
      if a.floor == b.floor && LexLess(b.roomNumber, a.roomNumber) {
        LexLessTransitive(a.roomNumber, b.roomNumber, a.roomNumber);
        LexLessIrreflexive(a.roomNumber);
      }
    }
    forall a: Room, b: Room, c: Room | !DisplayedBefore(a, b) && !DisplayedBefore(b, c)
      ensures !DisplayedBefore(a, c)
    {
      if a.floor == b.floor == c.floor {
        LexNotLessTransitive(a.roomNumber, b.roomNumber, c.roomNumber);
      }
    }
  }

  /** The rooms the calendar lists: exactly the rooms that pass the search
      and the status filter, each as often as in the loaded list, in
      display order. */
  function DisplayedRooms(rooms: seq<Room>, searchTerm: string, statusFilter: string): (r: seq<Room>)
    ensures multiset(r) == multiset(MatchingRooms(rooms, searchTerm, statusFilter))
    ensures forall x :: x in r <==> x in rooms && RoomMatches(x, searchTerm, statusFilter)
    ensures SortedBy(r, DisplayedBefore)
  {
    var matching := MatchingRooms(rooms, searchTerm, statusFilter);
    DisplayOrderIsStrictWeak();
    SortBySorted(matching, DisplayedBefore);
    var r := SortBy(matching, DisplayedBefore);
    assert forall x :: x in r <==> x in multiset(r);
    assert forall x :: x in matching <==> x in multiset(matching);
    r
  }

  /** Read row by row, the listed rooms go down by floor, and on one floor
      up by room number. */
  lemma DisplayedRoomsOrder(rooms: seq<Room>, searchTerm: string, statusFilter: string, i: int, j: int)
    requires 0 <= i < j < |DisplayedRooms(rooms, searchTerm, statusFilter)|
    ensures var r := DisplayedRooms(rooms, searchTerm, statusFilter);
      && r[i].floor >= r[j].floor
      && (r[i].floor == r[j].floor && r[i].roomNumber != r[j].roomNumber ==>
            LexLess(r[i].roomNumber, r[j].roomNumber))
  {
    var r := DisplayedRooms(rooms, searchTerm, statusFilter);
    assert !DisplayedBefore(r[j], r[i]);
    if r[i].roomNumber != r[j].roomNumber {
      LexLessTotal(r[i].roomNumber, r[j].roomNumber);
    }
  }

  // ---------------------------------------------------------------------
  // The customer picker of the booking form

  /** A customer is offered when the lower-cased name contains the
      lower-cased search text or the phone number contains the text as typed. */
  predicate PickerMatches(c: Customer, term: string)
  {
    Includes(ToLower(c.fullName), ToLower(term)) || Includes(c.phone, term)
  }

  function PickerCustomers(customers: seq<Customer>, term: string): (r: seq<Customer>)
    ensures forall c :: c in r <==> c in customers && PickerMatches(c, term)
    ensures IsSubsequence(r, customers)
    ensures forall c :: multiset(r)[c] == if PickerMatches(c, term) then multiset(customers)[c] else 0
  {
    var p := (c: Customer) => PickerMatches(c, term);
    FilterIsSubsequence(customers, p);
    FilterCounts(customers, p);
    Filter(customers, p)
  }

  /** Before anything is typed every customer is offered, in order. */
  lemma PickerOffersAllWhenEmpty(customers: seq<Customer>)
    ensures PickerCustomers(customers, "") == customers
  {
    assert ToLower("") == "";
    forall i | 0 <= i < |customers|
      ensures PickerMatches(customers[i], "")
    {
      IncludesEmpty(ToLower(customers[i].fullName));
    }
    FilterKeepsAll(customers, (c: Customer) => PickerMatches(c, ""));
  }

  // ---------------------------------------------------------------------
  // The booking form

  datatype BookingKind = Daily | Monthly

  /** The form's fields, as the inputs hold them. */
  datatype BookingForm = BookingForm(startDate: string, endDate: string, customerId: int,
                                     customerPhone: string, citizenId: string, address: string,
                                     carLicense: string, depositAmount: string,
                                     advancePayment: string, monthlyRentRate: string,
                                     numGuests: string, extraBedCount: string, totalAmount: string)

  const EmptyForm: BookingForm := BookingForm("", "", 0, "", "", "", "", "", "", "", "", "", "")

  /** The date of a cell: day `day` of the shown month. */
  function CellDate(year: nat, month: int, day: int): int
    requires 1 <= month <= 12
  {
    DayNumber(year, month, day)
  }

  /** The form a free cell opens: the cell's date as start date. */
  function SeededForm(year: nat, month: int, day: int): BookingForm
    requires 1 <= month <= 12 && 1 <= day
  {
    EmptyForm.(startDate := FormatIsoDate(year, month, day))
  }

  /** Every field of a seeded form but the start date is empty, and the start
      date reads back as the cell's date whenever the year has four digits. */
  lemma SeededFormDate(year: nat, month: int, day: int)
    requires 1 <= month <= 12 && 1 <= day
    ensures SeededForm(year, month, day).(startDate := "") == EmptyForm
    ensures 1000 <= year <= 9999 && ValidDate(year, month, day) ==>
              ParseIsoDate(SeededForm(year, month, day).startDate) == Some(CellDate(year, month, day))
  {
    if 1000 <= year <= 9999 && ValidDate(year, month, day) {
      IsoDateRoundTrip(year, month, day);
    }
  }

  /** Why a submission stops before any request. A missing room stops it
      silently; each other reason shows an error notice. */
  datatype Rejection = NoRoom | NoCustomer | MissingPhone | MissingStartDate | MissingEndDate | EndBeforeStart

  /** `end < start` on the two dates; a date that does not parse is NaN and
      every comparison with it is false. */
  predicate EndsBeforeStart(startDate: string, endDate: string)
  {
    match (ParseIsoDate(startDate), ParseIsoDate(endDate))
    case (Some(s), Some(e)) => e < s
    case _ => false
  }

  /** The guards of a submission, in the order they run: the first that
      fails is the rejection. */
  function Validate(room: Option<Room>, selected: Option<Customer>, creatingNew: bool,
                    form: BookingForm, kind: BookingKind): (r: Option<Rejection>)
    ensures r == Some(NoRoom) <==> room.None?
    ensures r == Some(NoCustomer) <==> room.Some? && selected.None? && !creatingNew
    ensures r == Some(MissingPhone) <==> room.Some? && creatingNew && IsBlank(form.customerPhone)
    ensures r == Some(MissingStartDate) <==>
              room.Some? && (selected.Some? || creatingNew) && !(creatingNew && IsBlank(form.customerPhone))
              && form.startDate == ""
    ensures r == Some(MissingEndDate) <==>
              room.Some? && (selected.Some? || creatingNew) && !(creatingNew && IsBlank(form.customerPhone))
              && form.startDate != "" && kind == Daily && form.endDate == ""
    ensures r == Some(EndBeforeStart) <==>
              room.Some? && (selected.Some? || creatingNew) && !(creatingNew && IsBlank(form.customerPhone))
              && form.startDate != "" && kind == Daily && form.endDate != ""
              && EndsBeforeStart(form.startDate, form.endDate)
    ensures kind == Monthly ==> r != Some(MissingEndDate) && r != Some(EndBeforeStart)
  {
    if room.None? then Some(NoRoom)
    else if selected.None? && !creatingNew then Some(NoCustomer)
    else if creatingNew && IsBlank(form.customerPhone) then Some(MissingPhone)
    else if form.startDate == "" then Some(MissingStartDate)
    else if kind == Daily && form.endDate == "" then Some(MissingEndDate)
    else if kind == Daily && EndsBeforeStart(form.startDate, form.endDate) then Some(EndBeforeStart)
    else None
  }

  /** A submission passes exactly when a room is found, a customer is chosen
      or being created (with a phone number that is not blank), a start date
      is given, and a daily booking has an end date that is not before the
      start. */
  lemma ValidateAccepts(room: Option<Room>, selected: Option<Customer>, creatingNew: bool,
                        form: BookingForm, kind: BookingKind)
    ensures Validate(room, selected, creatingNew, form, kind).None? <==>
      && room.Some?
      && (selected.Some? || creatingNew)
      && (creatingNew ==> exists i :: 0 <= i < |form.customerPhone| && !IsJsWhitespace(form.customerPhone[i]))
      && form.startDate != ""
      && (kind == Daily ==> form.endDate != "" && !EndsBeforeStart(form.startDate, form.endDate))
  {
    BlankIffAllWhitespace(form.customerPhone);
  }

  /** An accepted daily booking whose dates parse runs forwards: its end is
      not before its start. */
  lemma AcceptedDailyRange(room: Option<Room>, selected: Option<Customer>, creatingNew: bool,
                           form: BookingForm, s: int, e: int)
    requires Validate(room, selected, creatingNew, form, Daily).None?
    requires ParseIsoDate(form.startDate) == Some(s) && ParseIsoDate(form.endDate) == Some(e)
    ensures s <= e
  {
    assert !EndsBeforeStart(form.startDate, form.endDate);
  }

  /** The customer check comes before the form checks: with no customer
      chosen, the rejection names the customer whatever the form holds. */
  lemma CustomerCheckedFirst(room: Room, form: BookingForm, kind: BookingKind)
    ensures Validate(Some(room), None, false, form, kind) == Some(NoCustomer)
  {
  }

  // ---------------------------------------------------------------------
  // Rates and amounts

  /** A number that may be missing (`undefined`) followed by `|| fallback`. */
  function RateOr(x: Option<int>, fallback: int): (r: int)
    ensures x.Some? && x.value != 0 ==> r == x.value
    ensures x.None? || x.value == 0 ==> r == fallback
  {
    NumberOr(x, fallback)
  }

  /** The daily rate: the room type's, unless it is missing or 0; then the
      room's own, unless that is missing or 0; then 0. */
  function DailyRate(roomType: Option<RoomType>, room: Room): (rate: int)
    ensures roomType.Some? && roomType.value.baseDailyRate != 0 ==> rate == roomType.value.baseDailyRate
    ensures roomType.None? || roomType.value.baseDailyRate == 0 ==> rate == room.pricePerDay.GetOr(0)
  {
    RateOr(if roomType.Some? then Some(roomType.value.baseDailyRate) else None, RateOr(room.pricePerDay, 0))
  }

  /** The monthly rate, by the same fallbacks. */
  function MonthlyRate(roomType: Option<RoomType>, room: Room): (rate: int)
    ensures roomType.Some? && roomType.value.baseMonthlyRate != 0 ==> rate == roomType.value.baseMonthlyRate
    ensures roomType.None? || roomType.value.baseMonthlyRate == 0 ==> rate == room.pricePerMonth.GetOr(0)
  {
    RateOr(if roomType.Some? then Some(roomType.value.baseMonthlyRate) else None, RateOr(room.pricePerMonth, 0))
  }

  /** The computed total of a daily booking: the rate times the number of
      days from start to end, both included; `None` (NaN) when a date does
      not parse. */
  function DefaultDailyTotal(rate: int, startDate: string, endDate: string): Option<int>
  {
    match (ParseIsoDate(startDate), ParseIsoDate(endDate))
    case (Some(s), Some(e)) => Some(rate * InclusiveDayCount(MidnightMs(s), MidnightMs(e)))
    case _ => None
  }

  /** The computed total is rate × (end − start + 1). */
  lemma DefaultDailyTotalFormula(rate: int, startDate: string, endDate: string, s: int, e: int)
    requires ParseIsoDate(startDate) == Some(s) && ParseIsoDate(endDate) == Some(e)
    ensures DefaultDailyTotal(rate, startDate, endDate) == Some(rate * (e - s + 1))
  {
    InclusiveDayCountOfDates(s, e);
  }

  /** A number field of the form followed by `|| fallback`. */
  function FieldOr(field: string, fallback: int): int
  {
    NumberOr(NumberValue(field), fallback)
  }

  /** An empty field reads as 0, so it takes the fallback. */
  lemma FieldOrBlank(fallback: int)
    ensures FieldOr("", fallback) == fallback
  {
    assert Trim("") == "";
  }

  /** A number written into the field is used unless it is 0. */
  lemma FieldOrNumber(n: int, fallback: int)
    ensures FieldOr(IntToString(n), fallback) == if n != 0 then n else fallback
  {
    NumberValueOfString(n);
  }

  /** The total sent: the entered total unless it is empty, 0 or not a
      number; then the computed one, which is `null` when it is NaN. */
  function TotalAmount(entered: string, computed: Option<int>): (j: Json)
    ensures NumberValue(entered).Some? && NumberValue(entered).value != 0 ==> j == JNum(NumberValue(entered).value)
    ensures (NumberValue(entered).None? || NumberValue(entered).value == 0) ==>
              j == (if computed.Some? then JNum(computed.value) else JNull)
  {
    var n := NumberValue(entered);
    if n.Some? && n.value != 0 then JNum(n.value)
    else if computed.Some? then JNum(computed.value)
    else JNull
  }

  /** The body of `POST /daily-bookings`. */
  function DailyPayload(roomId: int, customerId: int, form: BookingForm, rate: int): (p: Body)
    ensures p.DailyBookingBody? && p.roomId == roomId && p.customerId == customerId
    ensures p.checkInDate == form.startDate && p.checkOutDate == form.endDate
    ensures p.bookingStatus == "PENDING" && p.paymentStatus == "PENDING" && p.currentStatus == "OCCUPIED_D"
  {
    DailyBookingBody(roomId, customerId, form.startDate, form.endDate,
                     FieldOr(form.numGuests, 1), FieldOr(form.extraBedCount, 0),
                     TotalAmount(form.totalAmount, DefaultDailyTotal(rate, form.startDate, form.endDate)),
                     Pending, Pending, StatusName(OccupiedDaily))
  }

  /** With the optional fields left empty, a daily booking is for one guest,
      no extra bed, and costs the rate times the days it spans. */
  lemma DailyPayloadDefaults(roomId: int, customerId: int, form: BookingForm, rate: int, s: int, e: int)
    requires form.numGuests == "" && form.extraBedCount == "" && form.totalAmount == ""
    requires ParseIsoDate(form.startDate) == Some(s) && ParseIsoDate(form.endDate) == Some(e)
    ensures var p := DailyPayload(roomId, customerId, form, rate);
      && p.checkInDate == form.startDate && p.checkOutDate == form.endDate
      && p.numGuests == 1 && p.extraBedCount == 0
      && p.totalAmount == JNum(rate * (e - s + 1))
      && p.bookingStatus == "PENDING" && p.paymentStatus == "PENDING"
  {
    FieldOrBlank(1);
    FieldOrBlank(0);
    assert Trim("") == "";
    DefaultDailyTotalFormula(rate, form.startDate, form.endDate, s, e);
  }

  /** A total typed into the form, other than 0, replaces the computed one. */
  lemma EnteredTotalOverrides(total: int, computed: Option<int>)
    requires total != 0
    ensures TotalAmount(IntToString(total), computed) == JNum(total)
  {
    NumberValueOfString(total);
  }

  /** The body of `POST /monthly-contracts`; an empty end date is sent as
      `null`. */
  function MonthlyPayload(roomId: int, customerId: int, form: BookingForm, rate: int): (p: Body)
    ensures p.ContractBody? && p.roomId == roomId && p.customerId == customerId
    ensures p.startDate == form.startDate && (p.endDate == JNull <==> form.endDate == "")
    ensures p.contractStatus == "PENDING" && p.currentStatus == "OCCUPIED_M"
  {
    ContractBody(roomId, customerId, form.startDate, if form.endDate == "" then JNull else JStr(form.endDate),
                 FieldOr(form.depositAmount, 0), FieldOr(form.advancePayment, 0),
                 FieldOr(form.monthlyRentRate, rate), Pending, StatusName(OccupiedMonthly))
  }

  /** With the optional fields left empty, a contract is open-ended, takes no
      deposit or advance, and charges the room's monthly rate; a contract is
      created pending, never active. */
  lemma MonthlyPayloadDefaults(roomId: int, customerId: int, form: BookingForm, rate: int)
    requires form.endDate == "" && form.depositAmount == "" && form.advancePayment == ""
    requires form.monthlyRentRate == ""
    ensures var p := MonthlyPayload(roomId, customerId, form, rate);
      && p.startDate == form.startDate && p.endDate == JNull
      && p.depositAmount == 0 && p.advancePayment == 0
      && p.monthlyRentRate == rate
      && p.contractStatus == "PENDING" && p.contractStatus != Active
  {
    FieldOrBlank(0);
    FieldOrBlank(rate);
  }

  /** The customer a submission creates: named by the phone number, or by
      `Customer_<now>` when the phone is empty. */
  function NewCustomer(form: BookingForm, now: int, id: int): (c: Customer)
    ensures c.id == id && c.phone == form.customerPhone && c.citizenId == form.citizenId
    ensures form.customerPhone != "" ==> c.fullName == form.customerPhone
    ensures form.customerPhone == "" ==> c.fullName == "Customer_" + IntToString(now)
  {
    Customer(id, if form.customerPhone != "" then form.customerPhone else "Customer_" + IntToString(now),
             form.citizenId, form.address, form.customerPhone, form.carLicense)
  }

  /** The body of `POST /customers`: every field of the customer but its id. */
  function CustomerPayload(c: Customer): Body
  {
    CustomerBody(c.fullName, c.citizenId, c.address, c.phone, c.carLicense)
  }

  /** A customer created by an accepted submission is named by its phone
      number: the phone guard has already ruled out an empty phone. */
  lemma CreatedCustomerNamedByPhone(room: Option<Room>, form: BookingForm, kind: BookingKind, now: int, id: int)
    requires Validate(room, None, true, form, kind).None?
    ensures NewCustomer(form, now, id).fullName == form.customerPhone
  {
  }

  // ---------------------------------------------------------------------
  // Notices, effects and the outcome of a submission

  /** The messages of the page's notices. */
  datatype Message =
    | LoadFailed | PickOrCreateCustomer | PhoneRequired | StartDateRequired | EndDateRequired
    | EndNotBeforeStart | CustomerCreateFailed | CustomerMissing | DailyBooked | ContractCreated
    | BookingFailed | DailyCancelled | ContractCancelled | CancelFailed

  /** What a handler does beyond its own state: issue a request, show a
      notice, or reload every list from the back end. */
  datatype Effect = Send(request: Request) | Notify(toast: Toast<Message>) | Reload

  /** The notices of a rejection: none for a missing room, one error otherwise. */
  function RejectionNotices(e: Rejection): (n: seq<Effect>)
    ensures e == NoRoom <==> n == []
    ensures |n| <= 1 && forall k :: 0 <= k < |n| ==> n[k].Notify? && n[k].toast.Failure?
  {
    match e
    case NoRoom => []
    case NoCustomer => [Notify(Failure(PickOrCreateCustomer))]
    case MissingPhone => [Notify(Failure(PhoneRequired))]
    case MissingStartDate => [Notify(Failure(StartDateRequired))]
    case MissingEndDate => [Notify(Failure(EndDateRequired))]
    case EndBeforeStart => [Notify(Failure(EndNotBeforeStart))]
  }

  /** What a submission is made from: the selected room, the kind of
      booking, the customer choice and the form. */
  datatype Draft = Draft(roomId: int, kind: BookingKind, selected: Option<Customer>,
                         creatingNew: bool, form: BookingForm)

  /** The rejection of a draft, if any. */
  function Check(rooms: seq<Room>, d: Draft): Option<Rejection>
  {
    Validate(FindRoom(rooms, d.roomId), d.selected, d.creatingNew, d.form, d.kind)
  }

  /** The booking request for `room` and the customer: a daily booking or a
      monthly contract, by the draft's kind, priced from the room's type. */
  function BookingRequest(roomTypes: seq<RoomType>, d: Draft, room: Room, customerId: int): (r: Request)
    ensures r.verb == Post && (r.body.DailyBookingBody? || r.body.ContractBody?)
    ensures r.body.roomId == d.roomId && r.body.customerId == customerId
    ensures d.kind == Daily ==> r.path == "/daily-bookings" && r.body.DailyBookingBody?
    ensures d.kind == Monthly ==> r.path == "/monthly-contracts" && r.body.ContractBody?
  {
    var roomType := FindRoomType(roomTypes, room.typeId);
    if d.kind == Daily then
      Request(Post, "/daily-bookings", DailyPayload(d.roomId, customerId, d.form, DailyRate(roomType, room)))
    else
      Request(Post, "/monthly-contracts", MonthlyPayload(d.roomId, customerId, d.form, MonthlyRate(roomType, room)))
  }

  /** What a submission does: the effects in order, the customer it adds
      to the page's list, and whether the booking dialog closes. */
  datatype Outcome = Outcome(effects: seq<Effect>, added: Option<Customer>, closes: bool)

  /** Booking with a customer id once the draft has passed: an id of 0 (no
      id) stops with an error; otherwise the booking request is sent, and
      when it is `saved` the dialog closes and the lists reload. */
  function Book(roomTypes: seq<RoomType>, d: Draft, room: Room, customerId: int, saved: bool,
                before: seq<Effect>, added: Option<Customer>): (o: Outcome)
    ensures |o.effects| > |before| && o.effects[..|before|] == before && o.added == added
    ensures o.closes <==> customerId != 0 && saved
    ensures customerId == 0 ==> o.effects == before + [Notify(Failure(CustomerMissing))]
    ensures customerId != 0 && saved ==>
              o.effects == before + [Send(BookingRequest(roomTypes, d, room, customerId)),
                                     Notify(Success(if d.kind == Daily then DailyBooked else ContractCreated)), Reload]
    ensures customerId != 0 && !saved ==>
              o.effects == before + [Send(BookingRequest(roomTypes, d, room, customerId)),
                                     Notify(Failure(BookingFailed))]
  {
    if customerId == 0 then
      Outcome(before + [Notify(Failure(CustomerMissing))], added, false)
    else
      var request := BookingRequest(roomTypes, d, room, customerId);
      var done := if d.kind == Daily then DailyBooked else ContractCreated;
      if saved then Outcome(before + [Send(request), Notify(Success(done)), Reload], added, true)
      else Outcome(before + [Send(request), Notify(Failure(BookingFailed))], added, false)
  }

  /** Submitting a draft. `created` is the id the back end gives a new
      customer (`None` when that request fails), `now` the clock reading that
      names a customer without a phone, and `saved` whether the booking
      request succeeds. The bookings and contracts already loaded are not
      an input: nothing checks the range for overlaps. */
  function SubmitOutcome(rooms: seq<Room>, roomTypes: seq<RoomType>, d: Draft,
                         created: Option<int>, now: int, saved: bool): Outcome
  {
    var room := FindRoom(rooms, d.roomId);
    match Check(rooms, d)
    case Some(e) => Outcome(RejectionNotices(e), None, false)
    case None =>
      if d.selected.Some? then
        Book(roomTypes, d, room.value, d.selected.value.id, saved, [], None)
      else
        var sent := [Send(Request(Post, "/customers", CustomerPayload(NewCustomer(d.form, now, 0))))];
        match created
        case None => Outcome(sent + [Notify(Failure(CustomerCreateFailed))], None, false)
        case Some(id) =>
          Book(roomTypes, d, room.value, id, saved, sent,
               if id != 0 then Some(NewCustomer(d.form, now, id)) else None)
  }

  /** A rejected draft shows at most one notice and sends nothing. A passed
      draft sends a request first (the customer, or the booking), unless the
      chosen customer has id 0. A customer is added only when one was
      created with a nonzero id, and the dialog closes only on a saved
      booking. */
  lemma SubmitOutcomeGuards(rooms: seq<Room>, roomTypes: seq<RoomType>, d: Draft,
                            created: Option<int>, now: int, saved: bool)
    ensures var o := SubmitOutcome(rooms, roomTypes, d, created, now, saved);
      && (Check(rooms, d).Some? ==>
            && |o.effects| <= 1 && o.added.None? && !o.closes
            && forall k :: 0 <= k < |o.effects| ==> !o.effects[k].Send?)
      && (Check(rooms, d).None? && (d.selected.None? || d.selected.value.id != 0) ==>
            |o.effects| >= 2 && o.effects[0].Send?)
      && (o.added.Some? ==> d.selected.None? && created == Some(o.added.value.id) && o.added.value.id != 0)
      && (o.closes ==> saved && Check(rooms, d).None?)
  {
  }

  /** A passed daily draft for a chosen customer posts the form's dates with
      the pending states and the room's daily rate, and adds no customer. */
  lemma SubmitDailyForCustomer(rooms: seq<Room>, roomTypes: seq<RoomType>, d: Draft,
                               created: Option<int>, now: int, saved: bool, c: Customer)
    requires Check(rooms, d).None? && d.kind == Daily && d.selected == Some(c) && c.id != 0
    ensures var o := SubmitOutcome(rooms, roomTypes, d, created, now, saved);
      var room := FindRoom(rooms, d.roomId).value;
      var rate := DailyRate(FindRoomType(roomTypes, room.typeId), room);
      && o.effects[0] == Send(Request(Post, "/daily-bookings", DailyPayload(d.roomId, c.id, d.form, rate)))
      && o.added.None?
      && (saved <==> o.closes)
  {
  }

  /** A passed monthly draft for a chosen customer posts the contract
      payload at the room's monthly rate, and adds no customer. */
  lemma SubmitMonthlyForCustomer(rooms: seq<Room>, roomTypes: seq<RoomType>, d: Draft,
                                 created: Option<int>, now: int, saved: bool, c: Customer)
    requires Check(rooms, d).None? && d.kind == Monthly && d.selected == Some(c) && c.id != 0
    ensures var o := SubmitOutcome(rooms, roomTypes, d, created, now, saved);
      var room := FindRoom(rooms, d.roomId).value;
      var rate := MonthlyRate(FindRoomType(roomTypes, room.typeId), room);
      && o.effects[0] == Send(Request(Post, "/monthly-contracts", MonthlyPayload(d.roomId, c.id, d.form, rate)))
      && o.added.None?
      && (saved <==> o.closes)
  {
  }

  /** Creating a customer while booking posts the customer first, named by
      its phone number; a nonzero id from the back end adds it to the list,
      and the booking is then posted for that id. */
  lemma SubmitWithNewCustomer(rooms: seq<Room>, roomTypes: seq<RoomType>, d: Draft, id: int, now: int, saved: bool)
    requires Check(rooms, d).None? && d.selected.None? && id != 0
    ensures var o := SubmitOutcome(rooms, roomTypes, d, Some(id), now, saved);
      var c := NewCustomer(d.form, now, id);
      && c.fullName == d.form.customerPhone
      && o.effects[0] == Send(Request(Post, "/customers", CustomerPayload(c.(id := 0))))
      && o.added == Some(c)
      && o.effects[1] == Send(BookingRequest(roomTypes, d, FindRoom(rooms, d.roomId).value, id))
  {
    CreatedCustomerNamedByPhone(FindRoom(rooms, d.roomId), d.form, d.kind, now, id);
  }

  /** When the back end refuses to create the customer, the submission stops
      after the customer request with an error notice: no booking is sent,
      no customer is added and the dialog stays open. */
  lemma CustomerCreateFailureStops(rooms: seq<Room>, roomTypes: seq<RoomType>, d: Draft, now: int, saved: bool)
    requires Check(rooms, d).None? && d.selected.None?
    ensures SubmitOutcome(rooms, roomTypes, d, None, now, saved) ==
              Outcome([Send(Request(Post, "/customers", CustomerPayload(NewCustomer(d.form, now, 0)))),
                       Notify(Failure(CustomerCreateFailed))], None, false)
  {
  }

  /** The request that cancels an occupant: a delete of its own record. */
  function CancelRequest(o: Occupant): (r: Request)
    ensures r.verb == Delete && r.body == NoBody
    ensures o.DailyStay? ==> r.path == RecordPath("/daily-bookings", o.booking.id)
    ensures o.MonthlyLease? ==> r.path == RecordPath("/monthly-contracts", o.contract.id)
  {
    match o
    case DailyStay(b) => Request(Delete, RecordPath("/daily-bookings", b.id), NoBody)
    case MonthlyLease(c) => Request(Delete, RecordPath("/monthly-contracts", c.id), NoBody)
  }

  /** Cancelling two different records sends two different requests: two
      bookings, two contracts, or a booking and a contract (whose paths
      differ in their collection). */
  lemma CancelRequestsDistinct(a: Occupant, b: Occupant)
    ensures a.DailyStay? && b.DailyStay? && a.booking.id != b.booking.id ==> CancelRequest(a) != CancelRequest(b)
    ensures a.MonthlyLease? && b.MonthlyLease? && a.contract.id != b.contract.id ==> CancelRequest(a) != CancelRequest(b)
    ensures a.DailyStay? && b.MonthlyLease? ==> CancelRequest(a) != CancelRequest(b)
  {
    var pa, pb := CancelRequest(a).path, CancelRequest(b).path;
    if pa == pb {
      if a.DailyStay? && b.DailyStay? {
        RecordPathInjective("/daily-bookings", a.booking.id, b.booking.id);
      } else if a.MonthlyLease? && b.MonthlyLease? {
        RecordPathInjective("/monthly-contracts", a.contract.id, b.contract.id);
      }
    }
  }

  // ---------------------------------------------------------------------
  // The page

  /** The page's state, held in fields that its handlers update in place;
      the requests and notices it issues are appended to `effects`. */
  class CalendarPage {
    var customers: seq<Customer>
    var rooms: seq<Room>
    var roomTypes: seq<RoomType>
    var monthlyContracts: seq<MonthlyContract>
    var dailyBookings: seq<DailyBooking>
    var loading: bool
    var searchTerm: string
    var statusFilter: string
    var selectedMonth: int
    var selectedYear: nat
    var isBookingDialogOpen: bool
    var isCancelDialogOpen: bool
    var bookingType: BookingKind
    var selectedRoomId: int
    var selectedDate: int
    var selectedBookingData: Option<Occupant>
    var customerSearchTerm: string
    var showCustomerDropdown: bool
    var isCreatingNewCustomer: bool
    var selectedCustomer: Option<Customer>
    var bookingForm: BookingForm
    var effects: seq<Effect>

    /** The month selector only offers months 1 to 12. */
    ghost predicate Valid()
      reads this
    {
      1 <= selectedMonth <= 12
    }

    /** Mounting on the month and year of today, which are parameters here:
        nothing loaded, no filter, both dialogs closed, the form empty. */
    constructor (month: int, year: nat)
      requires 1 <= month <= 12
      ensures Valid() && selectedMonth == month && selectedYear == year
      ensures customers == [] && rooms == [] && roomTypes == [] && monthlyContracts == [] && dailyBookings == []
      ensures loading && searchTerm == "" && statusFilter == "all"
      ensures !isBookingDialogOpen && !isCancelDialogOpen && bookingType == Daily
      ensures selectedRoomId == 0 && selectedDate == 1 && selectedBookingData.None?
      ensures customerSearchTerm == "" && !showCustomerDropdown && !isCreatingNewCustomer && selectedCustomer.None?
      ensures bookingForm == EmptyForm && effects == []
    {
      customers, rooms, roomTypes, monthlyContracts, dailyBookings := [], [], [], [], [];
      loading := true;
      searchTerm, statusFilter := "", "all";
      selectedMonth, selectedYear := month, year;
      isBookingDialogOpen, isCancelDialogOpen := false, false;
      bookingType := Daily;
      selectedRoomId, selectedDate := 0, 1;
      selectedBookingData := None;
      customerSearchTerm := "";
      showCustomerDropdown, isCreatingNewCustomer := false, false;
      selectedCustomer := None;
      bookingForm := EmptyForm;
      effects := [];
    }

    /** The rooms the page lists now. */
    function ShownRooms(): (r: seq<Room>)
      reads this
      ensures multiset(r) == multiset(MatchingRooms(rooms, searchTerm, statusFilter))
      ensures SortedBy(r, DisplayedBefore)
    {
      DisplayedRooms(rooms, searchTerm, statusFilter)
    }

    /** The five lists arrived: they replace the old ones and loading ends. */
    method Loaded(cs: seq<Customer>, rs: seq<Room>, ts: seq<RoomType>,
                  contracts: seq<MonthlyContract>, bookings: seq<DailyBooking>)
      modifies this`customers, this`rooms, this`roomTypes, this`monthlyContracts, this`dailyBookings, this`loading
      ensures customers == cs && rooms == rs && roomTypes == ts
      ensures monthlyContracts == contracts && dailyBookings == bookings && !loading
    {
      customers, rooms, roomTypes := cs, rs, ts;
      monthlyContracts, dailyBookings := contracts, bookings;
      loading := false;
    }

    /** Loading failed: an error notice, and loading ends with the old lists. */
    method LoadFailedNotice()
      modifies this`effects, this`loading
      ensures effects == old(effects) + [Notify(Failure(LoadFailed))] && !loading
    {
      effects := effects + [Notify(Failure(LoadFailed))];
      loading := false;
    }

    /** Clicking cell (`roomId`, `day`). An occupied cell selects its occupant
        and opens the cancel dialog, and leaves the booking form as it was; a
        free cell selects the room and day, clears the customer choice and
        opens the booking form seeded with the cell's date. */
    method HandleCellClick(roomId: int, day: int)
      requires Valid() && 1 <= day
      modifies this`selectedBookingData, this`isCancelDialogOpen, this`selectedRoomId, this`selectedDate,
               this`customerSearchTerm, this`showCustomerDropdown, this`isCreatingNewCustomer,
               this`selectedCustomer, this`bookingForm, this`isBookingDialogOpen
      ensures old(CellOccupant(dailyBookings, monthlyContracts, roomId, CellDate(selectedYear, selectedMonth, day))).Some? ==>
          && selectedBookingData == old(CellOccupant(dailyBookings, monthlyContracts, roomId,
                                                     CellDate(selectedYear, selectedMonth, day)))
          && isCancelDialogOpen
          && unchanged(this`selectedRoomId, this`selectedDate, this`customerSearchTerm, this`showCustomerDropdown,
                       this`isCreatingNewCustomer, this`selectedCustomer, this`bookingForm, this`isBookingDialogOpen)
      ensures old(CellOccupant(dailyBookings, monthlyContracts, roomId, CellDate(selectedYear, selectedMonth, day))).None? ==>
          && unchanged(this`selectedBookingData, this`isCancelDialogOpen)
          && selectedRoomId == roomId && selectedDate == day
          && customerSearchTerm == "" && !showCustomerDropdown && !isCreatingNewCustomer && selectedCustomer.None?
          && bookingForm == old(SeededForm(selectedYear, selectedMonth, day)) && isBookingDialogOpen
    {
      var occupant := CellOccupant(dailyBookings, monthlyContracts, roomId,
                                   CellDate(selectedYear, selectedMonth, day));
      if occupant.Some? {
        OpenCancelDialog(occupant.value);
      } else {
        OpenBookingForm(roomId, day);
      }
    }

    /** The occupied-cell half of a click: the occupant is selected and the
        cancel dialog opens. */
    method OpenCancelDialog(occupant: Occupant)
      modifies this`selectedBookingData, this`isCancelDialogOpen
      ensures selectedBookingData == Some(occupant) && isCancelDialogOpen
    {
      selectedBookingData := Some(occupant);
      isCancelDialogOpen := true;
    }

    /** The free-cell half of a click: the room and day are selected, the
        customer choice is cleared, and the form opens on the cell's date. */
    method OpenBookingForm(roomId: int, day: int)
      requires Valid() && 1 <= day
      modifies this`selectedRoomId, this`selectedDate, this`customerSearchTerm, this`showCustomerDropdown,
               this`isCreatingNewCustomer, this`selectedCustomer, this`bookingForm, this`isBookingDialogOpen
      ensures selectedRoomId == roomId && selectedDate == day
      ensures customerSearchTerm == "" && !showCustomerDropdown && !isCreatingNewCustomer && selectedCustomer.None?
      ensures bookingForm == old(SeededForm(selectedYear, selectedMonth, day)) && isBookingDialogOpen
    {
      bookingForm := SeededForm(selectedYear, selectedMonth, day);
      selectedRoomId, selectedDate := roomId, day;
      customerSearchTerm, showCustomerDropdown := "", false;
      isCreatingNewCustomer, selectedCustomer := false, None;
      isBookingDialogOpen := true;
    }

    /** Choosing a customer in the picker: its contact fields are copied into
        the form, whose other fields stay as they were. */
    method HandleSelectCustomer(c: Customer)
      modifies this`selectedCustomer, this`bookingForm, this`customerSearchTerm, this`showCustomerDropdown
      ensures selectedCustomer == Some(c)
      ensures bookingForm == old(bookingForm).(customerId := c.id, customerPhone := c.phone,
                                               citizenId := c.citizenId, address := c.address,
                                               carLicense := c.carLicense)
      ensures customerSearchTerm == "" && !showCustomerDropdown
    {
      selectedCustomer := Some(c);
      bookingForm := bookingForm.(customerId := c.id, customerPhone := c.phone, citizenId := c.citizenId,
                                  address := c.address, carLicense := c.carLicense);
      customerSearchTerm := "";
      showCustomerDropdown := false;
    }

    /** Switching to a new customer: any chosen one is dropped and the
        customer fields of the form are cleared. */
    method HandleCreateNewCustomer()
      modifies this`isCreatingNewCustomer, this`selectedCustomer, this`bookingForm, this`showCustomerDropdown
      ensures isCreatingNewCustomer && selectedCustomer.None? && !showCustomerDropdown
      ensures bookingForm == old(bookingForm).(customerId := 0, customerPhone := "", citizenId := "",
                                               address := "", carLicense := "")
    {
      isCreatingNewCustomer := true;
      selectedCustomer := None;
      bookingForm := bookingForm.(customerId := 0, customerPhone := "", citizenId := "", address := "", carLicense := "");
      showCustomerDropdown := false;
    }

    /** Submitting the booking form: the effects of `SubmitOutcome` are
        issued, a created customer is pushed onto `customers` in place, and a
        saved booking closes the dialog. */
    method HandleBooking(created: Option<int>, now: int, saved: bool)
      modifies this`effects, this`customers, this`isBookingDialogOpen
      ensures var o := old(SubmitOutcome(rooms, roomTypes,
                                         Draft(selectedRoomId, bookingType, selectedCustomer, isCreatingNewCustomer, bookingForm),
                                         created, now, saved));
        && effects == old(effects) + o.effects
        && customers == old(customers) + (if o.added.Some? then [o.added.value] else [])
        && isBookingDialogOpen == (old(isBookingDialogOpen) && !o.closes)
    {
      var d := Draft(selectedRoomId, bookingType, selectedCustomer, isCreatingNewCustomer, bookingForm);
      var room := FindRoom(rooms, d.roomId);
      var rejection := Validate(room, d.selected, d.creatingNew, d.form, d.kind);
      var types := roomTypes;
      ghost var o := SubmitOutcome(rooms, types, d, created, now, saved);
      // the effects of this submission, issued together at the end
      var issued: seq<Effect>;
      if rejection.Some? {
        issued := RejectionNotices(rejection.value);
      } else {
        var customerId: int := 0;
        var customerKnown := true;
        issued := [];
        if d.selected.Some? {
          customerId := d.selected.value.id;
        } else {
          issued := [Send(Request(Post, "/customers", CustomerPayload(NewCustomer(d.form, now, 0))))];
          if created.None? {
            issued := issued + [Notify(Failure(CustomerCreateFailed))];
            customerKnown := false;
          } else {
            customerId := created.value;
            if customerId != 0 {
              customers := customers + [NewCustomer(d.form, now, customerId)];
            }
          }
        }
        if !customerKnown {
        } else if customerId == 0 {
          issued := issued + [Notify(Failure(CustomerMissing))];
        } else {
          var request := BookingRequest(types, d, room.value, customerId);
          if saved {
            issued := issued + [Send(request), Notify(Success(if d.kind == Daily then DailyBooked else ContractCreated)), Reload];
            isBookingDialogOpen := false;
          } else {
            issued := issued + [Send(request), Notify(Failure(BookingFailed))];
          }
        }
      }
      assert issued == o.effects;
      effects := effects + issued;
    }

    /** Confirming the cancel dialog: with nothing selected nothing happens;
        otherwise the occupant's record is deleted, and when that succeeds the
        dialog closes, the selection is cleared and the lists reload. */
    method HandleCancelBooking(deleted: bool)
      modifies this`effects, this`isCancelDialogOpen, this`selectedBookingData
      ensures old(selectedBookingData).None? ==> unchanged(this)
      ensures old(selectedBookingData).Some? ==>
        var o := old(selectedBookingData).value;
        var done := if o.DailyStay? then DailyCancelled else ContractCancelled;
        if deleted then
          && effects == old(effects) + [Send(CancelRequest(o)), Notify(Success(done)), Reload]
          && !isCancelDialogOpen && selectedBookingData.None?
        else
          && effects == old(effects) + [Send(CancelRequest(o)), Notify(Failure(CancelFailed))]
          && unchanged(this`isCancelDialogOpen, this`selectedBookingData)
    {
      var occupant := selectedBookingData;
      if occupant.None? {
        return;
      }
      var request := CancelRequest(occupant.value);
      var done := if occupant.value.DailyStay? then DailyCancelled else ContractCancelled;
      if deleted {
        effects := effects + [Send(request), Notify(Success(done)), Reload];
        isCancelDialogOpen := false;
        selectedBookingData := None;
      } else {
        effects := effects + [Send(request), Notify(Failure(CancelFailed))];
      }
    }
  }
}

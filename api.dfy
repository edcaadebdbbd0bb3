/** The requests the pages hand to the HTTP client. A request is a value:
    the model records that it was issued, never what the server does with it. */
module Api {
  import opened Wrappers
  import opened Text

  /** A JSON value of a field that is not always a number or a string.
      `JSON.stringify` writes a `NaN` number as `null`, which is `JNull`. */
  datatype Json = JStr(s: string) | JNum(n: int) | JNull

  /** The object literals the pages send, one constructor per literal; its
      fields are the literal's keys, in the order the literal writes them. */
  datatype Body =
    | NoBody
    | DailyBookingBody(roomId: int, customerId: int, checkInDate: string, checkOutDate: string,
                       numGuests: int, extraBedCount: int, totalAmount: Json,
                       bookingStatus: string, paymentStatus: string, currentStatus: string)
    | ContractBody(roomId: int, customerId: int, startDate: string, endDate: Json,
                   depositAmount: int, advancePayment: int, monthlyRentRate: int,
                   contractStatus: string, currentStatus: string)
    | CustomerBody(fullName: string, citizenId: string, address: string, phone: string, carLicense: string)
    | BookingStatusBody(bookingStatus: string)
    | ContractStatusBody(contractStatus: string)
    | UserUpdateBody(fullName: string, email: string, phone: string, role: string)
    | UserCreateBody(username: string, password: string, fullName: string, email: string,
                     phone: string, role: string)

  /** A notice a page shows after a request: that an action, named by a
      value of `M`, succeeded or failed. */
  datatype Toast<M> = Success(message: M) | Failure(message: M)

  datatype Verb = Get | Post | Put | Delete

  /** `api.<verb>(path, body)`; a request without a body has `NoBody`. */
  datatype Request = Request(verb: Verb, path: string, body: Body)

  /** The path of one record: `` `${collection}/${id}` ``. */
  function RecordPath(collection: string, id: int): (p: string)
    ensures |p| > |collection| + 1
    ensures p[..|collection|] == collection && p[|collection|] == '/'
    ensures ParseInt(p[|collection| + 1..]) == Some(id)
  {
    var p := collection + "/" + IntToString(id);
    assert p[..|collection|] == collection;
    assert p[|collection| + 1..] == IntToString(id);
    IntToStringRoundTrip(id);
    p
  }

  /** Different records of one collection have different paths. */
  lemma RecordPathInjective(collection: string, i: int, j: int)
    requires RecordPath(collection, i) == RecordPath(collection, j)
    ensures i == j
  {
    var p := RecordPath(collection, i);
    assert ParseInt(p[|collection| + 1..]) == Some(i);
    assert ParseInt(p[|collection| + 1..]) == Some(j);
  }
}

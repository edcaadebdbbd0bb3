/** The customer management page: the add and edit forms, the checks a
    save passes before its request, the search over customers, and the
    confirmed deletion. */
module CustomerManagement {
  import opened Wrappers
  import opened Text
  import opened Seqs
  import opened Api
  import opened Entities

  // ---------------------------------------------------------------------
  // The form

  /** The customer form's fields, as the inputs hold them. */
  datatype CustomerForm = CustomerForm(fullName: string, citizenId: string, address: string,
                                       phone: string, carLicense: string)

  /** The form the add button opens: every field empty. */
  const BlankForm: CustomerForm := CustomerForm("", "", "", "", "")

  /** The form the edit button opens: the customer's own details. */
  function EditForm(c: Customer): (f: CustomerForm)
    ensures f.fullName == c.fullName && f.citizenId == c.citizenId && f.address == c.address
    ensures f.phone == c.phone && f.carLicense == c.carLicense
  {
    CustomerForm(c.fullName, c.citizenId, c.address, c.phone, c.carLicense)
  }

  /** The body a save sends: the form itself, untrimmed. */
  function FormBody(f: CustomerForm): Body
  {
    CustomerBody(f.fullName, f.citizenId, f.address, f.phone, f.carLicense)
  }

  // ---------------------------------------------------------------------
  // Saving

  /** Why a save was refused: a blank name, or a blank phone number. */
  datatype Warning = MissingName | MissingPhone

  /** What a save does: refuse with a warning, send a request, or nothing
      (an edit with no customer chosen). */
  datatype SaveOutcome = Rejected(warning: Warning) | Issued(request: Request) | NoRequest

  /** Saving the form: the name must not be blank, then the phone must not
      be blank; then the add form creates a customer and the edit form
      updates the chosen one. */
  function Save(form: CustomerForm, isAddMode: bool, selected: Option<Customer>): (o: SaveOutcome)
    ensures IsBlank(form.fullName) ==> o == Rejected(MissingName)
    ensures !IsBlank(form.fullName) && IsBlank(form.phone) ==> o == Rejected(MissingPhone)
    ensures o.Rejected? <==> IsBlank(form.fullName) || IsBlank(form.phone)
    ensures o.Issued? ==> o.request.body == CustomerBody(form.fullName, form.citizenId, form.address,
                                                         form.phone, form.carLicense)
    ensures o.Issued? && isAddMode ==> o.request.verb == Post && o.request.path == "/customers"
    ensures o.Issued? && !isAddMode ==>
              selected.Some? && o.request.verb == Put
              && o.request.path == RecordPath("/customers", selected.value.id)
    ensures o == NoRequest <==> !o.Rejected? && !isAddMode && selected.None?
  {
    if IsBlank(form.fullName) then Rejected(MissingName)
    else if IsBlank(form.phone) then Rejected(MissingPhone)
    else if isAddMode then Issued(Request(Post, "/customers", FormBody(form)))
    else match selected
      case Some(c) => Issued(Request(Put, RecordPath("/customers", c.id), FormBody(form)))
      case None => NoRequest
  }

  /** Saving the add form as it opens is refused for its blank name: a
      customer is never created without a name. */
  lemma BlankFormIsRejected(isAddMode: bool, selected: Option<Customer>)
    ensures Save(BlankForm, isAddMode, selected) == Rejected(MissingName)
  {
    BlankIffAllWhitespace("");
  }

  /** A name of spaces only is blank too: it is refused like an empty one. */
  lemma SpacesAreBlank(form: CustomerForm, n: nat)
    requires n > 0 && form.fullName == seq(n, _ => ' ')
    ensures Save(form, true, None) == Rejected(MissingName)
  {
    BlankIffAllWhitespace(form.fullName);
    assert forall i :: 0 <= i < |form.fullName| ==> IsJsWhitespace(form.fullName[i]);
  }

  /** Saving the edit form of a customer, unchanged, writes the customer's
      own details back to that customer's record. */
  lemma EditUnchangedWritesBack(c: Customer)
    requires !IsBlank(c.fullName) && !IsBlank(c.phone)
    ensures Save(EditForm(c), false, Some(c)) ==
              Issued(Request(Put, RecordPath("/customers", c.id),
                             CustomerBody(c.fullName, c.citizenId, c.address, c.phone, c.carLicense)))
  {
  }

  // ---------------------------------------------------------------------
  // Searching

  /** A customer matches the search when the lower-cased name contains the
      lower-cased term, or the citizen id or the phone number, as stored,
      contains the lower-cased term. */
  predicate CustomerMatches(c: Customer, searchTerm: string)
  {
    var term := ToLower(searchTerm);
    Includes(ToLower(c.fullName), term) || Includes(c.citizenId, term) || Includes(c.phone, term)
  }

  /** The customers the list shows, in their order. */
  function FilteredCustomers(customers: seq<Customer>, searchTerm: string): (r: seq<Customer>)
    ensures forall c :: c in r <==> c in customers && CustomerMatches(c, searchTerm)
    ensures IsSubsequence(r, customers)
    ensures forall c :: multiset(r)[c] == if CustomerMatches(c, searchTerm) then multiset(customers)[c] else 0
  {
    var p := (c: Customer) => CustomerMatches(c, searchTerm);
    FilterIsSubsequence(customers, p);
    FilterCounts(customers, p);
    Filter(customers, p)
  }

  /** An empty search lists every customer, in order. */
  lemma EmptySearchKeepsAll(customers: seq<Customer>)
    ensures FilteredCustomers(customers, "") == customers
  {
    forall i | 0 <= i < |customers|
      ensures CustomerMatches(customers[i], "")
    {
      IncludesEmpty(ToLower(customers[i].fullName));
    }
    FilterKeepsAll(customers, (c: Customer) => CustomerMatches(c, ""));
  }

  /** The search ignores the case of the term: a term and its lower-cased
      form list the same customers. */
  lemma SearchIgnoresTermCase(customers: seq<Customer>, searchTerm: string)
    ensures FilteredCustomers(customers, searchTerm) == FilteredCustomers(customers, ToLower(searchTerm))
  {
    ToLowerIdempotent(searchTerm);
    FilterAgree(customers, (c: Customer) => CustomerMatches(c, searchTerm),
                (c: Customer) => CustomerMatches(c, ToLower(searchTerm)));
  }

  // ---------------------------------------------------------------------
  // Deleting

  /** The deletion dialog: whether it is open and the customer it is for. */
  datatype DeleteConfirm = DeleteConfirm(isOpen: bool, customerId: Option<int>)

  /** The delete button of a customer opens the dialog for that customer. */
  function OpenDelete(customerId: int): (d: DeleteConfirm)
    ensures d.isOpen && d.customerId == Some(customerId)
  {
    DeleteConfirm(true, Some(customerId))
  }

  /** The action a deletion notice reports on. */
  datatype Action = Deletion

  /** Confirming the deletion: the request sent, the dialog after it,
      whether the list reloads, and the notice shown. */
  datatype DeleteResult = DeleteResult(request: Option<Request>, dialog: DeleteConfirm, reload: bool,
                                       notice: Option<Toast<Action>>)

  /** With no customer id (missing or 0) nothing happens and the dialog is
      left as it is. Otherwise the customer's record is deleted; when that
      succeeds (`deleted`) a success notice shows and the list reloads, when
      it fails an error notice shows; either way the dialog closes. */
  function ConfirmDelete(d: DeleteConfirm, deleted: bool): (r: DeleteResult)
    ensures r.request.None? <==> d.customerId.None? || d.customerId.value == 0
    ensures r.request.None? ==> r.dialog == d && !r.reload && r.notice.None?
    ensures r.request.Some? ==>
              && r.request.value == Request(Delete, RecordPath("/customers", d.customerId.value), NoBody)
              && r.dialog == DeleteConfirm(false, None)
              && (r.reload <==> deleted)
              && r.notice == Some(if deleted then Success(Deletion) else Failure(Deletion))
  {
    match d.customerId
    case None => DeleteResult(None, d, false, None)
    case Some(id) =>
      if id == 0 then DeleteResult(None, d, false, None)
      else
        var request := Request(Delete, RecordPath("/customers", id), NoBody);
        DeleteResult(Some(request), DeleteConfirm(false, None), deleted,
                     Some(if deleted then Success(Deletion) else Failure(Deletion)))
  }

  /** Confirming deletes exactly the customer whose button opened the
      dialog, and a customer with id 0 is never deleted. */
  lemma DeleteTargetsCustomer(id: int, other: int, deleted: bool)
    requires other != id
    ensures id != 0 ==> ConfirmDelete(OpenDelete(id), deleted).request.value.path != RecordPath("/customers", other)
    ensures ConfirmDelete(OpenDelete(0), deleted).request.None?
  {
    if id != 0 && RecordPath("/customers", id) == RecordPath("/customers", other) {
      RecordPathInjective("/customers", id, other);
    }
  }
}

/** The user management page: the search over system users, the user form
    with its defaults, the create and update requests the form sends, and
    the confirmed deletion. */
module UserManagement {
  import opened Wrappers
  import opened Text
  import opened Seqs
  import opened Api
  import opened Entities

  // ---------------------------------------------------------------------
  // Searching

  /** A user matches the query when the lower-cased full name or the
      lower-cased email contains the lower-cased query. */
  predicate UserMatches(u: SystemUser, query: string)
  {
    var q := ToLower(query);
    Includes(ToLower(u.fullName), q) || Includes(ToLower(u.email), q)
  }

  /** The users the table shows, in their order. */
  function FilteredUsers(users: seq<SystemUser>, query: string): (r: seq<SystemUser>)
    ensures forall u :: u in r <==> u in users && UserMatches(u, query)
    ensures IsSubsequence(r, users)
    ensures forall u :: multiset(r)[u] == if UserMatches(u, query) then multiset(users)[u] else 0
  {
    var p := (u: SystemUser) => UserMatches(u, query);
    FilterIsSubsequence(users, p);
    FilterCounts(users, p);
    Filter(users, p)
  }

  /** An empty query lists every user, in order. */
  lemma EmptyQueryKeepsAll(users: seq<SystemUser>)
    ensures FilteredUsers(users, "") == users
  {
    forall i | 0 <= i < |users|
      ensures UserMatches(users[i], "")
    {
      IncludesEmpty(ToLower(users[i].fullName));
    }
    FilterKeepsAll(users, (u: SystemUser) => UserMatches(u, ""));
  }

  /** The search ignores case on both sides: the query and its lower-cased
      form list the same users, and so do a user's name and email as typed
      and lower-cased. */
  lemma SearchIgnoresCase(users: seq<SystemUser>, query: string, u: SystemUser)
    ensures FilteredUsers(users, query) == FilteredUsers(users, ToLower(query))
    ensures UserMatches(u, query) <==>
              UserMatches(u.(fullName := ToLower(u.fullName), email := ToLower(u.email)), query)
  {
    ToLowerIdempotent(query);
    ToLowerIdempotent(u.fullName);
    ToLowerIdempotent(u.email);
    FilterAgree(users, (x: SystemUser) => UserMatches(x, query),
                (x: SystemUser) => UserMatches(x, ToLower(query)));
  }

  // ---------------------------------------------------------------------
  // The user form

  /** The user form's fields. */
  datatype UserForm = UserForm(username: string, fullName: string, email: string, phone: string,
                               password: string, role: Role)

  /** The form as it opens: the user's details when editing, with an empty
      password; every text empty and the STAFF role when adding. */
  function InitialForm(user: Option<SystemUser>): (f: UserForm)
    ensures f.password == ""
    ensures user.None? ==> f == UserForm("", "", "", "", "", Staff) && RoleName(f.role) == "STAFF"
    ensures user.Some? ==>
              && f.username == user.value.username && f.fullName == user.value.fullName
              && f.email == user.value.email && f.phone == user.value.phone
              && f.role == user.value.role
  {
    match user
    case None => UserForm("", "", "", "", "", Staff)
    case Some(u) => UserForm(u.username, u.fullName, u.email, u.phone, "", u.role)
  }

  /** What submitting does: refuse a new user without a password, or send a
      request. */
  datatype SubmitOutcome = MissingPassword | Issued(request: Request)

  /** Submitting the form. Editing a user sends only the name, email, phone
      and role to that user's record. Adding a user needs a password; with
      one, the username, password, name, email, phone and role are posted. */
  function Submit(form: UserForm, user: Option<SystemUser>): (o: SubmitOutcome)
    ensures o == MissingPassword <==> user.None? && form.password == ""
    ensures user.Some? ==>
              o == Issued(Request(Put, RecordPath("/users", user.value.id),
                                  UserUpdateBody(form.fullName, form.email, form.phone, RoleName(form.role))))
    ensures user.None? && form.password != "" ==>
              o == Issued(Request(Post, "/users",
                                  UserCreateBody(form.username, form.password, form.fullName, form.email,
                                                 form.phone, RoleName(form.role))))
  {
    match user
    case Some(u) =>
      Issued(Request(Put, RecordPath("/users", u.id),
                     UserUpdateBody(form.fullName, form.email, form.phone, RoleName(form.role))))
    case None =>
      if form.password == "" then MissingPassword
      else Issued(Request(Post, "/users",
                          UserCreateBody(form.username, form.password, form.fullName, form.email,
                                         form.phone, RoleName(form.role))))
  }

  /** An update never carries the password or the username: whatever they
      hold, the same request goes out. */
  lemma UpdateIgnoresPasswordAndUsername(form: UserForm, user: SystemUser, password: string, username: string)
    ensures Submit(form.(password := password, username := username), Some(user)) == Submit(form, Some(user))
    ensures Submit(form, Some(user)).request.body.UserUpdateBody?
  {
  }

  /** The new-user form as it opens is refused for its empty password, so
      no user is created without one. */
  lemma NewFormNeedsPassword()
    ensures Submit(InitialForm(None), None) == MissingPassword
  {
  }

  /** Submitting the edit form of a user unchanged writes the user's own
      name, email, phone and role back to that user's record. */
  lemma EditUnchangedWritesBack(u: SystemUser)
    ensures Submit(InitialForm(Some(u)), Some(u)) ==
              Issued(Request(Put, RecordPath("/users", u.id),
                             UserUpdateBody(u.fullName, u.email, u.phone, RoleName(u.role))))
  {
  }

  /** Two users are never updated by the same request. */
  lemma UpdateTargetsUser(form: UserForm, u: SystemUser, v: SystemUser)
    requires u.id != v.id
    ensures Submit(form, Some(u)) != Submit(form, Some(v))
  {
    if RecordPath("/users", u.id) == RecordPath("/users", v.id) {
      RecordPathInjective("/users", u.id, v.id);
    }
  }

  // ---------------------------------------------------------------------
  // Deleting

  /** The action a deletion alert reports on. */
  datatype Action = Deletion

  /** What deleting does: the request, whether the list reloads, and the
      alert shown. */
  datatype DeleteOutcome = DeleteOutcome(request: Option<Request>, reload: bool, alert: Option<Toast<Action>>)

  /** Deleting a user after the browser's confirmation (`confirmed`): the
      user's record is deleted; when that succeeds (`deleted`) a success
      alert shows and the list reloads, otherwise an error alert shows.
      Without the confirmation nothing happens. */
  function DeleteUser(u: SystemUser, confirmed: bool, deleted: bool): (r: DeleteOutcome)
    ensures r.request.Some? <==> confirmed
    ensures r.request.Some? ==> r.request.value == Request(Delete, RecordPath("/users", u.id), NoBody)
    ensures r.reload <==> confirmed && deleted
    ensures r.alert.Some? <==> confirmed
    ensures r.alert.Some? ==> r.alert == Some(if deleted then Success(Deletion) else Failure(Deletion))
  {
    if !confirmed then DeleteOutcome(None, false, None)
    else DeleteOutcome(Some(Request(Delete, RecordPath("/users", u.id), NoBody)), deleted,
                       Some(if deleted then Success(Deletion) else Failure(Deletion)))
  }
}

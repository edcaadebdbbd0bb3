# Apartment back office: occupancy, validation and list logic

This project models the in-memory logic of six pages of an apartment back-office web client, written as React pages:

- **room calendar**: a month of days across the listed rooms. Each cell is occupied by a daily booking or an active monthly contract, or is free. Clicking a free cell opens a booking form. Submitting the form runs a chain of guards, optionally creates the customer, and posts a daily booking or a monthly contract. Clicking an occupied cell opens a cancel dialog.
- **daily rental**: the day bookings split into pending, stayed and checked-out lists, the day count of a stay, and the check-in and check-out confirmations.
- **contract management**: contracts split into pending and active ones, approval, cancellation, and what a pending row shows.
- **room management**: the room filter, the grouping of rooms by floor, the order of the floors, the status colours and labels, and the edit form.
- **customer management**: the save guards, the customer search, and the guarded deletion.
- **user management**: the user search, the form defaults, the create and update payloads, and the password guard.

## How the model is built

- Records are datatypes (`Entities`).
- Dates are day ordinals in the proleptic Gregorian calendar (`CalendarDates`).
- The JavaScript string and number operations the pages use are written out in `Text`: `includes`, ASCII `toLowerCase`, `trim`, `String(n)`, `padStart`, `Number(s) || x`, `parseInt(s) || 0`, and `localeCompare` as code-point order.
- The list operations are written out in `Seqs`: `filter`, `find`, and an insertion sort.
- Requests to the back end are values (`Api.Request`). Each body is one constructor of `Api.Body`, with the object literal's keys as its fields.
- The outcome of a request (success, the id a new record gets) is an input.
- The room calendar keeps its state in the fields of the class `RoomCalendar.CalendarPage`. Its handlers update those fields in place and append the requests and notices they issue to `effects`.
- Each handler is proved to do what the pure functions beside it decide.
- The room management grouping is a method with a loop, because the original `reduce` pushes onto its accumulator in place. It is proved against the specification function `OnFloor`.
- The other pages are pure functions over their inputs.

## Model

| member | source | states |
|---|---|---|
| Entities.StatusNamesDistinct | src/pages/RoomManagement.tsx:37-51 | the five room states have five different names, none of them the filter's "all" |
| Entities.FindRoom | src/pages/RoomCalendar.tsx:279 | the lookup is empty exactly when no room has the id; otherwise it is the first listed room with that id |
| Entities.FindCustomer | src/pages/DailyRental.tsx:147-149 | the lookup is empty exactly when no customer has the id; otherwise it is the first listed customer with that id |
| Entities.FindRoomType | src/pages/RoomCalendar.tsx:174-176 | the lookup is empty exactly when no type has the id; otherwise it is the first listed type with that id |
| Entities.FindRoomUnique | src/pages/DailyRental.tsx:143-145 | with unique ids, the lookup by a room's id returns that room |
| Entities.MatchingRooms | src/pages/RoomManagement.tsx:169-173 | a room is kept iff its number contains the search and its status passes the filter; every copy of a kept room stays, none of a dropped one; the kept rooms keep their order |
| Entities.MatchingRoomsKeepsAll | src/pages/RoomManagement.tsx:169-173 | an empty search with "all" keeps every room, in order |
| Entities.MatchingRoomsByStatus | src/pages/RoomCalendar.tsx:162-167 | a specific status filter keeps only rooms in that state whose number contains the search |
| CalendarDates.DaysInMonth | src/pages/RoomCalendar.tsx:158 | a month has 28 to 31 days |
| CalendarDates.LastDayOfMonth | src/pages/RoomCalendar.tsx:158 | day 0 of the next month is the last day of this one |
| CalendarDates.MonthsFillYear | src/pages/RoomCalendar.tsx:158 | the twelve month lengths add up to the year's length |
| CalendarDates.MonthDays | src/pages/RoomCalendar.tsx:159 | the columns are exactly the valid days of the month, ascending, one per day |
| CalendarDates.MonthDaysConsecutive | src/pages/RoomCalendar.tsx:159 | neighbouring columns are neighbouring dates |
| CalendarDates.IsoDateRoundTrip | src/pages/RoomCalendar.tsx:230 | a date written as `YYYY-MM-DD` parses back to the same date |
| CalendarDates.EmptyIsNotADate | src/pages/RoomCalendar.tsx:304-305 | an empty date input does not parse to a date |
| CalendarDates.InclusiveDayCountIsCeiling | src/pages/DailyRental.tsx:159-162 | the day count is the ceiling of the elapsed days, plus one |
| CalendarDates.InclusiveDayCountOfDates | src/pages/RoomCalendar.tsx:358-362 | between two midnights the count is end − start + 1 |
| Text.IncludesIff | src/pages/RoomCalendar.tsx:165 | `includes` holds iff the text occurs at some position |
| Text.IncludesEmpty | src/pages/RoomCalendar.tsx:165 | every string includes the empty string |
| Text.BlankIffAllWhitespace | src/pages/RoomCalendar.tsx:288 | `trim()` is empty iff every character is whitespace |
| Text.ToLowerIdempotent | src/pages/UserManagement.tsx:51-55 | lower-casing twice is lower-casing once |
| Text.LexLessTotal | src/pages/RoomCalendar.tsx:170 | of two different room numbers, one sorts first |
| Text.LexLessTransitive | src/pages/RoomCalendar.tsx:170 | the room-number order is transitive |
| Text.PadStart2RoundTrip | src/pages/RoomCalendar.tsx:230 | a month or day below 100, padded to two digits, reads back as itself |
| Text.NumberOr | src/pages/RoomCalendar.tsx:371-373 | `x \|\| fallback` keeps a present nonzero number and otherwise gives the fallback |
| Text.NumberValueOfString | src/pages/RoomCalendar.tsx:371 | `Number` of an integer's text is that integer |
| Text.ParseIntOrZeroOfString | src/pages/RoomManagement.tsx:225-226 | `parseInt(String(n)) \|\| 0` is n |
| Text.IntToStringRoundTrip | src/pages/RoomManagement.tsx:116 | an integer's text parses back to it |
| Seqs.SortBySorted | src/pages/RoomCalendar.tsx:169-172 | the sort returns a sorted list under a strict weak order |
| Seqs.SortBy | src/pages/RoomCalendar.tsx:169-172 | the sort returns a permutation of its input |
| Seqs.FilterAppend | src/pages/RoomManagement.tsx:169 | filtering a concatenation is the concatenation of the filters |
| Occupancy.CellOccupant | src/pages/RoomCalendar.tsx:179-210 | an occupant is a listed booking or contract that covers the cell; which one wins is stated by CellOccupantSpec |
| Occupancy.CellOccupantSpec | src/pages/RoomCalendar.tsx:179-210 | a cell is free iff no booking and no active contract covers it; a covering booking wins and is the first such in list order; otherwise the occupant is the first covering contract |
| Occupancy.SingleDayStay | src/pages/RoomCalendar.tsx:183-188 | a stay with check-in equal to check-out covers exactly that day |
| Occupancy.AnyBookingStatusOccupies | src/pages/RoomCalendar.tsx:183-188 | a booking occupies its days whatever its status, cancelled or checked out included |
| Occupancy.OpenEndedContract | src/pages/RoomCalendar.tsx:195-203 | an active contract without an end date occupies its room from its start through 31 December 2099 |
| Occupancy.InactiveContractIgnored | src/pages/RoomCalendar.tsx:196-197 | a contract that is not ACTIVE never changes any cell: adding one changes nothing, and dropping every non-ACTIVE contract changes nothing |
| Occupancy.OnlyOwnRoomCounts | src/pages/RoomCalendar.tsx:184 | records of other rooms never change a room's cells |
| RoomCalendar.DisplayOrderIsStrictWeak | src/pages/RoomCalendar.tsx:169-172 | the comparator (floor descending, then room number) is a strict weak order |
| RoomCalendar.DisplayedRooms | src/pages/RoomCalendar.tsx:162-172 | the listed rooms are a permutation of the filtered rooms, and sorted |
| RoomCalendar.DisplayedRoomsOrder | src/pages/RoomCalendar.tsx:169-172 | reading down, floors never go up, and on one floor room numbers go up |
| RoomCalendar.PickerCustomers | src/pages/RoomCalendar.tsx:95-98 | a customer is offered iff the lower-cased name contains the lower-cased text or the phone contains the text; every copy of an offered customer stays; order kept |
| RoomCalendar.PickerOffersAllWhenEmpty | src/pages/RoomCalendar.tsx:95-98 | before anything is typed every customer is offered, in order |
| RoomCalendar.SeededFormDate | src/pages/RoomCalendar.tsx:229-243 | a free cell's form is empty but for the start date, which parses back to the cell's date |
| RoomCalendar.ValidateAccepts | src/pages/RoomCalendar.tsx:279-310 | a submission passes iff the room exists, a customer is chosen or created with a non-blank phone, a start date is given, and a daily booking has an end not before its start |
| RoomCalendar.AcceptedDailyRange | src/pages/RoomCalendar.tsx:303-310 | an accepted daily booking whose dates parse has end ≥ start |
| RoomCalendar.CustomerCheckedFirst | src/pages/RoomCalendar.tsx:283-286 | with no customer, the rejection names the customer, whatever the form holds |
| RoomCalendar.Validate | src/pages/RoomCalendar.tsx:279-310 | the guards run in order (room, customer, phone of a new customer, start date, then for a daily booking the end date and the range) and each rejection is reported iff its guard fails after every earlier one passed; a monthly draft is never refused for its end date |
| RoomCalendar.RateOr | src/pages/RoomCalendar.tsx:364 | a missing or zero rate falls back |
| RoomCalendar.DailyRate | src/pages/RoomCalendar.tsx:364 | the type's daily rate, else the room's, else 0 |
| RoomCalendar.MonthlyRate | src/pages/RoomCalendar.tsx:384-385 | the type's monthly rate, else the room's, else 0 |
| RoomCalendar.DefaultDailyTotalFormula | src/pages/RoomCalendar.tsx:357-364 | the computed total is rate × (end − start + 1) |
| RoomCalendar.FieldOrBlank | src/pages/RoomCalendar.tsx:371-372 | an empty optional field takes its default |
| RoomCalendar.FieldOrNumber | src/pages/RoomCalendar.tsx:371-372 | a number typed into a field is used unless it is 0 |
| RoomCalendar.TotalAmount | src/pages/RoomCalendar.tsx:373 | an entered nonzero total wins; otherwise the computed total, sent as `null` when it is NaN |
| RoomCalendar.DailyPayloadDefaults | src/pages/RoomCalendar.tsx:366-377 | with empty optional fields: the form's dates, 1 guest, 0 extra beds, rate × days, PENDING booking and payment |
| RoomCalendar.EnteredTotalOverrides | src/pages/RoomCalendar.tsx:373 | a typed nonzero total replaces the computed one |
| RoomCalendar.MonthlyPayloadDefaults | src/pages/RoomCalendar.tsx:387-397 | with empty optional fields: no end date (`null`), no deposit or advance, the room's monthly rate, PENDING and not ACTIVE |
| RoomCalendar.DailyPayload | src/pages/RoomCalendar.tsx:366-377 | a daily booking of the room for the customer over the form's dates, booked and paid PENDING, the room marked OCCUPIED_D |
| RoomCalendar.MonthlyPayload | src/pages/RoomCalendar.tsx:387-397 | a contract of the room for the customer from the form's start, with a `null` end exactly when none was entered, PENDING, the room marked OCCUPIED_M |
| RoomCalendar.BookingRequest | src/pages/RoomCalendar.tsx:356-401 | a POST for the draft's room and the customer: a daily booking to /daily-bookings or a contract to /monthly-contracts, by the booking type |
| RoomCalendar.Book | src/pages/RoomCalendar.tsx:351-415 | the effects so far are kept; customer id 0 only adds the missing-customer error; otherwise the booking request is sent, then a saved booking shows its success notice and reloads, and a failed one shows the booking error; the dialog closes iff the id is nonzero and the booking is saved |
| RoomCalendar.NewCustomer | src/pages/RoomCalendar.tsx:321-327 | the new customer is named by its phone, or `Customer_<now>` without one, and carries the form's contact fields |
| RoomCalendar.CreatedCustomerNamedByPhone | src/pages/RoomCalendar.tsx:288-291 | after the phone guard the created customer is always named by its phone |
| RoomCalendar.RejectionNotices | src/pages/RoomCalendar.tsx:279-310 | a missing room is silent; every other rejection shows exactly one error |
| RoomCalendar.SubmitOutcomeGuards | src/pages/RoomCalendar.tsx:278-416 | a rejected draft shows at most one notice and sends nothing; a passed draft whose customer is new or has a nonzero id sends a request first; a customer is added only with a nonzero created id; the dialog closes only on a saved booking |
| RoomCalendar.SubmitOutcome | src/pages/RoomCalendar.tsx:278-416 | what a submission does, as a value; its guards are stated by SubmitOutcomeGuards, the failed customer creation by CustomerCreateFailureStops, and its requests by SubmitDailyForCustomer, SubmitMonthlyForCustomer and SubmitWithNewCustomer |
| RoomCalendar.SubmitDailyForCustomer | src/pages/RoomCalendar.tsx:356-381 | a passed daily draft for a chosen customer posts the daily payload at the room's daily rate, and closes iff saved |
| RoomCalendar.SubmitMonthlyForCustomer | src/pages/RoomCalendar.tsx:382-401 | a passed monthly draft for a chosen customer posts the contract payload at the room's monthly rate, and closes iff saved |
| RoomCalendar.SubmitWithNewCustomer | src/pages/RoomCalendar.tsx:319-354 | a new customer is posted first; a nonzero id adds it to the list and is used for the booking |
| RoomCalendar.CustomerCreateFailureStops | src/pages/RoomCalendar.tsx:329-347 | when creating the customer fails, the customer request is followed only by an error: no booking is sent, no customer is added, and the dialog stays open |
| RoomCalendar.CancelRequest | src/pages/RoomCalendar.tsx:430-436 | cancelling is a DELETE without a body of the occupant's own record: its daily booking or its monthly contract |
| RoomCalendar.CancelRequestsDistinct | src/pages/RoomCalendar.tsx:430-436 | two different bookings, two different contracts, or a booking and a contract are cancelled by different requests |
| RoomCalendar.CalendarPage.constructor | src/pages/RoomCalendar.tsx:66-115 | the page mounts loading, with no filter, dialogs closed and an empty form |
| RoomCalendar.CalendarPage.Loaded | src/pages/RoomCalendar.tsx:129-133 | the five lists replace the old ones and loading ends |
| RoomCalendar.CalendarPage.LoadFailedNotice | src/pages/RoomCalendar.tsx:145-149 | a failed load shows an error and ends loading |
| RoomCalendar.CalendarPage.ShownRooms | src/pages/RoomCalendar.tsx:162-172 | the rows are a permutation of the rooms matching the page's search and filter, in display order |
| RoomCalendar.CalendarPage.HandleCellClick | src/pages/RoomCalendar.tsx:213-245 | an occupied cell selects its occupant and opens the cancel dialog, nothing else changes; a free cell selects room and day, clears the customer choice and opens the form on the cell's date |
| RoomCalendar.CalendarPage.OpenCancelDialog | src/pages/RoomCalendar.tsx:216-220 | the occupant is selected and the cancel dialog is open |
| RoomCalendar.CalendarPage.OpenBookingForm | src/pages/RoomCalendar.tsx:223-244 | room, day, customer choice and form set as for a free cell |
| RoomCalendar.CalendarPage.HandleSelectCustomer | src/pages/RoomCalendar.tsx:248-260 | the customer's contact fields are copied into the form; the other fields are kept |
| RoomCalendar.CalendarPage.HandleCreateNewCustomer | src/pages/RoomCalendar.tsx:263-275 | the choice is dropped and the customer fields are cleared; the other fields are kept |
| RoomCalendar.CalendarPage.HandleBooking | src/pages/RoomCalendar.tsx:278-416 | issues exactly the effects of `SubmitOutcome`, pushes a created customer onto `customers` in place, and closes the dialog exactly when the booking is saved |
| RoomCalendar.CalendarPage.HandleCancelBooking | src/pages/RoomCalendar.tsx:419-450 | nothing without a selection; otherwise a DELETE of the occupant's record, and on success a notice, a reload, the dialog closed and the selection cleared |
| DailyRental.CalculateDays | src/pages/DailyRental.tsx:159-162 | the days of a stay are check-out − check-in + 1 |
| DailyRental.SameDayIsOneDay | src/pages/DailyRental.tsx:159-162 | a same-day stay counts one day |
| DailyRental.WithStatus | src/pages/DailyRental.tsx:165-167 | a list holds exactly the bookings in its state, in order |
| DailyRental.WithStatusCounts | src/pages/DailyRental.tsx:165-167 | a list holds each booking of its state as often as the bookings do |
| DailyRental.ListsDisjoint | src/pages/DailyRental.tsx:165-167 | no booking is in two lists |
| DailyRental.OtherStatusInNoList | src/pages/DailyRental.tsx:165-167 | a booking in any other state is in none of them |
| DailyRental.ListsCoverAll | src/pages/DailyRental.tsx:165-167 | the lengths of the three lists and of the remaining bookings add up to the number of bookings |
| DailyRental.OpenConfirm | src/pages/DailyRental.tsx:91-97 | the button opens the dialog for its booking |
| DailyRental.Confirm | src/pages/DailyRental.tsx:99-141 | no booking id (missing or 0) does nothing; otherwise a PUT of the new state to the booking's record; on success a success notice, the dialog closed and the lists reloaded; on failure an error notice and the dialog as it was |
| DailyRental.ConfirmCheckIn | src/pages/DailyRental.tsx:99-115 | a check-in sends STAYED and its notice is about the check-in |
| DailyRental.ConfirmCheckOut | src/pages/DailyRental.tsx:125-141 | a check-out sends CHECKED_OUT and its notice is about the check-out |
| DailyRental.ConfirmTargetsBooking | src/pages/DailyRental.tsx:99-141 | check-in sends STAYED and check-out CHECKED_OUT, to the booking whose button opened the dialog and no other |
| DailyRental.ConfirmTwiceIsNoop | src/pages/DailyRental.tsx:100 | confirming again after a successful check-in sends nothing |
| ContractManagement.PendingContracts | src/pages/Contract/ContractManagement.tsx:88 | exactly the contracts that are not ACTIVE, in order |
| ContractManagement.ActiveContracts | src/pages/Contract/ContractManagement.tsx:89 | exactly the ACTIVE contracts, in order |
| ContractManagement.ExactlyOneList | src/pages/Contract/ContractManagement.tsx:88-89 | every contract is in exactly one list |
| ContractManagement.ListsAddUp | src/pages/Contract/ContractManagement.tsx:88-89 | the two lists together are as long as the contracts |
| ContractManagement.ListsKeepEveryCopy | src/pages/Contract/ContractManagement.tsx:88-89 | each contract is listed as often as it occurs |
| ContractManagement.Approve | src/pages/Contract/ContractManagement.tsx:91-104 | approving PUTs ACTIVE to the contract's record; on success a success notice and a reload, on failure an error notice and no reload |
| ContractManagement.ApproveTargetsContract | src/pages/Contract/ContractManagement.tsx:94 | approving one contract never updates another |
| ContractManagement.ConfirmDelete | src/pages/Contract/ContractManagement.tsx:106-126 | nothing without a chosen contract; otherwise a DELETE of its record; on success a notice, the dialog closed, the choice cleared and a reload; on failure an error notice and nothing else changed |
| ContractManagement.FormatDate | src/pages/Contract/ContractManagement.tsx:140-147 | a missing or empty date shows a dash, any other date is formatted |
| ContractManagement.PendingRowRate | src/pages/Contract/ContractManagement.tsx:182-191 | the type's monthly rate, or 0 when the room or its type is missing |
| ContractManagement.MissingRoomShowsZero | src/pages/Contract/ContractManagement.tsx:182-191 | a row whose room is not loaded shows 0, not an error |
| RoomManagement.StatusColor | src/pages/RoomManagement.tsx:37-43 | the badge colour table; TablesTotalAndDistinct proves every state has one and no two share one |
| RoomManagement.StatusLabel | src/pages/RoomManagement.tsx:45-51 | the label table; TablesTotalAndDistinct proves every state has one and no two share one |
| RoomManagement.StatusOf | src/pages/RoomManagement.tsx:237-242 | a status text names a state iff it is that state's name |
| RoomManagement.TablesTotalAndDistinct | src/pages/RoomManagement.tsx:37-51 | every state has a colour and a label, and no two states share either |
| RoomManagement.OnFloorMembers | src/pages/RoomManagement.tsx:176-181 | a floor's rooms are exactly the rooms whose floor has that key |
| RoomManagement.OnFloorAppend | src/pages/RoomManagement.tsx:179-180 | a room added at the end joins its own floor and no other |
| RoomManagement.GroupedStep | src/pages/RoomManagement.tsx:177-180 | one step of the `reduce` keeps the grouping invariant |
| RoomManagement.GroupByFloor | src/pages/RoomManagement.tsx:176-181 | every floor of a room has a group, and no other key does; each group is that floor's rooms in list order; group sizes add up to the room count |
| RoomManagement.GroupedPlacesEachRoom | src/pages/RoomManagement.tsx:176-181 | every room is found under its own floor's key, and a group holds only rooms of its floor |
| RoomManagement.FloorOrderIsStrictWeak | src/pages/RoomManagement.tsx:224-228 | the floor comparator is a strict weak order |
| RoomManagement.FloorOrder | src/pages/RoomManagement.tsx:223-228 | the floors are a permutation of the keys, highest floor number first |
| RoomManagement.KeyWithoutDigitsIsZero | src/pages/RoomManagement.tsx:225-226 | a key without digits counts as floor 0 |
| RoomManagement.FloorKeyReadsBack | src/pages/RoomManagement.tsx:177 | a floor key reads back as its floor, and two rooms share a key iff they share a floor |
| RoomManagement.EditForm | src/pages/RoomManagement.tsx:110-121 | there is no form without the room's type |
| RoomManagement.EditFormReadsBack | src/pages/RoomManagement.tsx:113-119 | the form reads back as the room's number, floor and type and the type's daily and monthly rates |
| CustomerManagement.EditForm | src/pages/CustomerManagement.tsx:69-80 | the edit form holds the customer's own details |
| CustomerManagement.Save | src/pages/CustomerManagement.tsx:82-108 | a blank name is refused first, then a blank phone; a refusal sends nothing; otherwise the add form POSTs and the edit form PUTs the untrimmed form to the chosen customer; with neither, nothing |
| CustomerManagement.BlankFormIsRejected | src/pages/CustomerManagement.tsx:57-67 | the add form as it opens is refused for its name |
| CustomerManagement.SpacesAreBlank | src/pages/CustomerManagement.tsx:84-87 | a name of spaces is refused like an empty one |
| CustomerManagement.EditUnchangedWritesBack | src/pages/CustomerManagement.tsx:69-108 | saving an unchanged edit form writes the customer's details back to its record |
| CustomerManagement.FilteredCustomers | src/pages/CustomerManagement.tsx:129-136 | a customer is listed iff the lower-cased name, or the citizen id or phone as stored, contains the lower-cased term; every copy of a listed customer stays; order kept |
| CustomerManagement.EmptySearchKeepsAll | src/pages/CustomerManagement.tsx:129-136 | an empty search lists every customer, in order |
| CustomerManagement.SearchIgnoresTermCase | src/pages/CustomerManagement.tsx:130 | a term and its lower-cased form list the same customers |
| CustomerManagement.OpenDelete | src/pages/CustomerManagement.tsx:110-112 | the button opens the dialog for its customer |
| CustomerManagement.ConfirmDelete | src/pages/CustomerManagement.tsx:114-127 | no id (missing or 0) does nothing and leaves the dialog; otherwise a DELETE of the record, a success notice and a reload or an error notice, and the dialog closes either way |
| CustomerManagement.DeleteTargetsCustomer | src/pages/CustomerManagement.tsx:115-117 | only the chosen customer is deleted, and never a customer with id 0 |
| UserManagement.FilteredUsers | src/pages/UserManagement.tsx:51-55 | a user is listed iff the lower-cased name or email contains the lower-cased query; every copy of a listed user stays; order kept |
| UserManagement.EmptyQueryKeepsAll | src/pages/UserManagement.tsx:51-55 | an empty query lists every user, in order |
| UserManagement.SearchIgnoresCase | src/pages/UserManagement.tsx:51-55 | the case of the query, the name and the email does not matter |
| UserManagement.InitialForm | src/pages/UserManagement.tsx:236-243 | a new user's form is empty with role STAFF; an edited user's form holds its details; the password always starts empty |
| UserManagement.Submit | src/pages/UserManagement.tsx:246-276 | a new user without a password is refused before any request; otherwise the right request |
| UserManagement.UpdateIgnoresPasswordAndUsername | src/pages/UserManagement.tsx:251-259 | an update carries neither password nor username: changing them changes nothing sent |
| UserManagement.NewFormNeedsPassword | src/pages/UserManagement.tsx:262-267 | the new-user form as it opens is refused |
| UserManagement.EditUnchangedWritesBack | src/pages/UserManagement.tsx:251-259 | an unchanged edit writes the user's name, email, phone and role back |
| UserManagement.UpdateTargetsUser | src/pages/UserManagement.tsx:259 | two users are never updated by the same request |
| UserManagement.DeleteUser | src/pages/UserManagement.tsx:57-68 | a DELETE of the user's record is sent iff the deletion is confirmed; then a success alert and a reload, or an error alert |
| Api.RecordPathInjective | src/pages/CustomerManagement.tsx:116 | different ids give different record paths |

## Left out

- HTTP, the server and failures: requests are values, and a request's outcome is an input: `saved`, `deleted`, or the id a created customer gets. What the back end does with a request is not part of this model.
- Concurrency and re-rendering: React state updates are modelled as taking effect at once. A handler that reads state it has just set is not relied on.
- Loading: `fetchAllData` and the other fetch functions are modelled only as their outcomes: the lists arrive (`CalendarPage.Loaded`) or an error shows. The `console.log` calls are left out.
- Toast and alert texts: a notice is modelled as the success or failure of a named action (`Api.Toast`), not by its Thai text; the server's error message a failure notice quotes is left out. Whether a request succeeds is an input, and so is the answer to a `confirm` box (`DeleteUser`'s `confirmed`).
- Time zones and the `Date` object: dates are day ordinals; milliseconds are modelled only as midnight times (`MidnightMs`).
- `new Date(s)` of an ISO date string is modelled as `ParseIsoDate`, which accepts exactly `YYYY-MM-DD` with a valid date. Other strings that browsers accept are not modelled.
- Record dates are ordinals, so a record whose date does not parse is not representable. The same holds for a contract whose `endDate` is the empty string: it is `None`, like `null`.
- `toLocaleDateString('th-TH', …)` is not modelled: `ContractManagement.FormatDate` keeps the raw date.
- `toLocaleString` of amounts is not modelled.
- Floating point is not modelled: amounts, rates and counts are integers. `Number(s)` is modelled for optional signs, digits and surrounding whitespace; fractions, exponents, hex and `Infinity` are left out.
- Unicode lower-casing and locale collation are not modelled: `toLowerCase` changes only ASCII letters, and `localeCompare` is code-point order.
- Floors are integers, so a floor sent as a string (the `typeof room.floor === 'string'` branch) is not modelled. For integer floors the key is `String(floor)`.
- `Object.entries` returns integer-like keys in ascending numeric order. The sort that follows fixes the final order, so that nuance is not modelled; `keys` in `GroupByFloor` is in creation order.
- Input setters (`setSearchTerm`, `setFormData`, the month and year pickers, the booking-type switch) are plain field assignments and are not modelled as operations.
- Room management `handleSave`, `handleDelete` and `handleAdd` are not modelled; they only send a request or reset the form.
- Save: stops at the request it sends. The success toast, the dialog closing and the `fetchCustomers` reload that follow it are not modelled, nor is the error toast on failure.
- Submit: stops at the request it sends. The success alert, the parent's `onSave` and `onClose`, and the error alert on failure are not modelled.
- Daily rental: `handleConfirmCheckIn` and `handleConfirmCheckOut` are bound to the dialog by the page's markup. `Confirm` takes the kind of confirmation as a parameter and does not check the dialog's `type`.
- `RoomCalendar.SubmitOutcome`: the booking is posted without checking the loaded bookings and contracts for an overlap. The model keeps that: the loaded records are not an input of the submission.
- `CalendarPage.HandleBooking`: a created customer is pushed onto `customers` in place, with no re-render. The field update models the push.
- The other pages of the client (dashboard, login, room types, utility rates, contract detail and PDF) are not part of this model.

# Seat accounting of the ticket booking application

This project models the seat accounting of a Django ticket booking site and proves properties of it.
Each show has a capacity (`total_seats`), a counter of free seats (`available_seats`), a price and a
visibility flag. Seats change in three places:

- The public detail page books seats. It checks the submitted quantity, checks it against the show
  as fetched, re-reads the show and checks again, and only then creates the booking and decrements
  the counter.
- An administrator can revise the capacity. The seats already sold (`total - available`) must still
  fit, and the counter moves by the change in capacity.
- A new show starts with all its seats free. A show with bookings cannot be deleted.

The model has three modules, one per core file:

- `Models` (models.dfy) covers ticketbooking/shows/models.py and the booking row of
  ticketbooking/bookings/models.py. It holds:
  - the `ShowRow` and `Booking` values;
  - a `Database` class for the storage the ORM provides (the shows by primary key, the bookings, the
    next key);
  - a `Show` class for a model instance, with `Save` (which resets the counter on the first save)
    and `RefreshFromDb`;
  - `SeatsHeld`, the number of seats a show's bookings hold.

  `Database.Valid()` says three things: every stored row has `0 <= available <= total`, every key is
  below the next one handed out, and every booking references a stored show. `Database.Reconciled()`
  is the ledger invariant: for every show, `total - available` equals the seats its bookings hold.
- `ShowViews` (show_views.dfy) covers `ShowDetailView.get_queryset` and `ShowDetailView.post`.
- `AdminViews` (admin_views.dfy) covers the create, update and delete handlers of the custom admin.

Every handler is an imperative method. It returns an outcome value in place of the redirect or the
rendered page. Its `ensures` ties the outcome to a specification function, states the whole new
storage state, and says that `Valid()` holds afterwards and that `Reconciled()` is kept. Lemmas
about the specification functions state the properties across calls. The main ones:

- Serving any sequence of requests never oversells.
- A conflict is reported only when seats really disappeared.
- An accepted capacity revision keeps the sold seats, so the floor at zero is never needed.

Inputs the model cannot see are parameters:

- whether the caller is signed in, or is a superuser;
- the parse result of each form field;
- the row that the re-read finds. This row stands for whatever other requests wrote between the
  two checks.

Where the documented design of the system and the code differ, the model follows the code:

- The code reports a conflict through the same error list as every other rejection, a single
  "seats changed" message. The model writes this as `Rejected([SeatsChanged])`, named `Conflict`.
- The code gives three different messages for a missing, non-numeric or non-positive quantity.
- An inactive show and a missing show both produce the same 404.
- Creating the booking and saving the decremented counter are two separate writes. They are not
  inside one transaction, because the `transaction.atomic` lines are commented out.
- The ledger invariant (available seats = capacity minus booked seats) holds only when no other
  request writes between the re-read and the save. `ShowViews.SameSnapshotOversells` shows that
  two requests re-reading the same row can both be confirmed and sell more seats than the show
  has.

## Model

| member | source | states |
|---|---|---|
| `Models.SeatsHeldAppend` | ticketbooking/bookings/models.py:8-9 | a new booking adds its quantity to the seats its own show holds and nothing to any other show |
| `Models.SeatsHeldUnreferenced` | ticketbooking/bookings/models.py:8-9 | a show that no booking references holds no seats |
| `Models.ShowRow.Booked` | ticketbooking/custom_admin/views.py:224 | the seats sold are non-negative exactly when the row is consistent, and then at most the capacity |
| `Models.Database.WriteShow` | ticketbooking/shows/models.py:24 | the base save inserts or overwrites exactly the row with the instance's key and touches nothing else |
| `Models.Database.Allocate` | ticketbooking/shows/models.py:24 | the key handed out is the counter's old value and the counter moves past it; when every stored key is below the counter, no stored row has the new key |
| `Models.Database.InsertBooking` | ticketbooking/shows/views.py:96-102 | creating a booking appends exactly that booking and leaves the shows alone |
| `Models.Database.DeleteShow` | ticketbooking/custom_admin/views.py:315 | deleting removes exactly the one show; it is reached only when no booking references the show, so no cascade happens |
| `Models.Database.HasBookings` | ticketbooking/custom_admin/views.py:309 | a show for which no booking exists holds no seats |
| `Models.Show.constructor` | ticketbooking/shows/models.py:4-12 | a new instance is unsaved and carries the given columns; `is_active` defaults to true |
| `Models.Show.Fetched` | ticketbooking/custom_admin/views.py:177 | an instance loaded from storage is not being added and carries the stored row and key |
| `Models.Show.Save` | ticketbooking/shows/models.py:20-24 | the first save sets available seats to the capacity whatever the caller gave and inserts under a fresh key; later saves write the fields exactly as set, under the same key |
| `Models.Show.RefreshFromDb` | ticketbooking/shows/views.py:86 | after the re-read every column equals the stored row; the key is unchanged |
| `ShowViews.LookUp` | ticketbooking/shows/views.py:26-28 | a show is found exactly when it exists and is active |
| `ShowViews.Quantity` | ticketbooking/shows/views.py:54-60 | the quantity is the parsed integer when the field is one and stays 0 otherwise; it is positive whenever the quantity check passes |
| `ShowViews.QuantityErrors` | ticketbooking/shows/views.py:52-64 | no error exactly for a positive integer; a missing or empty field gives only "enter the number", a non-integer only "invalid", a non-positive integer only "must be positive" |
| `ShowViews.SeatErrors` | ticketbooking/shows/views.py:66-70 | the "only N available" error appears exactly when the quantity exceeds the available seats, the capacity error exactly when it exceeds the capacity, and both can appear together |
| `ShowViews.FormErrors` | ticketbooking/shows/views.py:52-70 | the errors before the re-read are empty exactly when the quantity is a positive integer within the fetched available seats and capacity; when the quantity check fails its errors are the whole list, and the seat checks run only after the quantity parses as positive, giving exactly their errors |
| `ShowViews.Validate` | ticketbooking/shows/views.py:52-70 | the handler's appends build exactly that error list, and `quantity` is the parsed integer or 0 |
| `ShowViews.Book` | ticketbooking/shows/views.py:72-102 | confirmed exactly when there are no errors before the re-read and the quantity fits the re-read seats; a request that fails the checks before the re-read is rejected with exactly those errors; the conflict is reported exactly when the checks passed but the re-read has too few seats; a confirmed booking is for the caller and the show, has a positive quantity within the re-read seats, and costs quantity times the re-read price |
| `ShowViews.Decide` | ticketbooking/shows/views.py:38-48 | 404 exactly when the show is missing or inactive; a login redirect exactly when it is found and the caller is not signed in; a confirmation only for a signed-in caller on an active show |
| `ShowViews.Taken` | ticketbooking/shows/views.py:105 | taking n seats lowers the re-read counter by exactly n, raises the sold seats by n, and leaves the capacity, price and visibility unchanged |
| `ShowViews.Post` | ticketbooking/shows/views.py:38-106 | the outcome is `Decide`'s. A rejection before the re-read changes nothing. A conflict adds no booking and writes no seats. A confirmation appends exactly one booking and stores the re-read row minus the quantity. Storage stays valid, and without a write between the checks the ledger stays reconciled |
| `ShowViews.ConflictMeansSeatsTaken` | ticketbooking/shows/views.py:86-91 | the "seats changed" error implies that the re-read found fewer available seats than the fetch did |
| `ShowViews.NoConflictWithoutRace` | ticketbooking/shows/views.py:86-91 | when nothing is written between the two checks the re-check never fails |
| `ShowViews.ConfirmedIff` | ticketbooking/shows/views.py:38-106 | a request is confirmed if and only if the show is active, the caller is signed in, the quantity is a positive integer within the fetched available seats and capacity, and it fits the re-read seats |
| `ShowViews.CapacityCheckSubsumed` | ticketbooking/shows/views.py:66-70 | on a consistent show the capacity error never appears without the "only N available" error, and the seat checks pass exactly when the quantity fits the available seats |
| `ShowViews.ServeAccounting` | ticketbooking/shows/views.py:86-106 | over any sequence of requests on one show: the seats booked total at most the seats that were available, the final counter is the original minus those seats and stays consistent, the capacity and price are unchanged, and each booking has a positive quantity and costs quantity times price |
| `ShowViews.ServeStepIsPost` | ticketbooking/shows/views.py:72-106 | one step of the request sequence is the handler's outcome for a signed-in caller on an active show whose re-read finds the stored row: a confirmation books exactly that booking and leaves the row minus its quantity, anything else books nothing and leaves the row |
| `ShowViews.RejectionKeepsRow` | ticketbooking/shows/views.py:72-91 | a rejected request neither changes the show nor adds a booking for the rest of the sequence |
| `ShowViews.SameSnapshotOversells` | ticketbooking/shows/views.py:80-106 | two requests that re-read the same ten-seat row are both confirmed for six seats; the ledger then holds twelve seats while the last save records only six sold |
| `ShowViews.ScenarioThreeThenEight` | ticketbooking/shows/views.py:56-106 | on ten free seats at 20.00, booking three costs 60.00 and leaves seven; a following request for eight is refused with "only 7 available" and the seven remain |
| `AdminViews.RequiredErrors` | ticketbooking/custom_admin/views.py:62-75 | no "is required" error exactly when every field is non-empty; all these errors are "is required" errors |
| `AdminViews.DateTimeErrors` | ticketbooking/custom_admin/views.py:78-87 | the date and time format error appears only when both are given and do not parse, and then alone |
| `AdminViews.SeatsErrors` | ticketbooking/custom_admin/views.py:218-229 | a blank capacity adds nothing here; a malformed one gives "invalid value"; a non-positive one gives "must be positive"; on update a capacity below the seats sold gives the error naming that number, even alongside "must be positive"; on create that error never appears |
| `AdminViews.PriceErrors` | ticketbooking/custom_admin/views.py:100-106 | price errors exactly for an unparsable or negative price |
| `AdminViews.ShowFormErrors` | ticketbooking/custom_admin/views.py:195-237 | the form is accepted if and only if every field is given, the date and time parse, the capacity is positive, the price is not negative and, on update, the capacity is at least the seats sold; a capacity below the seats sold always reports that number |
| `AdminViews.Check` | ticketbooking/custom_admin/views.py:62-106 | one `if ...: errors.append(...)` adds exactly its message to the list when its condition fails, and nothing otherwise |
| `AdminViews.CheckRequired` | ticketbooking/custom_admin/views.py:195-208 | the appends produce exactly the "is required" errors, in field order |
| `AdminViews.CheckSeats` | ticketbooking/custom_admin/views.py:218-229 | the capacity checks append exactly their errors after the earlier ones |
| `AdminViews.CheckPrice` | ticketbooking/custom_admin/views.py:231-237 | the price checks append exactly their errors after the earlier ones |
| `AdminViews.ValidateForm` | ticketbooking/custom_admin/views.py:61-106 | the handler's appends build exactly the whole error list, in order |
| `AdminViews.Revised` | ticketbooking/custom_admin/views.py:259-276 | the revised row has the new capacity, price and visibility. When the capacity is at least the seats sold, the counter moves by exactly the change in capacity and the seats sold stay the same. Only below that does the floor at zero apply. A consistent row stays consistent |
| `AdminViews.CreatePost` | ticketbooking/custom_admin/views.py:45-137 | non-superusers are redirected; an invalid form returns its errors and creates nothing; a valid one inserts one show under a fresh key with all seats available and nothing booked; storage stays valid and reconciled |
| `AdminViews.UpdatePost` | ticketbooking/custom_admin/views.py:175-281 | non-superusers are redirected; a missing show is a 404; any error returns the errors and writes nothing; otherwise the stored row becomes the revised row with the seats sold unchanged; storage stays valid and reconciled |
| `AdminViews.DeletePost` | ticketbooking/custom_admin/views.py:305-317 | non-superusers are redirected and a missing show is a 404; a show with a booking is refused and nothing changes; otherwise exactly that show is removed; no booking is ever left without its show |
| `AdminViews.AcceptedUpdateKeepsBooked` | ticketbooking/custom_admin/views.py:224-276 | after the guard passes, the unfloored counter is already non-negative, so the clamp never fires; the revised row keeps the seats sold and stays consistent |
| `AdminViews.BelowBookedRefused` | ticketbooking/custom_admin/views.py:224-226 | a capacity below the seats sold is always refused with the error naming the seats sold |
| `AdminViews.ScenarioCapacityRevision` | ticketbooking/custom_admin/views.py:218-276 | a show with 100 seats and 40 available (60 sold) refuses a revision to 50, naming 60, and accepts 80, leaving 20 available |

## Left out

- HTTP and presentation: redirects, rendered templates, CSRF and URL routing become outcome
  values, or are not modelled.
- Session data: the error and quantity values carried in the session across a redirect are not
  modelled; the errors are returned in the outcome.
- Accounts, settings, the list views, the dashboard and every GET handler: these contain no seat
  logic. ticketbooking/accounts/views.py is not part of this model.
- Text fields: title, description and location are represented only by whether they are
  non-empty. Their stored values, `__str__` and the shows' ordering are not modelled.
- Date and time parsing: `strptime` and `make_aware` are library calls. Their result is the
  parameter `dateTimeParses`, and the stored date is not modelled.
- Prices are whole cents. The float parse of the price (including NaN and infinity, which pass the
  "not negative" check) and the ten-digit limit of the decimal columns are not modelled.
- The integer columns are unbounded. The database's upper limit for a positive integer column is
  not modelled.
- `booking_time` and `timezone.now()` are a clock and are not modelled.
- The `except Exception` handlers are not modelled. Nor are the failures they catch: a save that
  fails after the booking row was created, or a show deleted before the re-read.
- Real concurrency: other requests appear only as the row the re-read finds.
- `ShowViews.Post`: keeps `Reconciled()` only when nothing is written between the re-read and the
  save. Under interleaving the code does not keep it (see `ShowViews.SameSnapshotOversells`).
- `ShowViews.Post`: requires the re-read row to be consistent. This is an assumption about the
  other writers, which all keep `available <= total`. It is not a demand on the caller.

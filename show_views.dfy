/** Seat reservation from a show's detail page
    (`ShowDetailView.get_queryset` and `ShowDetailView.post`,
    ticketbooking/shows/views.py).

    The handler checks the submitted quantity, checks it against the show as
    fetched, re-reads the show and checks once more, and only then records the
    booking and takes the seats. The re-read is not inside a transaction, so
    other requests may have changed the row in between: the model receives the
    row as it stands at the re-read as the parameter `latest`. */
module ShowViews {
  import opened Models

  /** The `quantity` form field: absent or empty, not an integer, or an integer. */
  datatype QuantityInput = Missing | NotInt | Int(n: int)

  /** The messages the handler can report, one constructor per message. */
  datatype BookingError =
    | EnterQuantity            // "Please enter the number of tickets."
    | NotPositive              // "Quantity must be a positive number."
    | InvalidQuantity          // "Invalid quantity entered."
    | OnlyAvailable(seats: nat) // "Only {available_seats} seats available."
    | BeyondTotal(total: nat)  // "Cannot book more than total seats available ({total_seats})."
    | SeatsChanged             // "Sorry, available seats changed. Please try again."

  datatype BookingRequest = BookingRequest(authenticated: bool, user: UserId, quantity: QuantityInput)

  /** What the request ends in: a 404, a redirect to the login page, a redirect
      back to the show with errors, or the confirmation of a new booking. */
  datatype BookingOutcome =
    | NotFound
    | LoginRedirect
    | Rejected(errors: seq<BookingError>)
    | Confirmed(booking: Booking)

  /** The one error list that reports a race seen at the re-read. */
  const Conflict: BookingOutcome := Rejected([SeatsChanged])

  /** `get_object` over `get_queryset`: only active shows can be found. */
  function LookUp(shows: map<ShowId, ShowRow>, pk: ShowId): (r: Option<ShowRow>)
    ensures r.Some? <==> pk in shows && shows[pk].isActive
    ensures r.Some? ==> r.value == shows[pk]
  {
    if pk in shows && shows[pk].isActive then Some(shows[pk]) else None
  }

  /** The value of `quantity` after parsing: 0 unless the field is an integer. */
  function Quantity(q: QuantityInput): (n: int)
    ensures q.Int? ==> n == q.n
    ensures !q.Int? ==> n == 0
    ensures QuantityErrors(q) == [] ==> n > 0
  {
    if q.Int? then q.n else 0
  }

  /** The errors of the quantity check; the seat checks run only when it reports none. */
  function QuantityErrors(q: QuantityInput): (errs: seq<BookingError>)
    ensures errs == [] <==> q.Int? && q.n > 0
    ensures q.Missing? <==> errs == [EnterQuantity]
    ensures q.NotInt? <==> errs == [InvalidQuantity]
    ensures q.Int? && q.n <= 0 <==> errs == [NotPositive]
  {
    match q
    case Missing => [EnterQuantity]
    case NotInt => [InvalidQuantity]
    case Int(n) => if n <= 0 then [NotPositive] else []
  }

  /** The errors of the advisory seat check against the show as fetched. */
  function SeatErrors(n: int, show: ShowRow): (errs: seq<BookingError>)
    ensures errs == [] <==> n <= show.availableSeats && n <= show.totalSeats
    ensures OnlyAvailable(show.availableSeats) in errs <==> n > show.availableSeats
    ensures BeyondTotal(show.totalSeats) in errs <==> n > show.totalSeats
    ensures |errs| <= 2 && SeatsChanged !in errs
  {
    (if n > show.availableSeats then [OnlyAvailable(show.availableSeats)] else [])
    + (if n > show.totalSeats then [BeyondTotal(show.totalSeats)] else [])
  }

  /** The error list built before the re-read. */
  function FormErrors(q: QuantityInput, show: ShowRow): (errs: seq<BookingError>)
    ensures errs == [] <==> q.Int? && 0 < q.n <= show.availableSeats && q.n <= show.totalSeats
    ensures QuantityErrors(q) != [] ==> errs == QuantityErrors(q)
    ensures QuantityErrors(q) == [] ==> errs == SeatErrors(q.n, show)
    ensures SeatsChanged !in errs
  {
    var qe := QuantityErrors(q);
    if qe == [] then SeatErrors(Quantity(q), show) else qe
  }

  /** The booking steps for an authenticated caller on the active show `show`
      with key `pk`, where `latest` is the row as re-read before the write. */
  function Book(pk: ShowId, show: ShowRow, user: UserId, q: QuantityInput, latest: ShowRow): (r: BookingOutcome)
    ensures r.Rejected? || r.Confirmed?
    ensures r.Rejected? ==> r.errors != []
    ensures FormErrors(q, show) != [] ==> r == Rejected(FormErrors(q, show))
    ensures r.Confirmed? <==> FormErrors(q, show) == [] && q.n <= latest.availableSeats
    ensures r == Conflict <==> FormErrors(q, show) == [] && q.n > latest.availableSeats
    ensures r.Confirmed? ==> r.booking == Booking(user, pk, q.n, q.n * latest.price)
    ensures r.Confirmed? ==> 0 < r.booking.quantity <= latest.availableSeats
  {
    var errors := FormErrors(q, show);
    if errors != [] then Rejected(errors)
    else if Quantity(q) > latest.availableSeats then Conflict
    else Confirmed(Booking(user, pk, q.n, q.n * latest.price))
  }

  /** The whole POST handler over the stored shows. */
  function Decide(shows: map<ShowId, ShowRow>, pk: ShowId, req: BookingRequest, latest: ShowRow): (r: BookingOutcome)
    ensures r.NotFound? <==> LookUp(shows, pk).None?
    ensures r.LoginRedirect? <==> LookUp(shows, pk).Some? && !req.authenticated
    ensures r.Confirmed? ==> req.authenticated && pk in shows && shows[pk].isActive
  {
    match LookUp(shows, pk)
    case None => NotFound
    case Some(show) =>
      if !req.authenticated then LoginRedirect
      else Book(pk, show, req.user, req.quantity, latest)
  }

  /** The re-read row after `n` of its seats are taken. */
  function Taken(latest: ShowRow, n: nat): (r: ShowRow)
    requires n <= latest.availableSeats
    ensures r.availableSeats == latest.availableSeats - n
    ensures r.totalSeats == latest.totalSeats && r.price == latest.price && r.isActive == latest.isActive
    ensures r.Booked() == latest.Booked() + n
  {
    latest.(availableSeats := latest.availableSeats - n)
  }

  /** The quantity parse and the advisory seat check, appending to `errors`
      in the order the handler does. */
  method Validate(show: Show, q: QuantityInput) returns (quantity: int, errors: seq<BookingError>)
    ensures quantity == Quantity(q)
    ensures errors == FormErrors(q, show.Row())
  {
    errors := [];
    quantity := 0;
    match q {
      case Missing =>
        errors := errors + [EnterQuantity];
      case NotInt =>
        errors := errors + [InvalidQuantity];
      case Int(n) =>
        quantity := n;
        if quantity <= 0 {
          errors := errors + [NotPositive];
        }
    }
    if errors == [] {
      if quantity > show.availableSeats {
        errors := errors + [OnlyAvailable(show.availableSeats)];
      }
      if quantity > show.totalSeats {
        errors := errors + [BeyondTotal(show.totalSeats)];
      }
    }
  }

  /** `ShowDetailView.post`. `latest` is the row that the re-read finds; it
      stands for whatever other requests wrote since the show was fetched, and
      like every stored row it is consistent. */
  method Post(db: Database, pk: ShowId, req: BookingRequest, latest: ShowRow) returns (outcome: BookingOutcome)
    requires db.Valid()
    requires latest.Consistent()
    modifies db
    ensures outcome == Decide(old(db.shows), pk, req, latest)
    ensures db.Valid()
    ensures db.nextShowId == old(db.nextShowId)
    ensures outcome.Confirmed? ==>
      && db.shows == old(db.shows)[pk := Taken(latest, outcome.booking.quantity)]
      && db.bookings == old(db.bookings) + [outcome.booking]
    ensures outcome == Conflict ==> db.shows == old(db.shows)[pk := latest] && db.bookings == old(db.bookings)
    ensures !outcome.Confirmed? && outcome != Conflict ==> db.shows == old(db.shows) && db.bookings == old(db.bookings)
    ensures old(db.Reconciled()) && pk in old(db.shows) && latest == old(db.shows[pk]) ==> db.Reconciled()
  {
    if !(pk in db.shows && db.shows[pk].isActive) {
      return NotFound;
    }
    var show := new Show.Fetched(pk, db.shows[pk]);
    if !req.authenticated {
      return LoginRedirect;
    }
    var quantity, errors := Validate(show, req.quantity);
    if errors != [] {
      return Rejected(errors);
    }
    // Other requests' writes, visible from here on.
    db.WriteShow(pk, latest);
    show.RefreshFromDb(db);
    if quantity > show.availableSeats {
      return Conflict;
    }
    var booking := Booking(req.user, pk, quantity, quantity * show.price);
    db.InsertBooking(booking);
    show.availableSeats := show.availableSeats - quantity;
    show.Save(db);
    outcome := Confirmed(booking);
    if old(db.Reconciled()) && latest == old(db.shows[pk]) {
      forall p | p in db.shows
        ensures db.shows[p].Booked() == SeatsHeld(db.bookings, p)
      {
        SeatsHeldAppend(old(db.bookings), booking, p);
      }
    }
  }

  // ------------------------------------------------------------------
  // Properties of the specification

  /** The conflict error is reported only when the re-read finds fewer seats
      than were fetched: it always means another request took seats. */
  lemma ConflictMeansSeatsTaken(shows: map<ShowId, ShowRow>, pk: ShowId, req: BookingRequest, latest: ShowRow)
    requires Decide(shows, pk, req, latest) == Conflict
    ensures pk in shows && latest.availableSeats < shows[pk].availableSeats
  {
  }

  /** Without a write between the two checks the re-check never fails. */
  lemma NoConflictWithoutRace(shows: map<ShowId, ShowRow>, pk: ShowId, req: BookingRequest)
    requires pk in shows
    ensures Decide(shows, pk, req, shows[pk]) != Conflict
  {
  }

  /** A request is confirmed exactly when the show is active, the caller is
      signed in, the quantity is a positive integer, and it fits both the
      fetched show and the re-read one. */
  lemma ConfirmedIff(shows: map<ShowId, ShowRow>, pk: ShowId, req: BookingRequest, latest: ShowRow)
    ensures Decide(shows, pk, req, latest).Confirmed? <==>
      && pk in shows && shows[pk].isActive && req.authenticated
      && req.quantity.Int? && 0 < req.quantity.n
      && req.quantity.n <= shows[pk].availableSeats && req.quantity.n <= shows[pk].totalSeats
      && req.quantity.n <= latest.availableSeats
  {
  }

  /** On a consistent show the capacity check never fails on its own: a
      quantity beyond the capacity is also beyond the available seats. */
  lemma CapacityCheckSubsumed(n: int, show: ShowRow)
    requires show.Consistent()
    ensures BeyondTotal(show.totalSeats) in SeatErrors(n, show) ==>
              SeatErrors(n, show) == [OnlyAvailable(show.availableSeats), BeyondTotal(show.totalSeats)]
    ensures SeatErrors(n, show) == [] <==> n <= show.availableSeats
  {
  }

  /** A booking request by `user` for `quantity`. */
  datatype Order = Order(user: UserId, quantity: QuantityInput)

  /** Orders served one after another on the active show `pk`, each re-read
      finding the row the previous order left; gives the final row and the
      bookings made, in order. */
  function Serve(pk: ShowId, show: ShowRow, orders: seq<Order>): (ShowRow, seq<Booking>)
    decreases |orders|
  {
    if orders == [] then (show, [])
    else
      var r := Book(pk, show, orders[0].user, orders[0].quantity, show);
      var next := if r.Confirmed? then Taken(show, r.booking.quantity) else show;
      var (final, made) := Serve(pk, next, orders[1..]);
      (final, (if r.Confirmed? then [r.booking] else []) + made)
  }

  /** Serving any sequence of orders never oversells: the seats booked add up
      to at most the seats that were available, the final counter is the
      original minus those seats, the capacity and price do not change, and
      every booking is charged its quantity times the price. */
  lemma {:induction false} ServeAccounting(pk: ShowId, show: ShowRow, orders: seq<Order>)
    requires show.Consistent()
    decreases |orders|
    ensures var (final, made) := Serve(pk, show, orders);
      && SeatsHeld(made, pk) <= show.availableSeats
      && final.availableSeats == show.availableSeats - SeatsHeld(made, pk)
      && final.totalSeats == show.totalSeats && final.price == show.price
      && final.Consistent()
      && forall i :: 0 <= i < |made| ==>
           made[i].show == pk && made[i].quantity > 0 && made[i].totalPrice == made[i].quantity * show.price
  {
    if orders != [] {
      var r := Book(pk, show, orders[0].user, orders[0].quantity, show);
      var next := if r.Confirmed? then Taken(show, r.booking.quantity) else show;
      ServeAccounting(pk, next, orders[1..]);
      var (final, made) := Serve(pk, next, orders[1..]);
      var all := (if r.Confirmed? then [r.booking] else []) + made;
      assert Serve(pk, show, orders) == (final, all);
      if r.Confirmed? {
        assert all[1..] == made;
        assert SeatsHeld(all, pk) == r.booking.quantity + SeatsHeld(made, pk);
      } else {
        assert all == made;
      }
    }
  }

  /** One step of `Serve` is what `Post` does for a signed-in caller on an
      active show when the re-read finds the stored row: by `Post`'s contract
      the outcome is `Decide` with `latest == shows[pk]`, a confirmation stores
      `Taken(shows[pk], quantity)` and appends the booking, and any other
      outcome writes nothing. */
  lemma ServeStepIsPost(shows: map<ShowId, ShowRow>, pk: ShowId, u: UserId, q: QuantityInput)
    requires pk in shows && shows[pk].isActive
    ensures var r := Decide(shows, pk, BookingRequest(true, u, q), shows[pk]);
      var (final, made) := Serve(pk, shows[pk], [Order(u, q)]);
      && (r.Confirmed? ==> made == [r.booking] && final == Taken(shows[pk], r.booking.quantity))
      && (!r.Confirmed? ==> made == [] && final == shows[pk])
  {
    assert [Order(u, q)][1..] == [];
  }

  /** A rejected order leaves the show as it was and books nothing. */
  lemma RejectionKeepsRow(pk: ShowId, show: ShowRow, orders: seq<Order>)
    requires orders != [] && !Book(pk, show, orders[0].user, orders[0].quantity, show).Confirmed?
    ensures Serve(pk, show, orders) == Serve(pk, show, orders[1..])
  {
    var (final, made) := Serve(pk, show, orders[1..]);
    assert [] + made == made;
  }

  /** Why the re-read alone does not guard the counter: two requests whose
      re-reads find the same row, ten free seats, are both confirmed for six
      seats each. Each save writes its own re-read row minus six, so the second
      save overwrites the first, and the ledger holds twelve seats of a
      ten-seat show while the counter shows only six sold. */
  lemma SameSnapshotOversells(pk: ShowId, u1: UserId, u2: UserId)
    ensures var row := ShowRow(10, 10, 2000, true);
      var first := Decide(map[pk := row], pk, BookingRequest(true, u1, Int(6)), row);
      var second := Decide(map[pk := row], pk, BookingRequest(true, u2, Int(6)), row);
      && first.Confirmed? && second.Confirmed?
      && SeatsHeld([first.booking, second.booking], pk) == 12
      && Taken(row, second.booking.quantity).Booked() == 6
  {
    var row := ShowRow(10, 10, 2000, true);
    assert LookUp(map[pk := row], pk) == Some(row);
    var b1, b2 := Booking(u1, pk, 6, 12000), Booking(u2, pk, 6, 12000);
    assert [b1, b2][1..] == [b2];
    assert [b2][1..] == [];
    assert SeatsHeld([b2], pk) == 6;
  }

  /** Ten seats at 20.00: three are booked for 60.00, leaving seven; a
      following request for eight is refused and the seven remain. */
  lemma ScenarioThreeThenEight(pk: ShowId, u: UserId)
    ensures var show := ShowRow(10, 10, 2000, true);
      var (final, made) := Serve(pk, show, [Order(u, Int(3)), Order(u, Int(8))]);
      && made == [Booking(u, pk, 3, 6000)]
      && final == ShowRow(10, 7, 2000, true)
      && Book(pk, ShowRow(10, 7, 2000, true), u, Int(8), ShowRow(10, 7, 2000, true)) == Rejected([OnlyAvailable(7)])
  {
    var show := ShowRow(10, 10, 2000, true);
    assert Book(pk, show, u, Int(3), show) == Confirmed(Booking(u, pk, 3, 6000));
    var seven := ShowRow(10, 7, 2000, true);
    assert Taken(show, 3) == seven;
    assert Book(pk, seven, u, Int(8), seven) == Rejected([OnlyAvailable(7)]);
    assert [Order(u, Int(3)), Order(u, Int(8))][1..] == [Order(u, Int(8))];
    assert Serve(pk, seven, [Order(u, Int(8))]) == (seven, []);
  }
}

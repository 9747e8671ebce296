/** The administrator's show management (`AdminShowCreateView.post`,
    `AdminShowUpdateView.post` and `AdminShowDeleteView.post`,
    ticketbooking/custom_admin/views.py).

    Every handler is open to superusers only; anyone else is sent to the login
    page. Create and update validate the whole form, collecting every error,
    and write nothing when there is one. Update revises the capacity, moving
    the available seats by the change in capacity so that the seats already
    sold stay sold. Delete refuses a show that has bookings. */
module AdminViews {
  import opened Models

  /** A numeric form field after `.strip()`: empty, not a number, or a number.
      Prices are given in whole cents. */
  datatype NumberInput = Blank | Malformed | Given(value: int)

  datatype Field = Title | Description | Date | Time | Location | TotalSeats | Price

  /** The create and update form. A text field is represented only by whether
      it is non-empty; `dateTimeParses` says whether the date and time, when
      both are given, parse as `%Y-%m-%d %H:%M`. */
  datatype ShowForm = ShowForm(
    title: bool, description: bool, date: bool, time: bool, location: bool,
    dateTimeParses: bool, totalSeats: NumberInput, price: NumberInput, isActive: bool)

  /** The messages the handlers can report, one constructor per message. */
  datatype AdminError =
    | Required(field: Field)  // "{Field} is required."
    | BadDateTime             // "Invalid date or time format. Use YYYY-MM-DD and HH:MM."
    | SeatsNotPositive        // "Total Seats must be a positive integer."
    | InvalidSeats            // "Invalid value for Total Seats."
    | BelowBooked(booked: int) // "Cannot reduce total seats below ... ({booked_quantity})."
    | NegativePrice           // "Price cannot be negative."
    | InvalidPrice            // "Invalid value for Price."

  /** What an administrator's request ends in. */
  datatype AdminOutcome =
    | LoginRedirect
    | NotFound
    | Invalid(errors: seq<AdminError>)
    | Saved(pk: ShowId)
    | Deleted
    | DeleteRefused

  /** The error list of one check: `[e]` when it fails, empty otherwise. */
  function Flag(fails: bool, e: AdminError): seq<AdminError>
  {
    if fails then [e] else []
  }

  /** The "is required" checks, in the order the form lists the fields. */
  function RequiredErrors(f: ShowForm): (errs: seq<AdminError>)
    ensures errs == [] <==>
      f.title && f.description && f.date && f.time && f.location && !f.totalSeats.Blank? && !f.price.Blank?
    ensures forall i :: 0 <= i < |errs| ==> errs[i].Required?
  {
    Flag(!f.title, Required(Title))
    + Flag(!f.description, Required(Description))
    + Flag(!f.date, Required(Date))
    + Flag(!f.time, Required(Time))
    + Flag(!f.location, Required(Location))
    + Flag(f.totalSeats.Blank?, Required(TotalSeats))
    + Flag(f.price.Blank?, Required(Price))
  }

  /** The date and time are parsed only when both are given. */
  function DateTimeErrors(f: ShowForm): (errs: seq<AdminError>)
    ensures errs == [] <==> !(f.date && f.time) || f.dateTimeParses
    ensures errs != [] ==> errs == [BadDateTime]
  {
    Flag(f.date && f.time && !f.dateTimeParses, BadDateTime)
  }

  /** The capacity checks. `booked` is the number of seats already sold, given
      on update only; the check against it runs even when the new capacity is
      not positive. */
  function SeatsErrors(ts: NumberInput, booked: Option<int>): (errs: seq<AdminError>)
    ensures errs == [] <==> ts.Blank? || (ts.Given? && ts.value > 0 && (booked.Some? ==> ts.value >= booked.value))
    ensures InvalidSeats in errs <==> ts.Malformed?
    ensures SeatsNotPositive in errs <==> ts.Given? && ts.value <= 0
    ensures booked.Some? ==> (BelowBooked(booked.value) in errs <==> ts.Given? && ts.value < booked.value)
    ensures booked.None? ==> forall i :: 0 <= i < |errs| ==> !errs[i].BelowBooked?
  {
    match ts
    case Blank => []
    case Malformed => [InvalidSeats]
    case Given(n) =>
      (if n <= 0 then [SeatsNotPositive] else [])
      + (if booked.Some? && n < booked.value then [BelowBooked(booked.value)] else [])
  }

  /** The price checks. */
  function PriceErrors(p: NumberInput): (errs: seq<AdminError>)
    ensures errs == [] <==> p.Blank? || (p.Given? && p.value >= 0)
    ensures InvalidPrice in errs <==> p.Malformed?
    ensures NegativePrice in errs <==> p.Given? && p.value < 0
  {
    match p
    case Blank => []
    case Malformed => [InvalidPrice]
    case Given(v) => if v < 0 then [NegativePrice] else []
  }

  /** A form both handlers accept: every field given, the date and time
      parse, a positive capacity and a price that is not negative. */
  predicate Acceptable(f: ShowForm)
  {
    && f.title && f.description && f.date && f.time && f.location && f.dateTimeParses
    && f.totalSeats.Given? && f.totalSeats.value > 0
    && f.price.Given? && f.price.value >= 0
  }

  /** Every error of the form, in the order the handlers append them; `booked`
      is given on update only. */
  function ShowFormErrors(f: ShowForm, booked: Option<int>): (errs: seq<AdminError>)
    ensures errs == [] <==> Acceptable(f) && (booked.Some? ==> f.totalSeats.value >= booked.value)
    ensures booked.Some? && (f.totalSeats.Given? && f.totalSeats.value < booked.value) ==> BelowBooked(booked.value) in errs
  {
    var errs := RequiredErrors(f) + DateTimeErrors(f) + SeatsErrors(f.totalSeats, booked) + PriceErrors(f.price);
    assert booked.Some? && (f.totalSeats.Given? && f.totalSeats.value < booked.value) ==>
      BelowBooked(booked.value) in SeatsErrors(f.totalSeats, booked);
    errs
  }

  /** The row an accepted update writes: the new capacity, the available seats
      moved by the change in capacity and floored at zero, the new price and
      visibility. */
  function Revised(row: ShowRow, newTotal: nat, price: nat, isActive: bool): (r: ShowRow)
    ensures r.totalSeats == newTotal && r.price == price && r.isActive == isActive
    ensures newTotal >= row.Booked() ==>
      r.availableSeats == row.availableSeats + (newTotal - row.totalSeats) && r.Booked() == row.Booked()
    ensures newTotal < row.Booked() ==> r.availableSeats == 0
    ensures row.Consistent() ==> r.Consistent()
  {
    var available := row.availableSeats + (newTotal - row.totalSeats);
    ShowRow(newTotal, if available < 0 then 0 else available, price, isActive)
  }

  /** One check of the form: appends `e` to `errors` when the check fails. */
  method Check(errors: seq<AdminError>, fails: bool, e: AdminError) returns (errors': seq<AdminError>)
    ensures errors' == errors + Flag(fails, e)
  {
    errors' := errors;
    if fails {
      errors' := errors' + [e];
    }
  }

  /** The "is required" checks, starting from an empty error list. */
  method CheckRequired(f: ShowForm) returns (errors: seq<AdminError>)
    ensures errors == RequiredErrors(f)
  {
    errors := Check([], !f.title, Required(Title));
    assert errors == Flag(!f.title, Required(Title));
    errors := Check(errors, !f.description, Required(Description));
    errors := Check(errors, !f.date, Required(Date));
    errors := Check(errors, !f.time, Required(Time));
    errors := Check(errors, !f.location, Required(Location));
    errors := Check(errors, f.totalSeats.Blank?, Required(TotalSeats));
    errors := Check(errors, f.price.Blank?, Required(Price));
  }

  /** The capacity checks, appended to `errors`. */
  method CheckSeats(errors: seq<AdminError>, ts: NumberInput, booked: Option<int>) returns (errors': seq<AdminError>)
    ensures errors' == errors + SeatsErrors(ts, booked)
  {
    errors' := errors;
    match ts {
      case Blank =>
      case Malformed =>
        errors' := errors' + [InvalidSeats];
      case Given(n) =>
        if n <= 0 {
          errors' := errors' + [SeatsNotPositive];
        }
        if booked.Some? && n < booked.value {
          errors' := errors' + [BelowBooked(booked.value)];
        }
    }
  }

  /** The price checks, appended to `errors`. */
  method CheckPrice(errors: seq<AdminError>, p: NumberInput) returns (errors': seq<AdminError>)
    ensures errors' == errors + PriceErrors(p)
  {
    errors' := errors;
    match p {
      case Blank =>
      case Malformed =>
        errors' := errors' + [InvalidPrice];
      case Given(v) =>
        if v < 0 {
          errors' := errors' + [NegativePrice];
        }
    }
  }

  /** The form checks, in the order the handlers make them. */
  method ValidateForm(f: ShowForm, booked: Option<int>) returns (errors: seq<AdminError>)
    ensures errors == ShowFormErrors(f, booked)
  {
    errors := CheckRequired(f);
    errors := Check(errors, f.date && f.time && !f.dateTimeParses, BadDateTime);
    errors := CheckSeats(errors, f.totalSeats, booked);
    errors := CheckPrice(errors, f.price);
  }

  /** `AdminShowCreateView.post`. A new show starts with every seat available. */
  method CreatePost(db: Database, isSuperuser: bool, f: ShowForm) returns (outcome: AdminOutcome)
    requires db.Valid()
    modifies db
    ensures db.Valid()
    ensures !isSuperuser ==> outcome == LoginRedirect
    ensures isSuperuser && ShowFormErrors(f, None) != [] ==> outcome == Invalid(ShowFormErrors(f, None))
    ensures isSuperuser && ShowFormErrors(f, None) == [] ==>
      && outcome == Saved(old(db.nextShowId))
      && db.shows == old(db.shows)[outcome.pk := ShowRow(f.totalSeats.value, f.totalSeats.value, f.price.value, f.isActive)]
      && db.nextShowId == old(db.nextShowId) + 1
    ensures outcome.Saved? ==> outcome.pk !in old(db.shows) && db.shows[outcome.pk].Booked() == 0
    ensures !outcome.Saved? ==> db.shows == old(db.shows) && db.nextShowId == old(db.nextShowId)
    ensures db.bookings == old(db.bookings)
    ensures old(db.Reconciled()) ==> db.Reconciled()
  {
    if !isSuperuser {
      return LoginRedirect;
    }
    var errors := ValidateForm(f, None);
    if errors != [] {
      return Invalid(errors);
    }
    // The form gives no available seats; the first save sets them.
    var show := new Show(f.totalSeats.value, 0, f.price.value, f.isActive);
    show.Save(db);
    outcome := Saved(show.pk);
    forall i | 0 <= i < |db.bookings|
      ensures db.bookings[i].show != show.pk
    {
      assert db.bookings[i].show in old(db.shows);
    }
    SeatsHeldUnreferenced(db.bookings, show.pk);
  }

  /** `AdminShowUpdateView.post`. An accepted update revises the capacity and
      keeps the seats already sold; a rejected one writes nothing. */
  method UpdatePost(db: Database, isSuperuser: bool, pk: ShowId, f: ShowForm) returns (outcome: AdminOutcome)
    requires db.Valid()
    modifies db
    ensures db.Valid()
    ensures !isSuperuser ==> outcome == LoginRedirect
    ensures isSuperuser && pk !in old(db.shows) ==> outcome == NotFound
    ensures isSuperuser && pk in old(db.shows) ==>
      var errs := ShowFormErrors(f, Some(old(db.shows[pk]).Booked()));
      outcome == if errs == [] then Saved(pk) else Invalid(errs)
    ensures outcome.Saved? ==>
      && db.shows == old(db.shows)[pk := Revised(old(db.shows[pk]), f.totalSeats.value, f.price.value, f.isActive)]
      && db.shows[pk].Booked() == old(db.shows[pk]).Booked()
    ensures !outcome.Saved? ==> db.shows == old(db.shows)
    ensures db.bookings == old(db.bookings) && db.nextShowId == old(db.nextShowId)
    ensures old(db.Reconciled()) ==> db.Reconciled()
  {
    if !isSuperuser {
      return LoginRedirect;
    }
    if pk !in db.shows {
      return NotFound;
    }
    var show := new Show.Fetched(pk, db.shows[pk]);
    var errors := ValidateForm(f, Some(show.totalSeats - show.availableSeats));
    if errors != [] {
      return Invalid(errors);
    }
    var oldTotal := show.totalSeats;
    var newTotal := f.totalSeats.value;
    show.totalSeats := newTotal;
    var available := show.availableSeats + (newTotal - oldTotal);
    show.price := f.price.value;
    show.isActive := f.isActive;
    if available < 0 {
      available := 0;
    }
    show.availableSeats := available;
    show.Save(db);
    outcome := Saved(pk);
  }

  /** `AdminShowDeleteView.post`. A show with bookings is kept, so no booking
      ever loses its show; one without is removed. */
  method DeletePost(db: Database, isSuperuser: bool, pk: ShowId) returns (outcome: AdminOutcome)
    requires db.Valid()
    modifies db
    ensures db.Valid()
    ensures !isSuperuser ==> outcome == LoginRedirect
    ensures isSuperuser && pk !in old(db.shows) ==> outcome == NotFound
    ensures isSuperuser && pk in old(db.shows) ==> outcome == if old(db.HasBookings(pk)) then DeleteRefused else Deleted
    ensures outcome.Deleted? ==> db.shows == old(db.shows) - {pk}
    ensures !outcome.Deleted? ==> db.shows == old(db.shows)
    ensures db.bookings == old(db.bookings) && db.nextShowId == old(db.nextShowId)
    ensures old(db.Reconciled()) ==> db.Reconciled()
  {
    if !isSuperuser {
      return LoginRedirect;
    }
    if pk !in db.shows {
      return NotFound;
    }
    if db.HasBookings(pk) {
      return DeleteRefused;
    }
    db.DeleteShow(pk);
    outcome := Deleted;
  }

  // ------------------------------------------------------------------
  // Properties of the specification

  /** An accepted update never needs the floor at zero: the guard against the
      seats sold already keeps the available seats from going negative, the
      seats sold stay the same and the row stays consistent. */
  lemma AcceptedUpdateKeepsBooked(row: ShowRow, f: ShowForm)
    requires row.Consistent()
    requires ShowFormErrors(f, Some(row.Booked())) == []
    ensures f.totalSeats.Given? && f.totalSeats.value > 0 && f.price.Given? && f.price.value >= 0
    ensures row.availableSeats + (f.totalSeats.value - row.totalSeats) >= 0
    ensures var r := Revised(row, f.totalSeats.value, f.price.value, f.isActive);
      && r.totalSeats == f.totalSeats.value
      && r.availableSeats == row.availableSeats + (f.totalSeats.value - row.totalSeats)
      && r.Booked() == row.Booked() && r.Consistent()
  {
  }

  /** A capacity below the seats sold is refused with an error naming them,
      whatever else the form says. */
  lemma BelowBookedRefused(row: ShowRow, f: ShowForm)
    requires f.totalSeats.Given? && f.totalSeats.value < row.Booked()
    ensures BelowBooked(row.Booked()) in ShowFormErrors(f, Some(row.Booked()))
  {
  }

  /** A form filled in correctly apart from its capacity and price. */
  function FormWith(totalSeats: int, price: int): ShowForm
  {
    ShowForm(true, true, true, true, true, true, Given(totalSeats), Given(price), true)
  }

  /** 100 seats with 40 available (60 sold): revising to 50 is refused
      naming the 60 sold seats, revising to 80 leaves 20 available. */
  lemma ScenarioCapacityRevision(price: nat)
    ensures ShowFormErrors(FormWith(50, price), Some(ShowRow(100, 40, price, true).Booked())) == [BelowBooked(60)]
    ensures ShowFormErrors(FormWith(80, price), Some(ShowRow(100, 40, price, true).Booked())) == []
    ensures Revised(ShowRow(100, 40, price, true), 80, price, true).availableSeats == 20
  {
    assert RequiredErrors(FormWith(50, price)) == [];
    assert SeatsErrors(Given(50), Some(60)) == [BelowBooked(60)];
  }
}

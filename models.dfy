/** The Show and Booking records and the storage that holds them
    (ticketbooking/shows/models.py, ticketbooking/bookings/models.py).

    Only the seat and price columns of a show are modelled; title, description,
    date and location are plain text and take no part in seat accounting.
    Prices are whole cents. */
module Models {

  type ShowId = nat
  type UserId = nat

  datatype Option<T> = None | Some(value: T)

  /** The seat, price and visibility columns of one stored show.
      Both seat columns are PositiveIntegerFields, so they are never negative. */
  datatype ShowRow = ShowRow(totalSeats: nat, availableSeats: nat, price: nat, isActive: bool)
  {
    /** Seats already sold. */
    function Booked(): (b: int)
      ensures Consistent() <==> 0 <= b
      ensures Consistent() ==> b <= totalSeats
    {
      totalSeats - availableSeats
    }

    /** The seat counter stays between zero and the capacity. */
    predicate Consistent() { availableSeats <= totalSeats }
  }

  /** A booking row; it is never changed after it is created. */
  datatype Booking = Booking(user: UserId, show: ShowId, quantity: nat, totalPrice: nat)

  /** The number of seats the bookings in `bookings` hold for show `pk`. */
  function SeatsHeld(bookings: seq<Booking>, pk: ShowId): nat
  {
    if bookings == [] then 0
    else (if bookings[0].show == pk then bookings[0].quantity else 0) + SeatsHeld(bookings[1..], pk)
  }

  /** Appending a booking adds its quantity to its own show and nothing to any other. */
  lemma {:induction false} SeatsHeldAppend(bookings: seq<Booking>, b: Booking, pk: ShowId)
    ensures SeatsHeld(bookings + [b], pk) == SeatsHeld(bookings, pk) + (if b.show == pk then b.quantity else 0)
  {
    if bookings == [] {
      assert bookings + [b] == [b];
      assert [b][1..] == [];
    } else {
      assert (bookings + [b])[1..] == bookings[1..] + [b];
      SeatsHeldAppend(bookings[1..], b, pk);
    }
  }

  /** A show that no booking references holds no seats. */
  lemma {:induction false} SeatsHeldUnreferenced(bookings: seq<Booking>, pk: ShowId)
    requires forall i :: 0 <= i < |bookings| ==> bookings[i].show != pk
    ensures SeatsHeld(bookings, pk) == 0
  {
    if bookings != [] {
      assert bookings[0].show != pk;
      assert forall i :: 0 <= i < |bookings[1..]| ==> bookings[1..][i] == bookings[i + 1];
      SeatsHeldUnreferenced(bookings[1..], pk);
    }
  }

  /** The storage collaborator: the Show table, the Booking table and the
      counter that hands out fresh primary keys. */
  class Database {
    var shows: map<ShowId, ShowRow>
    var bookings: seq<Booking>
    var nextShowId: ShowId

    /** Every stored show is consistent and has a key below the next one handed out,
        and every booking references a stored show. */
    ghost predicate Valid()
      reads this
    {
      && (forall pk :: pk in shows ==> shows[pk].Consistent() && pk < nextShowId)
      && (forall i :: 0 <= i < |bookings| ==> bookings[i].show in shows)
    }

    /** The ledger invariant: a show's sold seats are exactly the seats its bookings hold. */
    ghost predicate Reconciled()
      reads this
    {
      forall pk :: pk in shows ==> shows[pk].Booked() == SeatsHeld(bookings, pk)
    }

    /** `Booking.objects.filter(show=show).exists()` */
    predicate HasBookings(pk: ShowId): (r: bool)
      reads this
      ensures !r ==> SeatsHeld(bookings, pk) == 0
    {
      if exists i :: 0 <= i < |bookings| && bookings[i].show == pk then true
      else SeatsHeldUnreferenced(bookings, pk); false
    }

    constructor ()
      ensures Valid() && Reconciled()
      ensures shows == map[] && bookings == [] && nextShowId == 0
    {
      shows := map[];
      bookings := [];
      nextShowId := 0;
    }

    /** Hands out the primary key for a new row. */
    method Allocate() returns (pk: ShowId)
      modifies this
      ensures pk == old(nextShowId) && nextShowId == pk + 1
      ensures (forall k :: k in old(shows) ==> k < old(nextShowId)) ==> pk !in shows
      ensures shows == old(shows) && bookings == old(bookings)
    {
      pk := nextShowId;
      nextShowId := nextShowId + 1;
    }

    /** Inserts or overwrites the row with key `pk`. */
    method WriteShow(pk: ShowId, row: ShowRow)
      modifies this
      ensures shows == old(shows)[pk := row]
      ensures bookings == old(bookings) && nextShowId == old(nextShowId)
    {
      shows := shows[pk := row];
    }

    /** `Booking.objects.create(...)` */
    method InsertBooking(b: Booking)
      modifies this
      ensures bookings == old(bookings) + [b]
      ensures shows == old(shows) && nextShowId == old(nextShowId)
    {
      bookings := bookings + [b];
    }

    /** `show.delete()`; the cascade to bookings is never reached, because the only
        caller deletes a show only when no booking references it. */
    method DeleteShow(pk: ShowId)
      requires !HasBookings(pk)
      modifies this
      ensures shows == old(shows) - {pk}
      ensures bookings == old(bookings) && nextShowId == old(nextShowId)
    {
      shows := shows - {pk};
    }
  }

  /** An in-memory Show instance. `adding` is Django's `_state.adding`: true
      until the instance has been saved once. */
  class Show {
    var pk: ShowId
    var adding: bool
    var totalSeats: nat
    var availableSeats: nat
    var price: nat
    var isActive: bool

    /** The columns this instance would write. */
    function Row(): ShowRow
      reads this
    {
      ShowRow(totalSeats, availableSeats, price, isActive)
    }

    /** A new, unsaved show; `is_active` defaults to true. */
    constructor (totalSeats: nat, availableSeats: nat, price: nat, isActive: bool := true)
      ensures adding
      ensures Row() == ShowRow(totalSeats, availableSeats, price, isActive)
    {
      this.pk := 0;
      this.adding := true;
      this.totalSeats := totalSeats;
      this.availableSeats := availableSeats;
      this.price := price;
      this.isActive := isActive;
    }

    /** An instance loaded from the stored row `row` with key `pk`. */
    constructor Fetched(pk: ShowId, row: ShowRow)
      ensures !adding && this.pk == pk && Row() == row
    {
      this.pk := pk;
      this.adding := false;
      this.totalSeats := row.totalSeats;
      this.availableSeats := row.availableSeats;
      this.price := row.price;
      this.isActive := row.isActive;
    }

    /** `Show.save`: on the first save the available seats are reset to the
        capacity, whatever the caller set; later saves write the fields as they are. */
    method Save(db: Database)
      modifies this, db
      ensures !adding
      ensures old(adding) ==> pk == old(db.nextShowId) && db.nextShowId == pk + 1
      ensures old(adding) ==> Row() == old(Row()).(availableSeats := old(totalSeats))
      ensures !old(adding) ==> pk == old(pk) && Row() == old(Row()) && db.nextShowId == old(db.nextShowId)
      ensures db.shows == old(db.shows)[pk := Row()]
      ensures db.bookings == old(db.bookings)
    {
      if adding {
        availableSeats := totalSeats;
        pk := db.Allocate();
      }
      db.WriteShow(pk, Row());
      adding := false;
    }

    /** `refresh_from_db`: reloads every column from the stored row. */
    method RefreshFromDb(db: Database)
      requires pk in db.shows
      modifies this
      ensures pk == old(pk) && adding == old(adding)
      ensures Row() == db.shows[pk]
    {
      var row := db.shows[pk];
      totalSeats := row.totalSeats;
      availableSeats := row.availableSeats;
      price := row.price;
      isActive := row.isActive;
    }
  }
}

/**
 * The POST handler of process_booking.php: validate the form, and only when
 * no rule objects, build the booking row (reference, duration, price) and
 * insert it into the bookings table; otherwise, or when the insert fails,
 * go back to the form with the messages.
 */
module BookingSubmission {
  import opened Wrappers
  import opened Pricing
  import opened Reference
  import opened Validation
  import opened Availability
  import opened BookingApi

  /** A row of the bookings table, without booking_date (set by the database clock). */
  datatype BookingRow = BookingRow(
    reference: string,
    fullName: string,
    email: string,
    phone: string,
    participants: int,
    destination: string,
    tourPackage: string,
    departureDate: string,
    returnDate: string,
    duration: nat,
    totalPrice: real,
    specialRequirements: Option<string>,
    status: string)

  const Pending: string := "pending"

  /**
   * The row inserted for a submission that passed validation; `clockDate` is
   * the server's date and `draw` the value of rand(1000, 9999).
   */
  function NewBooking(s: Submission, db: map<string, real>, clockDate: CalendarDate, draw: int): (b: BookingRow)
    requires Errors(s) == []
    requires ValidDate(clockDate) && 1000 <= draw <= 9999
    ensures b.reference == BookingReference(clockDate, draw)
    ensures 1 <= b.participants <= 20
    ensures b.duration == s.returnDay - s.departureDay >= 1
    ensures b.totalPrice == TotalPrice(db, b.destination, b.participants, b.tourPackage)
    ensures b.status == Pending
  {
    ErrorsEmptyIffAcceptable(s);
    AcceptedDuration(s);
    var f := s.form;
    var participants := f.participants.value;
    BookingRow(
      BookingReference(clockDate, draw),
      f.fullName.value, f.email.value, f.phone.value,
      participants, f.destination.value, f.tourPackage.value,
      f.departureDate.value, f.returnDate.value,
      Duration(s.departureDay, s.returnDay),
      TotalPrice(db, f.destination.value, participants, f.tourPackage.value),
      f.specialRequirements,
      Pending)
  }

  /** A passed booking keeps the form's values, and its reference is the day's stamp and the draw. */
  lemma NewBookingKeepsForm(s: Submission, db: map<string, real>, clockDate: CalendarDate, draw: int)
    requires Errors(s) == []
    requires ValidDate(clockDate) && clockDate.year <= 9999 && 1000 <= draw <= 9999
    ensures var b := NewBooking(s, db, clockDate, draw);
      && Some(b.fullName) == s.form.fullName && Some(b.email) == s.form.email
      && Some(b.participants) == s.form.participants
      && Some(b.phone) == s.form.phone
      && Some(b.destination) == s.form.destination && Some(b.tourPackage) == s.form.tourPackage
      && Some(b.departureDate) == s.form.departureDate && Some(b.returnDate) == s.form.returnDate
      && b.specialRequirements == s.form.specialRequirements
      && ParseReference(b.reference) == Some((clockDate, draw))
  {
    ErrorsEmptyIffAcceptable(s);
    ReferenceRoundTrip(clockDate, draw);
  }

  /**
   * The booking handler and the check action price the same trip the same
   * way: one base price, one modifier table, one product.
   */
  lemma SameTotalOnBothPaths(s: Submission, db: map<string, real>, clockDate: CalendarDate, draw: int,
                             q: AvailabilityQuery, rows: seq<AvailabilityRow>)
    requires Errors(s) == []
    requires ValidDate(clockDate) && 1000 <= draw <= 9999
    requires q.destination == s.form.destination && q.participants == s.form.participants
    requires q.package == s.form.tourPackage
    requires CheckAvailability(q, rows, db).Available?
    ensures CheckAvailability(q, rows, db).totalPrice == NewBooking(s, db, clockDate, draw).totalPrice
  {
    ErrorsEmptyIffAcceptable(s);
  }

  /** The MySQL error text for a second row with the same booking reference. */
  function DuplicateEntry(reference: string): string {
    "Duplicate entry '" + reference + "' for key 'booking_reference'"
  }

  /** The bookings table, whose booking_reference column is UNIQUE. */
  class BookingStore {
    var rows: seq<BookingRow>

    /** No two rows share a reference. */
    predicate Valid()
      reads this
    {
      forall i, j :: 0 <= i < j < |rows| ==> rows[i].reference != rows[j].reference
    }

    predicate HasReference(reference: string)
      reads this
    {
      exists i :: 0 <= i < |rows| && rows[i].reference == reference
    }

    constructor()
      ensures rows == [] && Valid()
    {
      rows := [];
    }

    /** INSERT INTO bookings: refused, with the driver's message, when the reference is taken. */
    method Insert(row: BookingRow) returns (failure: Option<string>)
      requires Valid()
      modifies this
      ensures Valid()
      ensures old(HasReference(row.reference)) ==> failure == Some(DuplicateEntry(row.reference)) && rows == old(rows)
      ensures !old(HasReference(row.reference)) ==> failure == None && rows == old(rows) + [row]
    {
      if HasReference(row.reference) {
        failure := Some(DuplicateEntry(row.reference));
      } else {
        rows := rows + [row];
        failure := None;
      }
    }
  }

  /** Where the handler sends the browser. */
  datatype SubmitOutcome =
    | BackToForm(errors: seq<string>)   // errors kept in the session, redirect to index.php#booking
    | Confirmed(reference: string)      // redirect to booking_confirmation.php?ref=...

  const DatabaseErrorPrefix: string := "Database error: "

  /**
   * The POST handler. A booking is stored exactly when validation passes and
   * the reference is free; the store is otherwise left as it was.
   */
  method SubmitBooking(store: BookingStore, s: Submission, db: map<string, real>, clockDate: CalendarDate, draw: int)
    returns (outcome: SubmitOutcome)
    requires store.Valid()
    requires ValidDate(clockDate) && 1000 <= draw <= 9999
    modifies store
    ensures store.Valid()
    ensures Errors(s) != [] ==> outcome == BackToForm(Errors(s)) && store.rows == old(store.rows)
    ensures Errors(s) == [] ==>
      var b := NewBooking(s, db, clockDate, draw);
      if old(store.HasReference(b.reference))
      then outcome == BackToForm([DatabaseErrorPrefix + DuplicateEntry(b.reference)]) && store.rows == old(store.rows)
      else outcome == Confirmed(b.reference) && store.rows == old(store.rows) + [b]
  {
    var errors := Validate(s);
    if errors == [] {
      var booking := NewBooking(s, db, clockDate, draw);
      var failure := store.Insert(booking);
      if failure.None? {
        return Confirmed(booking.reference);
      }
      errors := errors + [DatabaseErrorPrefix + failure.value];
    }
    outcome := BackToForm(errors);
  }
}

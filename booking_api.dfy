/**
 * The two JSON actions of process_booking.php: `get_dates`, which lists the
 * bookable dates of a destination, and `check_availability`, which decides
 * whether a group fits on the chosen dates and prices the trip.
 */
module BookingApi {
  import opened Wrappers
  import opened Php
  import opened Decimal
  import opened Pricing
  import opened Availability

  /** The `get_dates` reply: an error object, or the list of dates. */
  datatype DatesResponse = DatesError(error: string) | Dates(dates: seq<DateSpots>)

  const DestinationRequired: string := "Destination is required"

  /** The `get_dates` action; `today` is CURDATE() as a day number. */
  function GetDates(destination: Option<string>, rows: seq<AvailabilityRow>, today: int): (r: DatesResponse)
    ensures r.DatesError? <==> Empty(destination)
    ensures r.DatesError? ==> r.error == DestinationRequired
    ensures r.Dates? ==> SortedByDay(r.dates)
    ensures r.Dates? ==> multiset(r.dates) == multiset(Matching(rows, destination.value, today))
    ensures r.Dates? ==> forall ds :: ds in r.dates <==>
      exists i :: 0 <= i < |rows| && rows[i].destination == destination.value
                  && rows[i].day >= today && rows[i].spots > 0 && Entry(rows[i]) == ds
    ensures r.Dates? ==> forall ds :: ds in r.dates ==> ds.day >= today && ds.spots > 0
  {
    if Empty(destination) then DatesError(DestinationRequired)
    else
      AvailableDatesBookable(rows, destination.value, today);
      assert forall ds :: ds in AvailableDates(rows, destination.value, today) <==>
        exists i :: 0 <= i < |rows| && rows[i].destination == destination.value
                    && rows[i].day >= today && rows[i].spots > 0 && Entry(rows[i]) == ds
      by {
        forall ds {
          AvailableDatesExactly(rows, destination.value, today, ds);
        }
      }
      Dates(AvailableDates(rows, destination.value, today))
  }

  /** The GET parameters of `check_availability`, with the two dates as day numbers. */
  datatype AvailabilityQuery = AvailabilityQuery(
    destination: Option<string>,
    departureDate: Option<string>,
    returnDate: Option<string>,
    participants: Option<int>,
    package: Option<string>,
    departureDay: int,
    returnDay: int)

  /** The `check_availability` reply. */
  datatype CheckResponse =
    | CheckError(error: string)
    | Available(spotsAvailable: int, totalPrice: real)
    | Unavailable(message: string)

  const AllFieldsRequired: string := "All fields are required"
  const NoInformation: string := "No availability information found for the selected dates"
  const ShortPrefix: string := "Only "
  const ShortSuffix: string := " spots available for the selected dates"

  /** The no-information message starts with "N". */
  lemma NoInformationInitial()
    ensures NoInformation[0] == 'N'
  {
    assert NoInformation == "No availability information " + "found for the selected dates";
    assert ("No availability information " + "found for the selected dates")[0] == "No availability information "[0];
  }

  /** The unavailable message naming how many spots are left. */
  function ShortMessage(spots: int): (msg: string)
    ensures msg != NoInformation
  {
    assert (ShortPrefix + IntText(spots) + ShortSuffix)[0] == 'O';
    NoInformationInitial();
    ShortPrefix + IntText(spots) + ShortSuffix
  }

  /** Reads the spot count back out of an unavailable message. */
  function SpotsInMessage(msg: string): Option<int> {
    if |msg| >= |ShortPrefix| + |ShortSuffix|
      && msg[..|ShortPrefix|] == ShortPrefix && msg[|msg| - |ShortSuffix|..] == ShortSuffix
    then ParseInt(msg[|ShortPrefix|..|msg| - |ShortSuffix|])
    else None
  }

  /** The message carries the spot count it was built from. */
  lemma ShortMessageRoundTrip(spots: int)
    ensures SpotsInMessage(ShortMessage(spots)) == Some(spots)
  {
    var msg := ShortMessage(spots);
    var text := IntText(spots);
    assert msg[..|ShortPrefix|] == ShortPrefix;
    assert msg[|msg| - |ShortSuffix|..] == ShortSuffix;
    assert msg[|ShortPrefix|..|msg| - |ShortSuffix|] == text;
    IntTextRoundTrip(spots);
  }

  /** The input guard: a missing field, or a participant count that is missing, 0 or negative. */
  predicate MissingField(q: AvailabilityQuery) {
    Empty(q.destination) || Empty(q.departureDate) || Empty(q.returnDate)
    || EmptyInt(q.participants) || q.participants.value < 1
  }

  /**
   * The `check_availability` action over the availability table `rows` and
   * the destinations table `db`.
   */
  function CheckAvailability(q: AvailabilityQuery, rows: seq<AvailabilityRow>, db: map<string, real>): (r: CheckResponse)
    ensures r.CheckError? <==> MissingField(q)
    ensures r.CheckError? ==> r.error == AllFieldsRequired
    ensures !MissingField(q) ==>
      (r.Available? <==>
        (exists i :: 0 <= i < |rows| && InRange(rows[i], q.destination.value, q.departureDay, q.returnDay))
        && forall i :: 0 <= i < |rows| && InRange(rows[i], q.destination.value, q.departureDay, q.returnDay)
             ==> rows[i].spots >= q.participants.value)
    ensures !MissingField(q) ==>
      (r == Unavailable(NoInformation) <==>
        forall i :: 0 <= i < |rows| ==> !InRange(rows[i], q.destination.value, q.departureDay, q.returnDay))
    ensures r.Available? ==>
      && r.spotsAvailable >= q.participants.value
      && r.totalPrice == TotalPrice(db, q.destination.value, q.participants.value, q.package.GetOr(""))
  {
    if MissingField(q) then CheckError(AllFieldsRequired)
    else
      var participants := q.participants.value;
      var destination := q.destination.value;
      match MinSpots(rows, destination, q.departureDay, q.returnDay)
      case None => Unavailable(NoInformation)
      case Some(spots) =>
        if spots >= participants
        then Available(spots, TotalPrice(db, destination, participants, q.package.GetOr("")))
        else Unavailable(ShortMessage(spots))
  }

  /** The spot count a reply reports, as the smallest count over the range. */
  lemma ReportedSpotsAreMinimum(q: AvailabilityQuery, rows: seq<AvailabilityRow>, db: map<string, real>)
    requires !MissingField(q)
    ensures var r := CheckAvailability(q, rows, db);
      var m := MinSpots(rows, q.destination.value, q.departureDay, q.returnDay);
      && (r.Available? ==> m == Some(r.spotsAvailable))
      && (r.Unavailable? && r.message != NoInformation ==>
            m.Some? && m.value < q.participants.value && SpotsInMessage(r.message) == m)
  {
    var m := MinSpots(rows, q.destination.value, q.departureDay, q.returnDay);
    if m.Some? {
      ShortMessageRoundTrip(m.value);
    }
  }

  /** The check action sets no upper bound on the group: 25 travellers fit when 30 spots are left every day. */
  lemma LargeGroupScenario()
    ensures var q := AvailabilityQuery(Some("amazon"), Some("2026-11-02"), Some("2026-11-04"), Some(25), Some("river"), 2, 4);
      var rows := [AvailabilityRow("amazon", 2, 30), AvailabilityRow("amazon", 3, 30), AvailabilityRow("amazon", 4, 30)];
      CheckAvailability(q, rows, map[]) == Available(30, 2299.0 * 25.0 * 1.2)
  {
  }

  /**
   * Four travellers to the Amazon over days 10..12, where the tightest day has
   * 3 spots: the reply says only 3 are left. The Borneo row and the day-13 row
   * are outside the query.
   */
  lemma ShortOfSpotsScenario()
    ensures var q := AvailabilityQuery(Some("amazon"), Some("2026-11-10"), Some("2026-11-12"), Some(4), Some("river"), 10, 12);
      var rows := [AvailabilityRow("amazon", 10, 5), AvailabilityRow("borneo", 11, 1),
                   AvailabilityRow("amazon", 11, 3), AvailabilityRow("amazon", 12, 8), AvailabilityRow("amazon", 13, 2)];
      CheckAvailability(q, rows, map[]) == Unavailable(ShortMessage(3))
  {
    var rows := [AvailabilityRow("amazon", 10, 5), AvailabilityRow("borneo", 11, 1),
                 AvailabilityRow("amazon", 11, 3), AvailabilityRow("amazon", 12, 8), AvailabilityRow("amazon", 13, 2)];
    assert MinSpots(rows[..1], "amazon", 10, 12) == Some(5);
    assert MinSpots(rows[..2], "amazon", 10, 12) == Some(5);
    assert MinSpots(rows[..3], "amazon", 10, 12) == Some(3);
    assert MinSpots(rows[..4], "amazon", 10, 12) == Some(3);
  }
}

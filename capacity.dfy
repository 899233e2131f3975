/**
 * check_availability.php: the capacity lookup behind the booking form. It
 * reports the smallest spot count over the chosen dates, and a full tour of
 * 20 when the table has nothing for them.
 */
module CapacityLookup {
  import opened Wrappers
  import opened Php
  import opened Availability
  import opened BookingApi

  /** The POSTed parameters (`?? ''` turns a missing one into None here), with the dates as day numbers. */
  datatype CapacityRequest = CapacityRequest(
    destination: Option<string>,
    departureDate: Option<string>,
    returnDate: Option<string>,
    departureDay: int,
    returnDay: int)

  /** The JSON reply: an error object, or the number of spots. */
  datatype CapacityResponse = CapacityError(error: string) | Capacity(available: int)

  const MissingParameters: string := "Missing required parameters"

  /** Spots assumed when no row covers the dates. */
  const FullCapacity: int := 20

  /** The lookup over the capacity table `rows`. */
  function CheckCapacity(req: CapacityRequest, rows: seq<AvailabilityRow>): (r: CapacityResponse)
    ensures r.CapacityError? <==> Empty(req.destination) || Empty(req.departureDate) || Empty(req.returnDate)
    ensures r.CapacityError? ==> r.error == MissingParameters
    ensures r.Capacity? ==>
      forall i :: 0 <= i < |rows| && InRange(rows[i], req.destination.value, req.departureDay, req.returnDay)
        ==> r.available <= rows[i].spots
    ensures r.Capacity? && (exists i :: 0 <= i < |rows| && InRange(rows[i], req.destination.value, req.departureDay, req.returnDay)) ==>
      exists i :: 0 <= i < |rows| && InRange(rows[i], req.destination.value, req.departureDay, req.returnDay)
        && rows[i].spots == r.available
    ensures r.Capacity? && (forall i :: 0 <= i < |rows| ==> !InRange(rows[i], req.destination.value, req.departureDay, req.returnDay)) ==>
      r.available == 20
  {
    if Empty(req.destination) || Empty(req.departureDate) || Empty(req.returnDate) then
      CapacityError(MissingParameters)
    else
      Capacity(MinSpots(rows, req.destination.value, req.departureDay, req.returnDay).GetOr(FullCapacity))
  }

  /**
   * On dates the table does not cover, the two endpoints disagree: this one
   * reports a full tour of 20, the booking page's check reports that nothing
   * is known.
   */
  lemma NoRowsEndpointsDisagree(req: CapacityRequest, q: AvailabilityQuery, rows: seq<AvailabilityRow>, db: map<string, real>)
    requires !Empty(req.destination) && !Empty(req.departureDate) && !Empty(req.returnDate)
    requires !MissingField(q) && q.destination == req.destination
    requires q.departureDay == req.departureDay && q.returnDay == req.returnDay
    requires forall i :: 0 <= i < |rows| ==> !InRange(rows[i], req.destination.value, req.departureDay, req.returnDay)
    ensures CheckCapacity(req, rows) == Capacity(20)
    ensures CheckAvailability(q, rows, db) == Unavailable(NoInformation)
  {
  }

  /** With rows in range, both endpoints see the same smallest count. */
  lemma EndpointsAgreeOnCoveredDates(req: CapacityRequest, q: AvailabilityQuery, rows: seq<AvailabilityRow>, db: map<string, real>)
    requires !Empty(req.destination) && !Empty(req.departureDate) && !Empty(req.returnDate)
    requires !MissingField(q) && q.destination == req.destination
    requires q.departureDay == req.departureDay && q.returnDay == req.returnDay
    ensures CheckAvailability(q, rows, db).Available? ==>
      CheckCapacity(req, rows) == Capacity(CheckAvailability(q, rows, db).spotsAvailable)
  {
  }
}

/**
 * The availability table and the two queries both endpoints run on it: the
 * smallest spot count of a destination over an inclusive range of days, and
 * the bookable dates of a destination from today on, in day order.
 * A date column is an integer day number.
 */
module Availability {
  import opened Wrappers

  /** One row of the availability table: (destination, date, spots). */
  datatype AvailabilityRow = AvailabilityRow(destination: string, day: int, spots: int)

  /** One entry of the date listing: (available_date, spots_available). */
  datatype DateSpots = DateSpots(day: int, spots: int)

  /** `destination = :destination AND date BETWEEN :from AND :to` */
  predicate InRange(row: AvailabilityRow, destination: string, from: int, to: int) {
    row.destination == destination && from <= row.day <= to
  }

  /**
   * The smallest spot count over the rows of `destination` whose day lies in
   * [from, to], or None when no row does (SQL MIN over no rows is NULL, and
   * ORDER BY ... ASC LIMIT 1 over no rows fetches nothing).
   */
  function MinSpots(rows: seq<AvailabilityRow>, destination: string, from: int, to: int): (m: Option<int>)
    ensures m.None? <==> forall i :: 0 <= i < |rows| ==> !InRange(rows[i], destination, from, to)
    ensures m.Some? ==> forall i :: 0 <= i < |rows| && InRange(rows[i], destination, from, to) ==> m.value <= rows[i].spots
    ensures m.Some? ==> exists i :: 0 <= i < |rows| && InRange(rows[i], destination, from, to) && rows[i].spots == m.value
  {
    if |rows| == 0 then None
    else
      var last := rows[|rows| - 1];
      var earlier := MinSpots(rows[..|rows| - 1], destination, from, to);
      if !InRange(last, destination, from, to) then earlier
      else if earlier.Some? && earlier.value <= last.spots then earlier
      else Some(last.spots)
  }

  /** Adding rows for other destinations or other days leaves the minimum as it was. */
  lemma {:induction false} MinSpotsIgnoresOutOfRange(rows: seq<AvailabilityRow>, extra: seq<AvailabilityRow>, destination: string, from: int, to: int)
    requires forall i :: 0 <= i < |extra| ==> !InRange(extra[i], destination, from, to)
    ensures MinSpots(rows + extra, destination, from, to) == MinSpots(rows, destination, from, to)
  {
    if |extra| > 0 {
      var front := extra[..|extra| - 1];
      assert (rows + extra)[..|rows + extra| - 1] == rows + front;
      assert (rows + extra)[|rows + extra| - 1] == extra[|extra| - 1];
      assert !InRange(extra[|extra| - 1], destination, from, to);
      MinSpotsIgnoresOutOfRange(rows, front, destination, from, to);
      assert MinSpots(rows + extra, destination, from, to) == MinSpots(rows + front, destination, from, to);
    } else {
      assert rows + extra == rows;
    }
  }

  /** `destination = :destination AND available_date >= CURDATE() AND spots_available > 0` */
  predicate Listed(row: AvailabilityRow, destination: string, today: int) {
    row.destination == destination && row.day >= today && row.spots > 0
  }

  /** The two selected columns of a row. */
  function Entry(row: AvailabilityRow): DateSpots {
    DateSpots(row.day, row.spots)
  }

  /** The selected columns of the listed rows, in table order. */
  function Matching(rows: seq<AvailabilityRow>, destination: string, today: int): (r: seq<DateSpots>)
    ensures |r| <= |rows|
    ensures forall ds :: ds in r <==> exists i :: 0 <= i < |rows| && Listed(rows[i], destination, today) && Entry(rows[i]) == ds
  {
    if |rows| == 0 then []
    else
      var earlier := Matching(rows[..|rows| - 1], destination, today);
      var last := rows[|rows| - 1];
      if Listed(last, destination, today) then earlier + [Entry(last)] else earlier
  }

  /** Non-decreasing in the day: the promise of ORDER BY available_date. */
  predicate SortedByDay(s: seq<DateSpots>) {
    forall i, j :: 0 <= i < j < |s| ==> s[i].day <= s[j].day
  }

  /** Puts `d` into a day-sorted listing, before the first entry that is not earlier. */
  function InsertByDay(d: DateSpots, sorted: seq<DateSpots>): (r: seq<DateSpots>)
    requires SortedByDay(sorted)
    ensures SortedByDay(r)
    ensures forall x :: x in r <==> x == d || x in sorted
    ensures multiset(r) == multiset(sorted) + multiset{d}
  {
    if |sorted| == 0 then [d]
    else if d.day <= sorted[0].day then [d] + sorted
    else
      var rest := InsertByDay(d, sorted[1..]);
      assert sorted == [sorted[0]] + sorted[1..];
      assert forall x :: x in rest ==> sorted[0].day <= x.day;
      [sorted[0]] + rest
  }

  /** The entries of `s` ordered by day. */
  function SortByDay(s: seq<DateSpots>): (r: seq<DateSpots>)
    ensures SortedByDay(r)
    ensures multiset(r) == multiset(s)
  {
    if |s| == 0 then []
    else
      assert s == s[..|s| - 1] + [s[|s| - 1]];
      InsertByDay(s[|s| - 1], SortByDay(s[..|s| - 1]))
  }

  /**
   * getAvailableDates: the (date, spots) pairs of the destination's rows from
   * today on with at least one spot, in day order.
   */
  function AvailableDates(rows: seq<AvailabilityRow>, destination: string, today: int): (dates: seq<DateSpots>)
    ensures SortedByDay(dates)
    ensures multiset(dates) == multiset(Matching(rows, destination, today))
  {
    SortByDay(Matching(rows, destination, today))
  }

  /** A pair is listed exactly when some row of the destination from today on with spots left gives it. */
  lemma AvailableDatesExactly(rows: seq<AvailabilityRow>, destination: string, today: int, ds: DateSpots)
    ensures ds in AvailableDates(rows, destination, today)
        <==> exists i :: 0 <= i < |rows| && rows[i].destination == destination
                       && rows[i].day >= today && rows[i].spots > 0 && Entry(rows[i]) == ds
  {
    var dates := AvailableDates(rows, destination, today);
    assert ds in dates <==> ds in multiset(dates);
    assert ds in Matching(rows, destination, today) <==> ds in multiset(Matching(rows, destination, today));
  }

  /** Every listed date is today or later and has a spot free. */
  lemma AvailableDatesBookable(rows: seq<AvailabilityRow>, destination: string, today: int)
    ensures forall ds :: ds in AvailableDates(rows, destination, today) ==> ds.day >= today && ds.spots > 0
  {
    forall ds | ds in AvailableDates(rows, destination, today)
      ensures ds.day >= today && ds.spots > 0
    {
      AvailableDatesExactly(rows, destination, today, ds);
    }
  }
}

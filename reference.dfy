/** The booking reference and the trip duration computed once a submission is valid. */
module Reference {
  import opened Wrappers
  import opened Decimal

  /** A calendar date as the server clock gives it. */
  datatype CalendarDate = CalendarDate(year: nat, month: nat, day: nat)

  predicate ValidDate(d: CalendarDate) {
    1 <= d.month <= 12 && 1 <= d.day <= 31
  }

  /** `date('Ymd')`: the year with at least four digits, then two-digit month and day. */
  function DateStamp(d: CalendarDate): (s: string)
    requires ValidDate(d)
    ensures AllDigits(s)
    ensures d.year <= 9999 ==> |s| == 8
  {
    if d.year <= 9999 then
      WidthAtMost(d.year, 4);
      Digits(d.year, 4) + Digits(d.month, 2) + Digits(d.day, 2)
    else
      Digits(d.year, Width(d.year)) + Digits(d.month, 2) + Digits(d.day, 2)
  }

  /** `'WV' . date('Ymd') . rand(1000, 9999)`, with the clock and the random draw passed in. */
  function BookingReference(today: CalendarDate, draw: int): (r: string)
    requires ValidDate(today) && 1000 <= draw <= 9999
    ensures |r| >= 14 && r[..2] == "WV" && AllDigits(r[2..])
    ensures today.year <= 9999 ==> |r| == 14
  {
    assert Pow10(3) == 1000 && Pow10(4) == 10000;
    WidthAtMost(draw, 4);
    WidthAtLeast(draw, 4);
    "WV" + DateStamp(today) + NatText(draw)
  }

  /** Splits a 14-character reference back into its date and its random suffix. */
  function ParseReference(s: string): Option<(CalendarDate, nat)> {
    if |s| == 14 && s[..2] == "WV" && AllDigits(s[2..]) then
      Some((CalendarDate(Value(s[2..6]), Value(s[6..8]), Value(s[8..10])), Value(s[10..])))
    else None
  }

  /** A reference made before the year 10000 reads back as the date and the draw it was made from. */
  lemma {:induction false} ReferenceRoundTrip(today: CalendarDate, draw: int)
    requires ValidDate(today) && today.year <= 9999 && 1000 <= draw <= 9999
    ensures ParseReference(BookingReference(today, draw)) == Some((today, draw))
  {
    var r := BookingReference(today, draw);
    assert Pow10(3) == 1000 && Pow10(4) == 10000;
    WidthAtMost(draw, 4);
    WidthAtLeast(draw, 4);
    assert r[2..6] == Digits(today.year, 4);
    assert r[6..8] == Digits(today.month, 2);
    assert r[8..10] == Digits(today.day, 2);
    assert r[10..] == Digits(draw, 4);
    assert Pow10(2) == 100 && Pow10(4) == 10000;
    ValueOfDigits(today.year, 4);
    ValueOfDigits(today.month, 2);
    ValueOfDigits(today.day, 2);
    ValueOfDigits(draw, 4);
  }

  /** Two bookings share a reference only when made on the same day with the same draw. */
  lemma ReferenceCollision(d1: CalendarDate, n1: int, d2: CalendarDate, n2: int)
    requires ValidDate(d1) && d1.year <= 9999 && 1000 <= n1 <= 9999
    requires ValidDate(d2) && d2.year <= 9999 && 1000 <= n2 <= 9999
    ensures BookingReference(d1, n1) == BookingReference(d2, n2) <==> d1 == d2 && n1 == n2
  {
    ReferenceRoundTrip(d1, n1);
    ReferenceRoundTrip(d2, n2);
  }

  /** `$departure->diff($return)->days`: the absolute number of days between the two dates. */
  function Duration(departureDay: int, returnDay: int): (days: nat)
    ensures departureDay <= returnDay ==> departureDay + days == returnDay
    ensures returnDay < departureDay ==> returnDay + days == departureDay
  {
    if returnDay >= departureDay then returnDay - departureDay else departureDay - returnDay
  }
}

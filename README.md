# WildVentures booking core, modelled in Dafny

WildVentures sells wildlife tours. A visitor picks a destination, a tour
package, travel dates and a group size, then submits a booking form. This
project models the server-side rules behind that flow:

- **Booking validator** (`Validation`). Ten independent checks run in a fixed
  order. Each check adds at most one message to an error list. The list is
  built step by step by the method `Validate` and specified by the function
  `Errors`.
- **Pricing** (`Pricing`). The base price is the destinations-table value when
  there is one. Otherwise it comes from the fallback table of six
  destinations, and otherwise it is 2000. The package modifier comes from a
  table of 14 packages and defaults to 1.0. The total is
  base × participants × modifier. The handler writes the tables out twice;
  the model defines them once and both handlers use them.
- **Booking reference and duration** (`Reference`, `Decimal`). The reference is
  `WV`, then the date as `Ymd`, then a number in 1000..9999. The duration is
  the day difference between return and departure.
- **Submission** (`BookingSubmission`). A valid form becomes a `pending` row of
  the bookings table. The table is a class whose reference column is unique.
  A failed validation or a taken reference sends the visitor back to the form
  with messages.
- **The `get_dates` and `check_availability` actions** (`BookingApi`, over
  `Availability`):
  - `get_dates` lists a destination's bookable dates in day order.
  - `check_availability` takes the smallest spot count over the chosen dates
    and answers one of three ways: available with a price, only N spots left,
    or no information.
- **The capacity lookup of check_availability.php** (`CapacityLookup`). It
  takes the same minimum, but reports 20 when no row covers the dates.

Inputs the handlers take from their environment are parameters of the model:

- the two travel dates, already parsed to integer day numbers;
- today's midnight, as a day number;
- the server's calendar date for the reference;
- the value drawn by `rand(1000, 9999)`;
- the e-mail grammar, as a predicate carried in the submission;
- the destinations table, as a map from code to base price;
- the availability table, as a sequence of (destination, day, spots) rows.

PHP's `empty()` is modelled on `Option` values:

- a string field is empty when it is absent, `""` or `"0"`;
- the integer field is empty when `FILTER_VALIDATE_INT` failed or the value
  is 0.

Two facts about the booking handler:

- The duration is `$interval->days`, the day difference between return and
  departure (not an inclusive count).
- The booking handler inserts without reading the availability table.

## Model

| member | source | states |
|---|---|---|
| Validation.RequiredFieldErrors | process_booking.php:29-61 | the eight required-field checks append their messages in order; the list equals the specification after eight rules |
| Validation.Validate | process_booking.php:30-75 | the method's error list is exactly `Errors(s)`: each of the ten rules, in order, appends its message when violated |
| Validation.ErrorsAfterCount | process_booking.php:30-75 | after the first k checks, a check's message occurs once if that check is among them and failed, and never otherwise |
| Validation.ErrorsCount | process_booking.php:30-75 | each rule's message occurs exactly once in the list when the rule is violated and not at all otherwise |
| Validation.ErrorsAtMostTen | process_booking.php:30-75 | the error list never has more than ten entries |
| Validation.ErrorsExplained | process_booking.php:30-75 | a message is in the list if and only if some violated rule reports it |
| Validation.ErrorsEmptyIffAcceptable | process_booking.php:30-78 | the list is empty, so the booking goes ahead, exactly when every field condition holds, stated field by field |
| Validation.ParticipantsMessage | process_booking.php:44-45 | the participants message appears exactly once when the count is missing or outside 1..20, and never when it is in 1..20 |
| Validation.DateRules | process_booking.php:63-75 | a departure before today's midnight always adds the past-date message, and a return not after departure always adds the date-order message; both directions |
| Validation.AcceptedDuration | process_booking.php:84-85 | once validation passes, the duration is return day minus departure day, and it is at least 1 |
| Pricing.BasePrice | process_booking.php:88-103 | a database row wins; otherwise a code in the fallback table gets its table entry, and any other code gets 2000; so without a row the price lies in 1499..3499 |
| Pricing.Modifier | process_booking.php:109-126 | a listed package gets its table entry, and any other package gets exactly 1.0; so the modifier lies in 1.0..1.8 |
| Pricing.TotalLinearInParticipants | process_booking.php:105-127 | the total for p1 + p2 travellers is the sum of the totals for p1 and for p2 |
| Pricing.TotalPrice | process_booking.php:105-127 | the total is base × participants × modifier (the same product the check action forms at lines 376-377); for a non-negative base price and head count it lies between the unmodified subtotal and 1.8 times it |
| Pricing.TotalMonotoneInModifier | process_booking.php:126-127 | a package with a larger modifier never gives a smaller total |
| Pricing.SerengetiLuxuryScenario | process_booking.php:94-127 | four travellers, luxury package, Serengeti, no database row: 1999 × 4 × 1.8 = 14392.8 |
| Decimal.ValueOfDigits | process_booking.php:81 | zero-padded decimal digits of n read back as n |
| Decimal.IntTextRoundTrip | process_booking.php:388 | an integer interpolated into a string reads back as the same integer, negative values included |
| Reference.DateStamp | process_booking.php:81 | `date('Ymd')` is all digits, and 8 characters for a four-digit year |
| Reference.BookingReference | process_booking.php:81 | the reference starts with "WV", the rest is digits, and it has 14 characters for a four-digit year |
| Reference.ReferenceRoundTrip | process_booking.php:81 | the reference parses back to the date and the drawn number |
| Reference.ReferenceCollision | process_booking.php:81 | two references are equal exactly when the dates and the drawn numbers are equal |
| Reference.Duration | process_booking.php:84-85 | the duration is the absolute difference of the two day numbers |
| Availability.MinSpots | process_booking.php:319-335 | None exactly when no row of the destination lies in the inclusive range; otherwise a value no larger than any such row's spots and equal to one of them |
| Availability.MinSpotsIgnoresOutOfRange | process_booking.php:320-323 | rows appended for other destinations or other days do not change the minimum |
| Availability.Matching | process_booking.php:267-273 | a pair is selected exactly when some row of the destination, dated today or later with spots left, gives it |
| Availability.InsertByDay | process_booking.php:273 | inserting into a day-ordered listing keeps it ordered and adds exactly the one entry |
| Availability.SortByDay | process_booking.php:273 | the result is in day order and is a permutation of the input |
| Availability.AvailableDates | process_booking.php:263-281 | the listing is in day order and is a permutation of the selected rows |
| Availability.AvailableDatesExactly | process_booking.php:267-277 | a (date, spots) pair is listed if and only if a row of that destination, dated today or later with spots left, has it |
| Availability.AvailableDatesBookable | process_booking.php:270-272 | every listed date is today or later and has at least one spot |
| BookingApi.GetDates | process_booking.php:284-297 | an empty destination gives the error "Destination is required", and only then; otherwise the payload is the destination's rows dated today or later with spots left, as a permutation of the selected rows, in day order |
| BookingApi.ShortMessage | process_booking.php:386-389 | the "Only N spots" message is never the no-information message |
| BookingApi.ShortMessageRoundTrip | process_booking.php:386-389 | the "Only N spots" message carries N: reading it back gives N |
| BookingApi.CheckAvailability | process_booking.php:302-396 | "All fields are required" exactly when a field is missing or participants < 1; available exactly when some row is in range and every in-range row has room for the group, priced by the shared total; no information exactly when no row is in range |
| BookingApi.ReportedSpotsAreMinimum | process_booking.php:334-390 | the reported spot count is the minimum over the range; in the short case that minimum is below the group size and the message carries it |
| BookingApi.LargeGroupScenario | process_booking.php:312-315 | the check action has no upper bound: 25 travellers fit where 30 spots remain each day |
| BookingApi.ShortOfSpotsScenario | process_booking.php:319-390 | rows for another destination or outside the dates are ignored; a tightest day of 3 spots turns away a group of 4 with "Only 3 spots" |
| CapacityLookup.CheckCapacity | check_availability.php:7-37 | a missing parameter gives "Missing required parameters", and only then; otherwise the count is at most every in-range row's spots, is attained when some row is in range, and is 20 when none is |
| CapacityLookup.NoRowsEndpointsDisagree | check_availability.php:34-35 | on dates no row covers, this endpoint reports 20 while the booking page's check reports no information |
| CapacityLookup.EndpointsAgreeOnCoveredDates | check_availability.php:18-35 | when the booking page's check finds room, this endpoint reports the same spot count |
| BookingSubmission.NewBooking | process_booking.php:78-177 | the stored row of a passed submission: its reference from the date and draw, 1..20 participants, a duration of at least 1 equal to the day difference, the shared total, status "pending" |
| BookingSubmission.NewBookingKeepsForm | process_booking.php:164-177 | the row handed to the INSERT carries every submitted column: name, e-mail, phone, group size, destination, package, both date strings and the special requirements; its reference decodes to the date and draw |
| BookingSubmission.SameTotalOnBothPaths | process_booking.php:339-377 | for the same destination, group and package, the booking handler computes the same exact total as the check action quoted (before the column rounds it to cents) |
| BookingSubmission.BookingStore.Insert | process_booking.php:130-177 | a row with a free reference is appended; a taken reference leaves the table unchanged and yields the duplicate-key message; references stay unique |
| BookingSubmission.SubmitBooking | process_booking.php:17-259 | failed validation leaves the table unchanged and returns all messages; a passed one stores exactly the new row and confirms its reference, unless the reference is taken, which returns only the database error |

## Left out

- The database connection, PDO and the SQL text. The tables are a map and sequences of rows, and each query is a function over them.
- Database failures other than a duplicate booking reference. This covers the "Error checking availability: " reply, the "Database error: " reply of check_availability.php, and `getAvailableDates` returning an empty list on an exception.
- BookingSubmission.BookingStore.Insert: the duplicate-key message keeps the reference and the key name but not the driver's SQLSTATE prefix or error code. That text depends on the MySQL version.
- The confirmation e-mail and `mail()`, including its `date('F j, Y')` and `number_format` display text. This is a foreign side effect and display formatting.
- Sessions, `header()` redirects, `json_encode` and `exit()`. A reply is a datatype, and a redirect is a `SubmitOutcome`.
- The routing on `REQUEST_METHOD` and `action`. Each handler is a separate member.
- `filter_input` sanitising and the `FILTER_VALIDATE_EMAIL` grammar. Fields arrive already sanitised, and the grammar is an abstract predicate.
- `DateTime` parsing. An empty date string parses to the current time, and an unparsable one throws an uncaught exception. Both are outside the model, which takes day numbers.
- The `booking_date` column, set by the database's `NOW()`.
- check_availability.php reads a `tour_availability` table whose columns do not match the availability table the rest of the site creates. Its rows are modelled with the same row type, and the two schemas are not reconciled.
- Availability.AvailableDates: rows with equal days may come out in either order; only day order and the multiset of entries are stated. The table's unique (destination, date) key means no two rows of one destination share a day.
- Floating-point rounding of prices. Prices are exact reals.
- String comparisons in SQL. MySQL's default collation matches `destination` and `code` without regard to case, but the model compares exactly. With the destination "Amazon", the site finds amazon's availability rows and its database price, while the model finds neither and charges the 2000 default. The fallback lookup by `isset` is exact in PHP as well, so PHP's own two lookups already differ on such input.
- The `formatted_price` field of the `check_availability` reply (`'$' . number_format($totalPrice, 2)`). `Available` carries only the number, because display formatting is outside the model.
- BookingSubmission.SameTotalOnBothPaths: the `total_price` column is DECIMAL(10,2), so the stored total is rounded to cents, while the quote is not. For a database base price with cents, e.g. 1999.99 × 1 × 1.35, the stored and quoted values differ. The lemma equates the computed totals before storage.
- BookingSubmission.SubmitBooking: the INSERT can also fail, or truncate, on a value longer than its column (`full_name` and `email` are VARCHAR(100); `phone`, `destination` and `tour_package` are VARCHAR(50)) and on a date string MySQL cannot read as a DATE. The model confirms such a booking and stores the values unchanged.
- The race between reading availability and writing a booking, which is a concurrency concern.
- The database setup script, which is a one-off installer.

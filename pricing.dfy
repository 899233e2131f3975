/**
 * The pricing table of process_booking.php. The source writes the fallback
 * base prices and the package modifiers out twice, once for the booking
 * submission and once for the availability check; here they are one table
 * that both handlers use. Prices are exact reals, not IEEE doubles.
 */
module Pricing {
  /** Base prices used when the `destinations` table has no row for the code. */
  const FallbackBasePrices: map<string, real> := map[
    "serengeti" := 1999.0,
    "amazon" := 2299.0,
    "galapagos" := 3499.0,
    "yellowstone" := 1499.0,
    "borneo" := 2799.0,
    "barrier-reef" := 2199.0
  ]

  /** Base price of a destination in neither the database nor the fallback table. */
  const DefaultBasePrice: real := 2000.0

  /** Price multiplier per tour package. */
  const PackageModifiers: map<string, real> := map[
    "standard" := 1.0,
    "premium" := 1.3,
    "luxury" := 1.8,
    "photography" := 1.5,
    "migration" := 1.4,
    "river" := 1.2,
    "indigenous" := 1.35,
    "cruise" := 1.6,
    "diving" := 1.4,
    "geyser" := 1.15,
    "wildlife" := 1.25,
    "orangutan" := 1.4,
    "jungle" := 1.3,
    "island" := 1.25
  ]

  /** Modifier of a package that is not in the table. */
  const DefaultModifier: real := 1.0

  /**
   * Base price of `destination`: the `destinations` row when there is one
   * (`db` maps code to base_price), else the fallback table, else 2000.
   */
  function BasePrice(db: map<string, real>, destination: string): (price: real)
    ensures destination in db ==> price == db[destination]
    ensures destination !in db && destination in FallbackBasePrices ==> price == FallbackBasePrices[destination]
    ensures destination !in db ==> 1499.0 <= price <= 3499.0
    ensures destination !in db && destination !in FallbackBasePrices ==> price == 2000.0
  {
    if destination in db then db[destination]
    else if destination in FallbackBasePrices then FallbackBasePrices[destination]
    else DefaultBasePrice
  }

  /** Price multiplier of a package; an unknown package is charged at 1.0. */
  function Modifier(package: string): (m: real)
    ensures package in PackageModifiers ==> m == PackageModifiers[package]
    ensures package !in PackageModifiers ==> m == 1.0
    ensures 1.0 <= m <= 1.8
  {
    if package in PackageModifiers then PackageModifiers[package] else DefaultModifier
  }

  /**
   * base price x participants x package modifier. For a non-negative base
   * price and head count, the total never falls below the unmodified
   * subtotal and never exceeds 1.8 times it.
   */
  function TotalPrice(db: map<string, real>, destination: string, participants: int, package: string): (total: real)
    ensures BasePrice(db, destination) >= 0.0 && participants >= 0 ==>
      var subtotal := BasePrice(db, destination) * participants as real;
      subtotal <= total <= 1.8 * subtotal
  {
    var subtotal := BasePrice(db, destination) * participants as real;
    assert BasePrice(db, destination) >= 0.0 && participants >= 0 ==>
      subtotal <= subtotal * Modifier(package) <= 1.8 * subtotal
    by {
      if BasePrice(db, destination) >= 0.0 && participants >= 0 {
        ScaleMonotone(BasePrice(db, destination), 0.0, participants as real);
        ScaleMonotone(subtotal, 1.0, Modifier(package));
        ScaleMonotone(subtotal, Modifier(package), 1.8);
      }
    }
    subtotal * Modifier(package)
  }

  /** The total is linear in the number of participants. */
  lemma TotalLinearInParticipants(db: map<string, real>, destination: string, p1: int, p2: int, package: string)
    ensures TotalPrice(db, destination, p1 + p2, package)
         == TotalPrice(db, destination, p1, package) + TotalPrice(db, destination, p2, package)
  {
  }

  /** Scaling by a non-negative factor keeps the order of two reals. */
  lemma ScaleMonotone(x: real, a: real, b: real)
    requires x >= 0.0 && a <= b
    ensures x * a <= x * b
  {
  }

  /** A dearer package never makes the same trip cheaper. */
  lemma TotalMonotoneInModifier(db: map<string, real>, destination: string, participants: int, cheaper: string, dearer: string)
    requires BasePrice(db, destination) >= 0.0 && participants >= 0
    requires Modifier(cheaper) <= Modifier(dearer)
    ensures TotalPrice(db, destination, participants, cheaper) <= TotalPrice(db, destination, participants, dearer)
  {
    var subtotal := BasePrice(db, destination) * participants as real;
    ScaleMonotone(BasePrice(db, destination), 0.0, participants as real);
    ScaleMonotone(subtotal, Modifier(cheaper), Modifier(dearer));
  }

  /** Four people on the luxury package to the Serengeti, with no database row: 1999 x 4 x 1.8. */
  lemma SerengetiLuxuryScenario()
    ensures TotalPrice(map[], "serengeti", 4, "luxury") == 14392.8
  {
  }
}

/**
  The mock flight data layer of the Furret front-end: a fixed table of
  routes expanded into three priced offers each, and the two queries the
  pages use (a filtered listing and a lookup by id).

  `Math.random` is replaced by a caller-supplied stream of draws and
  `Date.now` by a caller-supplied day number; prices are exact rationals
  rounded the way `Math.round` rounds.
 */
module Flights {
  import opened Wrappers
  import opened Text
  import opened Seqs
  import opened Rounding

  // ---------------------------------------------------------------------
  // Data model
  // ---------------------------------------------------------------------

  datatype DealQuality = Exceptional | Great | Good

  /** The tag as the source spells it (the string the `dealQuality` filter compares with). */
  function QualityName(q: DealQuality): string
  {
    match q
    case Exceptional => "exceptional"
    case Great => "great"
    case Good => "good"
  }

  /** One day of a price history: the day is a UTC day number (days since 1970-01-01). */
  datatype PricePoint = PricePoint(day: int, price: int)

  datatype Flight = Flight(
    id: string,
    from: string,
    to: string,
    fromCity: string,
    toCity: string,
    price: int,
    originalPrice: int,
    airline: string,
    duration: string,
    stops: int,
    departureTime: string,
    arrivalTime: string,
    dealQuality: DealQuality,
    savings: int,
    priceHistory: seq<PricePoint>)

  datatype Route = Route(from: string, to: string, fromCity: string, toCity: string)

  const Routes: seq<Route> := [
    Route("KHI", "DXB", "Karachi", "Dubai"),
    Route("KHI", "IST", "Karachi", "Istanbul"),
    Route("KHI", "BKK", "Karachi", "Bangkok"),
    Route("KHI", "LHR", "Karachi", "London"),
    Route("KHI", "SIN", "Karachi", "Singapore"),
    Route("LHE", "DXB", "Lahore", "Dubai"),
    Route("ISB", "LHR", "Islamabad", "London")
  ]

  const Airlines: seq<string> := ["Emirates", "PIA", "Qatar Airways", "Turkish Airlines", "Etihad"]

  const DealQualities: seq<DealQuality> := [Exceptional, Great, Good]

  /** Days in a price history. */
  const HistoryDays: nat := 7

  /** Percentage knocked off the base price for each tier. */
  function DiscountPercent(q: DealQuality): nat
  {
    if q == Exceptional then 40 else if q == Great then 25 else 15
  }

  // ---------------------------------------------------------------------
  // Random draws and exact rounding
  // ---------------------------------------------------------------------

  /**
    A result of `Math.random()`, restricted to the multiples of 2^-52 in
    [0, 1): a draw `k` stands for `k / DrawScale`. Results off this grid
    (an engine may return finer values) are not modelled.
   */
  const DrawScale: nat := 0x10_0000_0000_0000

  type Draw = k: int | 0 <= k < DrawScale

  /** `Math.floor(Math.random() * n)`: a uniform index below `n`. */
  function Scaled(k: Draw, n: nat): (r: nat)
    ensures n > 0 ==> r < n
  {
    ScaledBelow(k, n);
    k * n / DrawScale
  }

  lemma ScaledBelow(k: Draw, n: nat)
    ensures n > 0 ==> k * n / DrawScale < n
  {
    if n > 0 {
      assert k * n < DrawScale * n;
    }
  }

  // ---------------------------------------------------------------------
  // Text formats of the generated fields
  // ---------------------------------------------------------------------

  /** The id template `${from}-${to}-${i + 1}`. */
  function Id(route: Route, i: nat): string
  {
    route.from + "-" + route.to + "-" + Decimal(i + 1)
  }

  /** The duration template `${h}h ${m}m`. */
  function DurationText(h: nat, m: nat): string
  {
    Decimal(h) + "h " + Decimal(m) + "m"
  }

  /** The clock template: both fields `String(..).padStart(2, '0')`, joined by a colon. */
  function ClockText(h: nat, m: nat): string
  {
    PadStart(Decimal(h), 2, '0') + ":" + PadStart(Decimal(m), 2, '0')
  }

  /** Reads `Xh Ym` back into its hours and minutes. */
  function ParseDuration(s: string): Option<(nat, nat)>
  {
    match IndexOf(s, 'h')
    case None => None
    case Some(i) =>
      if i + 3 <= |s| && s[i + 1] == ' ' && s[|s| - 1] == 'm' then
        match (ParseNat(s[..i]), ParseNat(s[i + 2..|s| - 1]))
        case (Some(h), Some(m)) => Some((h, m))
        case _ => None
      else None
  }

  /** Reads `HH:MM` back into its hours and minutes. */
  function ParseClock(s: string): Option<(nat, nat)>
  {
    if |s| == 5 && s[2] == ':' then
      match (ParseNat(s[..2]), ParseNat(s[3..]))
      case (Some(h), Some(m)) => Some((h, m))
      case _ => None
    else None
  }

  lemma DurationRoundTrip(h: nat, m: nat)
    ensures ParseDuration(DurationText(h, m)) == Some((h, m))
  {
    var s := DurationText(h, m);
    var n := |Decimal(h)|;
    DecimalDigits(h);
    assert s[n] == 'h' && s[..n] == Decimal(h);
    assert 'h' !in Decimal(h);
    assert IndexOf(s, 'h') == Some(n);
    assert s[n + 2..|s| - 1] == Decimal(m);
    DecimalRoundTrip(h);
    DecimalRoundTrip(m);
  }

  lemma ClockRoundTrip(h: nat, m: nat)
    requires h < 100 && m < 100
    ensures |ClockText(h, m)| == 5
    ensures ParseClock(ClockText(h, m)) == Some((h, m))
  {
    var s := ClockText(h, m);
    TwoDigitRoundTrip(h);
    TwoDigitRoundTrip(m);
    assert s[..2] == PadStart(Decimal(h), 2, '0');
    assert s[3..] == PadStart(Decimal(m), 2, '0');
  }

  // ---------------------------------------------------------------------
  // The generator
  // ---------------------------------------------------------------------

  /** `basePrice = 200 + Math.random() * 500`, as a numerator over `DrawScale`. */
  function BaseNumerator(k: Draw): (b: int)
    ensures 200 * DrawScale <= b < 700 * DrawScale
  {
    200 * DrawScale + 500 * k
  }

  /**
    Variant `i` of a route, built from the fourteen draws `d` that the
    source consumes for it, in order: base price, airline, duration hours,
    duration minutes, stops, departure minutes, arrival minutes, and one per
    day of the price history.
   */
  function MakeFlight(route: Route, i: nat, d: seq<Draw>, today: int): Flight
    requires i < 3 && |d| == 14
  {
    var base := BaseNumerator(d[0]);
    var quality := DealQualities[i];
    var discount := DiscountPercent(quality);
    var price := RoundRatio(base * (100 - discount), 100 * DrawScale);
    Flight(
      Id(route, i), route.from, route.to, route.fromCity, route.toCity,
      price,
      RoundRatio(base, DrawScale),
      Airlines[Scaled(d[1], |Airlines|)],
      DurationText(2 + Scaled(d[2], 8), Scaled(d[3], 60)),
      Scaled(d[4], 2),
      ClockText(6 + i * 4, Scaled(d[5], 60)),
      ClockText(10 + i * 4, Scaled(d[6], 60)),
      quality,
      RoundRatio(base * discount, 100 * DrawScale),
      PriceHistory(price, d[7..], today))
  }

  /**
    `Array.from({ length: 7 }, ...)` of `{date, price}` pairs: day `j` is
    `6 - j` days before `today`, its price `Math.round(price + (r - 0.5) * 100)`
    for the day's draw `r`.
   */
  function PriceHistory(price: int, d: seq<Draw>, today: int): seq<PricePoint>
    requires |d| == HistoryDays
  {
    seq(HistoryDays, j requires 0 <= j < HistoryDays =>
      PricePoint(today - (HistoryDays - 1 - j),
                 RoundRatio(price * DrawScale + 100 * (d[j] as int) - 50 * DrawScale, DrawScale)))
  }

  /** The draws of the `n`-th generated flight. */
  function FlightDraws(draws: seq<Draw>, n: nat): (d: seq<Draw>)
    requires (n + 1) * 14 <= |draws|
    ensures |d| == 14
  {
    draws[n * 14..(n + 1) * 14]
  }

  /** `Array.from({ length: 3 }, ...)` for the route at position `idx`. */
  function RouteFlights(route: Route, idx: nat, draws: seq<Draw>, today: int): (r: seq<Flight>)
    requires (3 * idx + 3) * 14 <= |draws|
    ensures |r| == 3
  {
    seq(3, i requires 0 <= i < 3 =>
      MakeFlight(route, i, FlightDraws(draws, 3 * idx + i), today))
  }

  /** Number of draws a whole generation consumes: fourteen per record, three records per route. */
  const GenerationDraws: nat := |Routes| * 3 * 14

  /** The callback of `routes.flatMap`, applied to every route: one group of three records per route. */
  function RouteGroups(draws: seq<Draw>, today: int): (groups: seq<seq<Flight>>)
    requires |draws| == GenerationDraws
    ensures |groups| == |Routes|
    ensures forall idx :: 0 <= idx < |Routes| ==> |groups[idx]| == 3
  {
    seq(|Routes|, idx requires 0 <= idx < |Routes| => RouteFlights(Routes[idx], idx, draws, today))
  }

  /** `generateMockFlights()`: `routes.flatMap` of the per-route variants. */
  function GenerateMockFlights(draws: seq<Draw>, today: int): (r: seq<Flight>)
    requires |draws| == GenerationDraws
    ensures |r| == |Routes| * 3 == 21
  {
    FlattenLength(RouteGroups(draws, today), 3);
    Flatten(RouteGroups(draws, today))
  }

  // ---------------------------------------------------------------------
  // Properties of one generated record
  // ---------------------------------------------------------------------

  /** The undiscounted price `Math.round(basePrice)` of a base price in [200, 700) lies in [200, 700]. */
  lemma OriginalPriceRange(b: int)
    requires 200 * DrawScale <= b < 700 * DrawScale
    ensures 200 <= RoundRatio(b, DrawScale) <= 700
  {
    RoundWhole(200, DrawScale);
    RoundMonotone(200 * DrawScale, b, DrawScale);
    RoundWhole(700, DrawScale);
    RoundMonotone(b, 700 * DrawScale, DrawScale);
  }

  /** A discount never raises the price: `Math.round(base * (1 - d)) <= Math.round(base)`. */
  lemma DiscountedNotAbove(b: int, pct: nat)
    requires b >= 0 && pct <= 100
    ensures RoundRatio(b * (100 - pct), 100 * DrawScale) <= RoundRatio(b, DrawScale)
  {
    RoundScale(100, b, DrawScale);
    assert b * (100 - pct) == 100 * b - b * pct;
    assert b * pct >= 0;
    RoundMonotone(b * (100 - pct), 100 * b, 100 * DrawScale);
  }

  /** Price plus savings is the undiscounted price up to one unit of rounding. */
  lemma PricePlusSavings(b: int, pct: nat)
    requires pct <= 100
    ensures var o := RoundRatio(b, DrawScale);
      o - 1 <= RoundRatio(b * (100 - pct), 100 * DrawScale) + RoundRatio(b * pct, 100 * DrawScale) <= o + 1
  {
    RoundScale(100, b, DrawScale);
    RoundSum(b * (100 - pct), b * pct, 100 * DrawScale);
    assert b * (100 - pct) + b * pct == 100 * b;
  }

  /**
    The savings `Math.round(base * d)` are within one unit of
    `Math.round(originalPrice * d)`.
   */
  lemma SavingsNearRoundedOriginal(b: int, pct: nat)
    requires pct <= 100
    ensures var o := RoundRatio(b, DrawScale);
      -1 <= RoundRatio(b * pct, 100 * DrawScale) - RoundRatio(o * pct, 100) <= 1
  {
    RoundRescaled(b, DrawScale, pct, 100);
    assert pct * RoundRatio(b, DrawScale) == RoundRatio(b, DrawScale) * pct;
    assert pct * b == b * pct;
  }

  /**
    The price `Math.round(base * (1 - d))` is within one unit of
    `Math.round(originalPrice * (1 - d))`.
   */
  lemma PriceNearRoundedOriginal(b: int, pct: nat)
    requires pct <= 100
    ensures var o := RoundRatio(b, DrawScale);
      -1 <= RoundRatio(b * (100 - pct), 100 * DrawScale) - RoundRatio(o * (100 - pct), 100) <= 1
  {
    RoundRescaled(b, DrawScale, 100 - pct, 100);
    assert (100 - pct) * RoundRatio(b, DrawScale) == RoundRatio(b, DrawScale) * (100 - pct);
    assert (100 - pct) * b == b * (100 - pct);
  }

  /** A perturbation of `(Math.random() - 0.5) * 100` moves a rounded price by at most 50. */
  lemma PerturbationBound(p: int, k: Draw)
    ensures p - 50 <= RoundRatio(p * DrawScale + 100 * (k as int) - 50 * DrawScale, DrawScale) <= p + 50
  {
    var x := p * DrawScale + 100 * (k as int) - 50 * DrawScale;
    RoundWhole(p - 50, DrawScale);
    assert (p - 50) * DrawScale == p * DrawScale - 50 * DrawScale;
    RoundMonotone((p - 50) * DrawScale, x, DrawScale);
    RoundWhole(p + 50, DrawScale);
    assert (p + 50) * DrawScale == p * DrawScale + 50 * DrawScale;
    RoundMonotone(x, (p + 50) * DrawScale, DrawScale);
  }

  /**
    Prices of a record: the undiscounted price is in [200, 700], the
    discounted price does not exceed it, price plus savings is the
    undiscounted price up to rounding, and the price and the savings are
    each within one unit of the rounded undiscounted price times the tier's
    remaining share and rate respectively.
   */
  ghost predicate ValidPrices(f: Flight)
  {
    && 200 <= f.originalPrice <= 700
    && f.price <= f.originalPrice
    && f.originalPrice - 1 <= f.price + f.savings <= f.originalPrice + 1
    && -1 <= f.savings - RoundRatio(f.originalPrice * DiscountPercent(f.dealQuality), 100) <= 1
    && -1 <= f.price - RoundRatio(f.originalPrice * (100 - DiscountPercent(f.dealQuality)), 100) <= 1
  }

  /**
    Schedule fields of variant `i`: a listed airline, a duration of 2 to 9
    hours and 0 to 59 minutes, at most one stop, and `HH:MM` clock times
    whose hours are `6 + 4i` (departure) and `10 + 4i` (arrival).
   */
  ghost predicate ValidSchedule(f: Flight, i: nat)
  {
    && f.airline in Airlines
    && ParseDuration(f.duration).Some?
    && 2 <= ParseDuration(f.duration).value.0 <= 9
    && ParseDuration(f.duration).value.1 <= 59
    && 0 <= f.stops <= 1
    && |f.departureTime| == 5 && ParseClock(f.departureTime).Some?
    && ParseClock(f.departureTime).value.0 == 6 + 4 * i
    && ParseClock(f.departureTime).value.1 <= 59
    && |f.arrivalTime| == 5 && ParseClock(f.arrivalTime).Some?
    && ParseClock(f.arrivalTime).value.0 == 10 + 4 * i
    && ParseClock(f.arrivalTime).value.1 <= 59
  }

  /**
    Price history: seven consecutive days ending `today`, each price within
    50 of the current price.
   */
  ghost predicate ValidHistory(f: Flight, today: int)
  {
    && |f.priceHistory| == HistoryDays
    && f.priceHistory[HistoryDays - 1].day == today
    && (forall d :: 0 < d < HistoryDays ==> f.priceHistory[d].day == f.priceHistory[d - 1].day + 1)
    && (forall d :: 0 <= d < HistoryDays ==> f.price - 50 <= f.priceHistory[d].price <= f.price + 50)
  }

  /** Everything a generated record of variant `i`, generated on day `today`, satisfies. */
  ghost predicate ValidRecord(f: Flight, i: nat, today: int)
  {
    && i < 3
    && f.dealQuality == DealQualities[i]
    && ValidPrices(f)
    && ValidSchedule(f, i)
    && ValidHistory(f, today)
  }

  lemma MakeFlightPrices(route: Route, i: nat, d: seq<Draw>, today: int)
    requires i < 3 && |d| == 14
    ensures ValidPrices(MakeFlight(route, i, d, today))
  {
    var f := MakeFlight(route, i, d, today);
    var base := BaseNumerator(d[0]);
    var pct := DiscountPercent(DealQualities[i]);
    assert f.dealQuality == DealQualities[i];
    assert f.originalPrice == RoundRatio(base, DrawScale);
    assert f.price == RoundRatio(base * (100 - pct), 100 * DrawScale);
    assert f.savings == RoundRatio(base * pct, 100 * DrawScale);
    OriginalPriceRange(base);
    DiscountedNotAbove(base, pct);
    PricePlusSavings(base, pct);
    SavingsNearRoundedOriginal(base, pct);
    PriceNearRoundedOriginal(base, pct);
  }

  lemma MakeFlightSchedule(route: Route, i: nat, d: seq<Draw>, today: int)
    requires i < 3 && |d| == 14
    ensures ValidSchedule(MakeFlight(route, i, d, today), i)
  {
    var f := MakeFlight(route, i, d, today);
    assert f.duration == DurationText(2 + Scaled(d[2], 8), Scaled(d[3], 60));
    DurationRoundTrip(2 + Scaled(d[2], 8), Scaled(d[3], 60));
    assert f.departureTime == ClockText(6 + i * 4, Scaled(d[5], 60));
    ClockRoundTrip(6 + i * 4, Scaled(d[5], 60));
    assert f.arrivalTime == ClockText(10 + i * 4, Scaled(d[6], 60));
    ClockRoundTrip(10 + i * 4, Scaled(d[6], 60));
  }

  lemma PriceHistoryValid(price: int, d: seq<Draw>, today: int)
    requires |d| == HistoryDays
    ensures var h := PriceHistory(price, d, today);
      && |h| == HistoryDays
      && h[HistoryDays - 1].day == today
      && (forall j :: 0 < j < HistoryDays ==> h[j].day == h[j - 1].day + 1)
      && (forall j :: 0 <= j < HistoryDays ==> price - 50 <= h[j].price <= price + 50)
  {
    var h := PriceHistory(price, d, today);
    forall j | 0 <= j < HistoryDays
      ensures price - 50 <= h[j].price <= price + 50
    {
      PerturbationBound(price, d[j]);
    }
  }

  lemma MakeFlightHistory(route: Route, i: nat, d: seq<Draw>, today: int)
    requires i < 3 && |d| == 14
    ensures ValidHistory(MakeFlight(route, i, d, today), today)
  {
    var f := MakeFlight(route, i, d, today);
    assert f.priceHistory == PriceHistory(f.price, d[7..], today);
    PriceHistoryValid(f.price, d[7..], today);
  }

  /** Every record the generator builds keeps the record invariants. */
  lemma MakeFlightValid(route: Route, i: nat, d: seq<Draw>, today: int)
    requires i < 3 && |d| == 14
    ensures ValidRecord(MakeFlight(route, i, d, today), i, today)
  {
    MakeFlightPrices(route, i, d, today);
    MakeFlightSchedule(route, i, d, today);
    MakeFlightHistory(route, i, d, today);
  }

  // ---------------------------------------------------------------------
  // Properties of the generated collection
  // ---------------------------------------------------------------------

  /**
    The generated collection has three records per route, in route-table
    order: record `n` is variant `n % 3` of route `n / 3`, built from the
    `n`-th block of fourteen draws.
   */
  lemma GeneratedLayout(draws: seq<Draw>, today: int)
    requires |draws| == GenerationDraws
    ensures forall n :: 0 <= n < |GenerateMockFlights(draws, today)| ==>
      GenerateMockFlights(draws, today)[n] == MakeFlight(Routes[n / 3], n % 3, FlightDraws(draws, n), today)
  {
    forall n | 0 <= n < |GenerateMockFlights(draws, today)|
      ensures GenerateMockFlights(draws, today)[n] == MakeFlight(Routes[n / 3], n % 3, FlightDraws(draws, n), today)
    {
      GeneratedAt(draws, today, n / 3, n % 3);
    }
  }

  lemma GeneratedAt(draws: seq<Draw>, today: int, idx: nat, i: nat)
    requires |draws| == GenerationDraws && idx < |Routes| && i < 3
    ensures GenerateMockFlights(draws, today)[3 * idx + i] == MakeFlight(Routes[idx], i, FlightDraws(draws, 3 * idx + i), today)
  {
    GroupAt(draws, today, idx, i);
    RouteFlightsAt(Routes[idx], idx, draws, today, i);
  }

  /** Record `3 * idx + i` of the collection is member `i` of route `idx`'s group. */
  lemma GroupAt(draws: seq<Draw>, today: int, idx: nat, i: nat)
    requires |draws| == GenerationDraws && idx < |Routes| && i < 3
    ensures GenerateMockFlights(draws, today)[3 * idx + i] == RouteFlights(Routes[idx], idx, draws, today)[i]
  {
    FlattenUniform(RouteGroups(draws, today), 3, idx, i);
  }

  lemma RouteFlightsAt(route: Route, idx: nat, draws: seq<Draw>, today: int, i: nat)
    requires (3 * idx + 3) * 14 <= |draws| && i < 3
    ensures RouteFlights(route, idx, draws, today)[i] == MakeFlight(route, i, FlightDraws(draws, 3 * idx + i), today)
  {
  }

  /** Route codes are three characters and no two routes share both endpoints. */
  ghost predicate RouteTableWellFormed(routes: seq<Route>)
  {
    && (forall a :: 0 <= a < |routes| ==> |routes[a].from| == 3 && |routes[a].to| == 3)
    && (forall a, b :: 0 <= a < b < |routes| ==> routes[a].from != routes[b].from || routes[a].to != routes[b].to)
  }

  lemma RoutesWellFormed()
    ensures RouteTableWellFormed(Routes)
  {
  }

  /** With three-character codes an id determines its route endpoints and its variant. */
  lemma IdInjective(r1: Route, i1: nat, r2: Route, i2: nat)
    requires |r1.from| == 3 && |r1.to| == 3 && |r2.from| == 3 && |r2.to| == 3
    requires Id(r1, i1) == Id(r2, i2)
    ensures r1.from == r2.from && r1.to == r2.to && i1 == i2
  {
    var id := Id(r1, i1);
    DecimalDigits(i1 + 1);
    DecimalDigits(i2 + 1);
    assert id[..3] == r1.from && Id(r2, i2)[..3] == r2.from;
    assert id[4..7] == r1.to && Id(r2, i2)[4..7] == r2.to;
    assert id[8..] == Decimal(i1 + 1) && Id(r2, i2)[8..] == Decimal(i2 + 1);
    DecimalRoundTrip(i1 + 1);
    DecimalRoundTrip(i2 + 1);
  }

  /**
    Every generated record carries its route's codes and cities, the id
    `from-to-k` with `k = n % 3 + 1`, and the tier of its position in the
    group: exceptional, great, good.
   */
  lemma GeneratedFields(draws: seq<Draw>, today: int)
    requires |draws| == GenerationDraws
    ensures forall n :: 0 <= n < |GenerateMockFlights(draws, today)| ==>
      var f := GenerateMockFlights(draws, today)[n];
      && f.from == Routes[n / 3].from && f.to == Routes[n / 3].to
      && f.fromCity == Routes[n / 3].fromCity && f.toCity == Routes[n / 3].toCity
      && f.id == Routes[n / 3].from + "-" + Routes[n / 3].to + "-" + Decimal(n % 3 + 1)
      && f.dealQuality == DealQualities[n % 3]
  {
    GeneratedLayout(draws, today);
  }

  /** Record `n` has the tier of its position in the group and the origin code of its route. */
  lemma GeneratedTierAndOrigin(draws: seq<Draw>, today: int, n: nat)
    requires |draws| == GenerationDraws && n < 21
    ensures GenerateMockFlights(draws, today)[n].dealQuality == DealQualities[n % 3]
    ensures GenerateMockFlights(draws, today)[n].from == Routes[n / 3].from
  {
    GeneratedAt(draws, today, n / 3, n % 3);
  }

  /** Every generated record keeps the record invariants of its variant. */
  lemma GeneratedRecordsValid(draws: seq<Draw>, today: int)
    requires |draws| == GenerationDraws
    ensures forall n :: 0 <= n < |GenerateMockFlights(draws, today)| ==>
      ValidRecord(GenerateMockFlights(draws, today)[n], n % 3, today)
  {
    GeneratedLayout(draws, today);
    var gen := GenerateMockFlights(draws, today);
    forall n | 0 <= n < |gen|
      ensures ValidRecord(gen[n], n % 3, today)
    {
      MakeFlightValid(Routes[n / 3], n % 3, FlightDraws(draws, n), today);
    }
  }

  /** No two records share an id. */
  ghost predicate IdsDistinct(flights: seq<Flight>)
  {
    forall m, n :: 0 <= m < n < |flights| ==> flights[m].id != flights[n].id
  }

  /** The generated ids are pairwise distinct. */
  lemma GeneratedIdsDistinct(draws: seq<Draw>, today: int)
    requires |draws| == GenerationDraws
    ensures IdsDistinct(GenerateMockFlights(draws, today))
  {
    var gen := GenerateMockFlights(draws, today);
    GeneratedLayout(draws, today);
    RoutesWellFormed();
    forall m, n | 0 <= m < n < |gen|
      ensures gen[m].id != gen[n].id
    {
      if gen[m].id == gen[n].id {
        IdInjective(Routes[m / 3], m % 3, Routes[n / 3], n % 3);
        assert false;
      }
    }
  }

  // ---------------------------------------------------------------------
  // Queries over the collection
  // ---------------------------------------------------------------------

  /** The optional `{ from, to, dealQuality }` argument of `fetchFlights`; a missing key is `None`. */
  datatype FetchParams = FetchParams(from: Option<string>, to: Option<string>, dealQuality: Option<string>)

  /** JavaScript truthiness of an optional string: present and not empty. */
  predicate Truthy(o: Option<string>)
  {
    o.Some? && o.value != ""
  }

  /**
    `code.toLowerCase().includes(needle.toLowerCase())`: the needle occurs
    in the code, ignoring ASCII case.
   */
  predicate CodeMatches(code: string, needle: string): (b: bool)
    ensures b <==> exists i :: OccursAt(ToLower(code), ToLower(needle), i)
  {
    IncludesIffOccurs(ToLower(code), ToLower(needle));
    Includes(ToLower(code), ToLower(needle))
  }

  /** The quality filter is applied only for a truthy value other than `"all"`. */
  predicate QualityFilterOn(dq: Option<string>)
  {
    Truthy(dq) && dq.value != "all"
  }

  /**
    `fetchFlights(params)` over the collection `flights`: up to three
    successive `filter` calls, on the origin code, the destination code
    and the deal tier, each applied only when its parameter is set.
   */
  function FetchFlights(flights: seq<Flight>, params: Option<FetchParams>): seq<Flight>
  {
    match params
    case None => flights
    case Some(p) =>
      var byFrom :=
        if Truthy(p.from) then Filter((f: Flight) => CodeMatches(f.from, p.from.value), flights) else flights;
      var byTo :=
        if Truthy(p.to) then Filter((f: Flight) => CodeMatches(f.to, p.to.value), byFrom) else byFrom;
      if QualityFilterOn(p.dealQuality) then Filter((f: Flight) => QualityName(f.dealQuality) == p.dealQuality.value, byTo)
      else byTo
  }

  /** The combined condition: a record is listed when it passes every filter that is switched on. */
  predicate Matches(params: Option<FetchParams>, f: Flight)
  {
    match params
    case None => true
    case Some(p) =>
      && (Truthy(p.from) ==> CodeMatches(f.from, p.from.value))
      && (Truthy(p.to) ==> CodeMatches(f.to, p.to.value))
      && (QualityFilterOn(p.dealQuality) ==> QualityName(f.dealQuality) == p.dealQuality.value)
  }

  /** `Matches` as the callback of a single `filter`. */
  function MatchesPred(params: Option<FetchParams>): Flight -> bool
  {
    f => Matches(params, f)
  }

  /** The three successive filters are a single filter by `Matches`. */
  lemma FetchFlightsIsFilter(flights: seq<Flight>, params: Option<FetchParams>)
    ensures FetchFlights(flights, params) == Filter((f: Flight) => Matches(params, f), flights)
  {
    var all := (f: Flight) => Matches(params, f);
    match params
    case None =>
      FilterAllPass(all, flights);
    case Some(p) =>
      var fromOk := (f: Flight) => Truthy(p.from) ==> CodeMatches(f.from, p.from.value);
      var toOk := (f: Flight) => Truthy(p.to) ==> CodeMatches(f.to, p.to.value);
      var qualityOk := (f: Flight) => QualityFilterOn(p.dealQuality) ==> QualityName(f.dealQuality) == p.dealQuality.value;
      var fromToOk := (f: Flight) => fromOk(f) && toOk(f);
      var byFrom := Filter(fromOk, flights);
      var byTo := Filter(toOk, byFrom);
      if Truthy(p.from) {
        FilterExtensional(fromOk, (f: Flight) => CodeMatches(f.from, p.from.value), flights);
      } else {
        FilterAllPass(fromOk, flights);
      }
      if Truthy(p.to) {
        FilterExtensional(toOk, (f: Flight) => CodeMatches(f.to, p.to.value), byFrom);
      } else {
        FilterAllPass(toOk, byFrom);
      }
      if QualityFilterOn(p.dealQuality) {
        FilterExtensional(qualityOk, (f: Flight) => QualityName(f.dealQuality) == p.dealQuality.value, byTo);
      } else {
        FilterAllPass(qualityOk, byTo);
      }
      FilterFusion(fromOk, toOk, fromToOk, flights);
      FilterFusion(fromToOk, qualityOk, all, flights);
  }

  /**
    The listing is exactly the records that pass every filter that is
    switched on, in collection order: an order-preserving subsequence
    made of matching records, holding every matching record, and as long
    as the number of matching records (which determines it, see
    `Seqs.FilterUnique`).
   */
  lemma FetchFlightsCharacterised(flights: seq<Flight>, params: Option<FetchParams>)
    ensures var r := FetchFlights(flights, params);
      && IsSubsequence(r, flights)
      && (forall j :: 0 <= j < |r| ==> Matches(params, r[j]))
      && (forall k :: 0 <= k < |flights| && Matches(params, flights[k]) ==> flights[k] in r)
      && |r| == Count(MatchesPred(params), flights)
  {
    FetchFlightsIsFilter(flights, params);
    FilterCharacterised(MatchesPred(params), flights);
  }

  /** No parameters, or only empty ones (and `"all"` for the tier), list the whole collection unchanged. */
  lemma FetchFlightsNoFilter(flights: seq<Flight>, params: Option<FetchParams>)
    requires params.Some? ==>
      !Truthy(params.value.from) && !Truthy(params.value.to) && !QualityFilterOn(params.value.dealQuality)
    ensures FetchFlights(flights, params) == flights
  {
  }

  /**
    `fetchFlightById(id)` over the collection `flights`: the first record
    with that id, or `None` (the source's `null`) when there is none.
   */
  function FetchFlightById(flights: seq<Flight>, id: string): (r: Option<Flight>)
    ensures r.None? <==> forall k :: 0 <= k < |flights| ==> flights[k].id != id
    ensures r.Some? ==> r.value.id == id
    ensures r.Some? ==>
      exists k :: 0 <= k < |flights| && flights[k] == r.value && forall j :: 0 <= j < k ==> flights[j].id != id
  {
    Find((f: Flight) => f.id == id, flights)
  }

  /** With distinct ids, looking up a record's id returns that very record. */
  lemma FetchFlightByIdUnique(flights: seq<Flight>, n: nat)
    requires IdsDistinct(flights) && n < |flights|
    ensures FetchFlightById(flights, flights[n].id) == Some(flights[n])
  {
    var r := FetchFlightById(flights, flights[n].id);
    var k :| 0 <= k < |flights| && flights[k] == r.value && forall j :: 0 <= j < k ==> flights[j].id != flights[n].id;
    if k < n {
      assert flights[k].id != flights[n].id;
    }
  }

  // ---------------------------------------------------------------------
  // The queries over the generated collection
  // ---------------------------------------------------------------------

  /** Position of a tier inside each route's group. */
  function QualityIndex(q: DealQuality): (i: nat)
    ensures i < 3 && DealQualities[i] == q
  {
    match q
    case Exceptional => 0
    case Great => 1
    case Good => 2
  }

  /** The tier filter passes a record exactly when the record has that tier. */
  lemma QualityFilterExact(q: DealQuality, f: Flight)
    ensures MatchesPred(Some(FetchParams(None, None, Some(QualityName(q)))))(f) <==> f.dealQuality == q
  {
  }

  /** Member `i` of group `idx` is record `3 * idx + i` of the collection and has tier `i`. */
  lemma GroupMember(draws: seq<Draw>, today: int, idx: nat, i: nat)
    requires |draws| == GenerationDraws && idx < |Routes| && i < 3
    ensures GenerateMockFlights(draws, today)[3 * idx + i] == RouteGroups(draws, today)[idx][i]
    ensures RouteGroups(draws, today)[idx][i].dealQuality == DealQualities[i]
  {
    FlattenUniform(RouteGroups(draws, today), 3, idx, i);
    RouteFlightsAt(Routes[idx], idx, draws, today, i);
  }

  /** Filtering one route's group by tier keeps exactly the record of that tier. */
  lemma GroupByQuality(draws: seq<Draw>, today: int, idx: nat, q: DealQuality)
    requires |draws| == GenerationDraws && idx < |Routes|
    ensures Filter(MatchesPred(Some(FetchParams(None, None, Some(QualityName(q))))), RouteGroups(draws, today)[idx])
         == [RouteGroups(draws, today)[idx][QualityIndex(q)]]
  {
    var p := MatchesPred(Some(FetchParams(None, None, Some(QualityName(q)))));
    var group := RouteGroups(draws, today)[idx];
    forall i | 0 <= i < 3
      ensures p(group[i]) <==> i == QualityIndex(q)
    {
      RouteFlightsAt(Routes[idx], idx, draws, today, i);
      QualityFilterExact(q, group[i]);
    }
    FilterExactlyOne(p, group, QualityIndex(q));
  }

  /** Listing by tier picks the record of that tier out of every route's group. */
  lemma ByQualityPicks(draws: seq<Draw>, today: int, q: DealQuality)
    requires |draws| == GenerationDraws
    ensures FetchFlights(GenerateMockFlights(draws, today), Some(FetchParams(None, None, Some(QualityName(q)))))
         == Column(RouteGroups(draws, today), QualityIndex(q))
  {
    var params := Some(FetchParams(None, None, Some(QualityName(q))));
    var groups := RouteGroups(draws, today);
    forall g | 0 <= g < |groups|
      ensures Filter(MatchesPred(params), groups[g]) == [groups[g][QualityIndex(q)]]
    {
      GroupByQuality(draws, today, g, q);
    }
    FetchFlightsIsFilter(GenerateMockFlights(draws, today), params);
    FilterFlattenPick(MatchesPred(params), groups, QualityIndex(q));
  }

  /**
    Listing by tier returns one record per route, the route's record of
    that tier, in route order: seven records.
   */
  lemma GeneratedByQuality(draws: seq<Draw>, today: int, q: DealQuality)
    requires |draws| == GenerationDraws
    ensures var gen := GenerateMockFlights(draws, today);
      var r := FetchFlights(gen, Some(FetchParams(None, None, Some(QualityName(q)))));
      && |r| == |Routes| == 7
      && (forall idx :: 0 <= idx < |Routes| ==> r[idx] == gen[3 * idx + QualityIndex(q)])
      && (forall j :: 0 <= j < |r| ==> r[j].dealQuality == q)
  {
    ByQualityPicks(draws, today, q);
    forall idx | 0 <= idx < |Routes|
      ensures var pick := Column(RouteGroups(draws, today), QualityIndex(q))[idx];
        pick == GenerateMockFlights(draws, today)[3 * idx + QualityIndex(q)] && pick.dealQuality == q
    {
      ColumnMember(draws, today, q, idx);
    }
  }

  /** Entry `idx` of the tier column is the route's record of that tier in the collection. */
  lemma ColumnMember(draws: seq<Draw>, today: int, q: DealQuality, idx: nat)
    requires |draws| == GenerationDraws && idx < |Routes|
    ensures |Column(RouteGroups(draws, today), QualityIndex(q))| == |Routes|
    ensures var pick := Column(RouteGroups(draws, today), QualityIndex(q))[idx];
      pick == GenerateMockFlights(draws, today)[3 * idx + QualityIndex(q)] && pick.dealQuality == q
  {
    GroupMember(draws, today, idx, QualityIndex(q));
  }

  /** `"khi"` matches the origin code `KHI` but neither `LHE` nor `ISB`. */
  lemma KhiMatches()
    ensures CodeMatches("KHI", "khi")
    ensures !CodeMatches("LHE", "khi") && !CodeMatches("ISB", "khi")
  {
    IncludesSameLength(ToLower("KHI"), ToLower("khi"));
    IncludesSameLength(ToLower("LHE"), ToLower("khi"));
    IncludesSameLength(ToLower("ISB"), ToLower("khi"));
    assert ToLower("KHI") == ToLower("khi") == "khi";
    assert ToLower("LHE")[0] == 'l' && ToLower("ISB")[0] == 'i';
  }

  /** Record `n` passes the origin filter `"khi"` exactly when it is one of the first fifteen. */
  lemma KhiRecord(draws: seq<Draw>, today: int, n: nat)
    requires |draws| == GenerationDraws && n < 21
    ensures MatchesPred(Some(FetchParams(Some("khi"), None, None)))(GenerateMockFlights(draws, today)[n]) <==> n < 15
  {
    KhiMatches();
    GeneratedTierAndOrigin(draws, today, n);
    if n < 15 {
      assert Routes[n / 3].from == "KHI";
    } else {
      assert Routes[n / 3].from == "LHE" || Routes[n / 3].from == "ISB";
    }
  }

  /**
    Listing with origin `"khi"` matches the origin code `KHI` without
    regard to case and returns the fifteen records of the five routes
    leaving Karachi, in order.
   */
  lemma GeneratedFromKhi(draws: seq<Draw>, today: int)
    requires |draws| == GenerationDraws
    ensures var gen := GenerateMockFlights(draws, today);
      FetchFlights(gen, Some(FetchParams(Some("khi"), None, None))) == gen[..15]
  {
    var gen := GenerateMockFlights(draws, today);
    var params := Some(FetchParams(Some("khi"), None, None));
    var p := MatchesPred(params);
    forall n | 0 <= n < 21
      ensures p(gen[n]) <==> n < 15
    {
      KhiRecord(draws, today, n);
    }
    FetchFlightsIsFilter(gen, params);
    FilterPrefix(p, gen, 15);
  }

  /** Every generated id is nine characters long (`AAA-BBB-k`). */
  lemma GeneratedIdLength(draws: seq<Draw>, today: int, n: nat)
    requires |draws| == GenerationDraws && n < 21
    ensures |GenerateMockFlights(draws, today)[n].id| == 9
  {
    GeneratedFields(draws, today);
    RoutesWellFormed();
    DecimalDigits(n % 3 + 1);
  }

  /** Looking up a generated id returns that record; an id of another shape finds nothing. */
  lemma GeneratedById(draws: seq<Draw>, today: int)
    requires |draws| == GenerationDraws
    ensures var gen := GenerateMockFlights(draws, today);
      && (forall n :: 0 <= n < |gen| ==> FetchFlightById(gen, gen[n].id) == Some(gen[n]))
      && FetchFlightById(gen, "KHI-DXB-1") == Some(gen[0])
      && FetchFlightById(gen, "nonexistent") == None
  {
    var gen := GenerateMockFlights(draws, today);
    GeneratedIdsDistinct(draws, today);
    forall n | 0 <= n < |gen|
      ensures FetchFlightById(gen, gen[n].id) == Some(gen[n])
      ensures gen[n].id != "nonexistent"
    {
      FetchFlightByIdUnique(gen, n);
      GeneratedIdLength(draws, today, n);
    }
    GeneratedFields(draws, today);
    assert gen[0].id == "KHI-DXB-1";
  }
}

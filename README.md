# Furret mock flight API, modelled in Dafny

Furret's front-end gets its flight deals from a mock data layer,
`src/api/flights.ts`. This project models that layer:

- the `Flight` record;
- `generateMockFlights`, which expands a fixed table of seven routes into
  three priced offers per route (tiers exceptional, great, good with
  discounts of 40%, 25% and 15%);
- `fetchFlights`, which narrows the collection by origin code, destination
  code and deal tier;
- `fetchFlightById`, which returns the first record with a given id, or
  null.

The source is pure apart from its calls to `Math.random`, `Date.now` and
`setTimeout`, so the model consists of datatypes, functions and lemmas:

- Each `Math.random()` call is a caller-supplied draw `k` in `[0, 2^52)`.
  It stands for `k / 2^52`, so the model covers only results on that grid
  of multiples of 2^-52 (see "Left out").
- The generator consumes fourteen draws per record, in the source's
  evaluation order: base price, airline, duration hours, duration minutes,
  stops, departure minutes, arrival minutes, then one per day of the price
  history. A whole generation takes 294 draws.
- `Date.now()` becomes a caller-supplied UTC day number `today`, read once
  per generation (see "Left out").
- Prices are exact rationals. `Math.round` is `Rounding.RoundRatio`, the
  nearest integer with halves rounded up.
- The two queries take the collection as an argument, where the source
  reads its module-level `mockFlights`.

Modules:

- `Wrappers`: `Option`.
- `Text`: ASCII lower-casing, `includes`, decimal rendering and parsing,
  `padStart`.
- `Seqs`: `filter`, `flatMap` (as `Flatten`) and `find`, with their
  characterisations.
- `Rounding`: `Math.round` on rationals.
- `Flights`: the record, the generator, the two queries and the properties
  of the generated collection.

Filtering by origin `"khi"` yields fifteen records: five routes leave
Karachi and each has three variants (`Flights.GeneratedFromKhi`).

## Model

| member | source | states |
|---|---|---|
| Flights.MakeFlight | furret-deploy/src/api/flights.ts:36-57 | one variant as the `Array.from` callback builds it, from its fourteen draws; its properties are stated by `Flights.MakeFlightValid` and the lemmas it combines |
| Flights.DiscountPercent | furret-deploy/src/api/flights.ts:38 | the tier discounts 40%, 25% and 15% as percentages |
| Flights.Id | furret-deploy/src/api/flights.ts:42 | the id template `${from}-${to}-${i + 1}`; `Flights.IdInjective` and `Flights.GeneratedIdLength` state its properties |
| Flights.DurationText | furret-deploy/src/api/flights.ts:47 | the duration template `${h}h ${m}m`; `Flights.DurationRoundTrip` states that it reads back |
| Flights.ClockText | furret-deploy/src/api/flights.ts:49-50 | the clock template of two `padStart(2, '0')` fields; `Flights.ClockRoundTrip` states that it reads back |
| Flights.PriceHistory | furret-deploy/src/api/flights.ts:53-56 | the seven `{date, price}` entries; `Flights.PriceHistoryValid` states their days and price bounds |
| Flights.PriceNearRoundedOriginal | furret-deploy/src/api/flights.ts:39-45 | `Math.round(basePrice * (1 - d))` is within one of `Math.round(originalPrice * (1 - d))` |
| Flights.FetchFlights | furret-deploy/src/api/flights.ts:64-87 | the up to three successive `filter` calls, each applied only when its parameter is set; `Flights.FetchFlightsIsFilter` and `Flights.FetchFlightsCharacterised` state what it returns |
| Flights.Truthy | furret-deploy/src/api/flights.ts:74-82 | JavaScript truthiness of an optional string parameter: present and not empty |
| Flights.CodeMatches | furret-deploy/src/api/flights.ts:75-79 | `code.toLowerCase().includes(needle.toLowerCase())` holds exactly when the lowered needle occurs in the lowered code |
| Flights.QualityFilterOn | furret-deploy/src/api/flights.ts:82 | the tier filter applies only for a truthy value other than `"all"` |
| Flights.Matches | furret-deploy/src/api/flights.ts:74-84 | the conjunction of the three filter conditions, each only when switched on |
| Flights.GenerateMockFlights | furret-deploy/src/api/flights.ts:21-60 | the generator yields seven routes times three variants, 21 records |
| Flights.GeneratedLayout | furret-deploy/src/api/flights.ts:35-58 | record `n` is variant `n % 3` of route `n / 3`, built from the `n`-th block of fourteen draws: `flatMap` keeps route order, and within a route the variants appear in order |
| Flights.GeneratedAt | furret-deploy/src/api/flights.ts:35-36 | record `3 * idx + i` is variant `i` of route `idx` |
| Flights.GroupAt | furret-deploy/src/api/flights.ts:35 | `flatMap` places member `i` of route `idx`'s group at position `3 * idx + i` |
| Flights.RouteGroups | furret-deploy/src/api/flights.ts:35-36 | one group per route, of three records each |
| Flights.RouteFlights | furret-deploy/src/api/flights.ts:36 | each route yields exactly three variants |
| Flights.FlightDraws | furret-deploy/src/api/flights.ts:37-55 | each record consumes a block of fourteen draws |
| Flights.GeneratedFields | furret-deploy/src/api/flights.ts:41-43 | every record carries its route's codes and city names, the id `from-to-k` with `k = n % 3 + 1`, and the tier of its position |
| Flights.GeneratedTierAndOrigin | furret-deploy/src/api/flights.ts:43-51 | record `n` has tier `DealQualities[n % 3]` and the origin code of route `n / 3` |
| Flights.RoutesWellFormed | furret-deploy/src/api/flights.ts:22-30 | every route code has three characters, and no two routes share both endpoints |
| Flights.IdInjective | furret-deploy/src/api/flights.ts:42 | with three-character codes, an id determines its origin, its destination and its variant number |
| Flights.GeneratedIdsDistinct | furret-deploy/src/api/flights.ts:42 | the 21 generated ids are pairwise distinct |
| Flights.GeneratedIdLength | furret-deploy/src/api/flights.ts:42 | every generated id is nine characters long (`AAA-BBB-k`) |
| Flights.MakeFlightValid | furret-deploy/src/api/flights.ts:36-57 | every record the generator builds keeps the record invariants: prices, schedule and history |
| Flights.GeneratedRecordsValid | furret-deploy/src/api/flights.ts:35-59 | every generated record keeps the invariants of its variant, and its tier is that of its position in the group |
| Flights.MakeFlightPrices | furret-deploy/src/api/flights.ts:37-45 | the original price lies in [200, 700], the price does not exceed it, price plus savings is the original price within one, the price equals the rounded original price times `1 - rate` within one, and the savings equal the rounded original price times the rate within one |
| Flights.BaseNumerator | furret-deploy/src/api/flights.ts:37 | `200 + Math.random() * 500` lies in [200, 700) |
| Flights.OriginalPriceRange | furret-deploy/src/api/flights.ts:45 | `Math.round(basePrice)` lies in [200, 700] |
| Flights.DiscountedNotAbove | furret-deploy/src/api/flights.ts:38-39 | a discounted price never exceeds the undiscounted one |
| Flights.PricePlusSavings | furret-deploy/src/api/flights.ts:39-52 | `price + savings` differs from `Math.round(basePrice)` by at most one |
| Flights.SavingsNearRoundedOriginal | furret-deploy/src/api/flights.ts:52 | `Math.round(basePrice * d)` is within one of `Math.round(originalPrice * d)` |
| Flights.MakeFlightSchedule | furret-deploy/src/api/flights.ts:46-50 | the airline is one of the five listed; the duration reads back as 2..9 hours and 0..59 minutes; there are 0 or 1 stops; departure and arrival read back as `HH:MM`, with hours `6 + 4i` and `10 + 4i` and minutes 0..59 |
| Flights.Scaled | furret-deploy/src/api/flights.ts:46-50 | `Math.floor(Math.random() * n)` is below `n` |
| Flights.ScaledBelow | furret-deploy/src/api/flights.ts:46 | a draw scaled by `n` and floored stays below `n`, so `airlines[...]` is in range |
| Flights.DurationRoundTrip | furret-deploy/src/api/flights.ts:47 | the duration text `${h}h ${m}m` parses back to `(h, m)` |
| Flights.ClockRoundTrip | furret-deploy/src/api/flights.ts:49-50 | the clock text of two `padStart(2, '0')` fields is five characters long and parses back to its hour and minute |
| Flights.PriceHistoryValid | furret-deploy/src/api/flights.ts:53-56 | seven days on consecutive days ending today, each price within 50 of the current price |
| Flights.MakeFlightHistory | furret-deploy/src/api/flights.ts:53-56 | a record's history is the seven-day history of its own discounted price |
| Flights.PerturbationBound | furret-deploy/src/api/flights.ts:55 | `Math.round(price + (r - 0.5) * 100)` lies within 50 of `price` |
| Flights.FetchFlightsIsFilter | furret-deploy/src/api/flights.ts:72-86 | the up to three successive filters equal one filter by the combined condition `Matches` |
| Flights.FetchFlightsCharacterised | furret-deploy/src/api/flights.ts:72-86 | the listing is an order-preserving subsequence of the collection; it holds only matching records and every matching record; its length is the number of matches |
| Flights.FetchFlightsNoFilter | furret-deploy/src/api/flights.ts:72-86 | without parameters, or with only empty ones and `"all"` for the tier, the listing is the collection unchanged |
| Flights.QualityFilterExact | furret-deploy/src/api/flights.ts:82-83 | the tier filter passes a record exactly when the record has that tier |
| Flights.GroupMember | furret-deploy/src/api/flights.ts:35-51 | member `i` of route `idx`'s group is record `3 * idx + i` and has tier `i` |
| Flights.GroupByQuality | furret-deploy/src/api/flights.ts:51-83 | filtering one route's group by a tier keeps only the group's record of that tier |
| Flights.ByQualityPicks | furret-deploy/src/api/flights.ts:82-84 | the tier listing is the column of each route's record of that tier |
| Flights.ColumnMember | furret-deploy/src/api/flights.ts:35-51 | entry `idx` of a tier column is record `3 * idx + tier` and has that tier |
| Flights.GeneratedByQuality | furret-deploy/src/api/flights.ts:82-84 | a tier listing of the generated collection returns seven records, one per route in route order, all of that tier |
| Flights.KhiMatches | furret-deploy/src/api/flights.ts:75 | `"khi"` matches `KHI` regardless of case, and matches neither `LHE` nor `ISB` |
| Flights.KhiRecord | furret-deploy/src/api/flights.ts:74-75 | record `n` passes the origin filter `"khi"` exactly when `n < 15` |
| Flights.GeneratedFromKhi | furret-deploy/src/api/flights.ts:74-76 | listing by origin `"khi"` returns the first fifteen records, in order |
| Flights.FetchFlightById | furret-deploy/src/api/flights.ts:89-92 | the result is None exactly when no record has the id; otherwise it is a record with that id, and no earlier record has it |
| Flights.FetchFlightByIdUnique | furret-deploy/src/api/flights.ts:91 | when ids are distinct, looking up a record's id returns that record |
| Flights.GeneratedById | furret-deploy/src/api/flights.ts:89-91 | in the generated collection, every record's id finds that record; `KHI-DXB-1` finds the first record; `nonexistent` finds nothing |
| Flights.QualityIndex | furret-deploy/src/api/flights.ts:33 | each tier's position in `dealQualities` (0, 1, 2) |
| Seqs.Flatten | furret-deploy/src/api/flights.ts:35 | the concatenation `flatMap` produces; `Seqs.FlattenUniform` and `Seqs.FlattenLength` state its layout |
| Text.Includes | furret-deploy/src/api/flights.ts:75-79 | the search `String.prototype.includes`; `Text.IncludesIffOccurs` characterises it |
| Text.Decimal | furret-deploy/src/api/flights.ts:42-50 | `String(n)` for a natural number; `Text.DecimalDigits` and `Text.DecimalRoundTrip` state its properties |
| Text.PadStart | furret-deploy/src/api/flights.ts:49-50 | `String.prototype.padStart`; `Text.PadStartShape` states its shape |
| Rounding.RoundRatio | furret-deploy/src/api/flights.ts:39-55 | `Math.round(p / q)`, rounding halves up; `Rounding.RoundBounds` and `Rounding.RoundUnique` characterise it |
| Seqs.Filter | furret-deploy/src/api/flights.ts:75 | `Array.prototype.filter` keeps only elements that pass, drawn from the input |
| Seqs.FilterCharacterised | furret-deploy/src/api/flights.ts:75-83 | a filter result is an order-preserving subsequence of passing elements that holds every passing element, with length equal to the count of passing elements |
| Seqs.SubsequenceBound | furret-deploy/src/api/flights.ts:75 | a subsequence of passing elements is no longer than the count of passing elements |
| Seqs.FilterUnique | furret-deploy/src/api/flights.ts:75 | the filter result is the only subsequence of passing elements of full count |
| Seqs.FilterAllPass | furret-deploy/src/api/flights.ts:72-74 | filtering when every element passes returns the input unchanged |
| Seqs.FilterNonePass | furret-deploy/src/api/flights.ts:75 | filtering when no element passes returns the empty sequence |
| Seqs.FilterExtensional | furret-deploy/src/api/flights.ts:75 | two callbacks that agree on every element filter alike |
| Seqs.FilterAppend | furret-deploy/src/api/flights.ts:75 | filter distributes over concatenation |
| Seqs.FilterPrefix | furret-deploy/src/api/flights.ts:75 | when exactly the first `k` elements pass, filter returns the prefix of length `k` |
| Seqs.FilterExactlyOne | furret-deploy/src/api/flights.ts:83 | when exactly one element passes, filter returns just that element |
| Seqs.FilterFusion | furret-deploy/src/api/flights.ts:74-84 | two successive filters equal one filter by their conjunction |
| Seqs.FlattenUniform | furret-deploy/src/api/flights.ts:35 | `flatMap` over groups of size `m` places member `i` of group `g` at `g * m + i` |
| Seqs.FlattenLength | furret-deploy/src/api/flights.ts:35 | `flatMap` over groups of size `m` has length `groups * m` |
| Seqs.FilterFlattenPick | furret-deploy/src/api/flights.ts:35-83 | when the filter keeps one fixed member of each group, the result is that column, in group order |
| Seqs.Find | furret-deploy/src/api/flights.ts:91 | `Array.prototype.find` is None exactly when no element passes; otherwise its result passes and no earlier element passes |
| Text.ToLower | furret-deploy/src/api/flights.ts:75-79 | `toLowerCase` keeps the length and maps each ASCII capital to its lower-case letter |
| Text.LowerChar | furret-deploy/src/api/flights.ts:75 | a lowered character is never an ASCII capital |
| Text.IncludesIffOccurs | furret-deploy/src/api/flights.ts:75-79 | `s.includes(t)` holds exactly when `t` occurs in `s` at some position |
| Text.IncludesSameLength | furret-deploy/src/api/flights.ts:75 | for strings of equal length, `includes` is equality |
| Text.DecimalDigits | furret-deploy/src/api/flights.ts:42-47 | `String(n)` is a nonempty string of digits, one digit below 10 and two digits below 100 |
| Text.DecimalValue | furret-deploy/src/api/flights.ts:42-47 | the digits of `String(n)` denote `n` |
| Text.DecimalRoundTrip | furret-deploy/src/api/flights.ts:42-47 | parsing `String(n)` gives back `n` |
| Text.LeadingZero | furret-deploy/src/api/flights.ts:49 | fact about the model's read-back parser, not a source operation: a leading zero does not change the value of a digit string |
| Text.PadStartShape | furret-deploy/src/api/flights.ts:49-50 | `padStart(width, fill)` leaves a string at least `width` long unchanged, and otherwise prepends fill characters up to `width` |
| Text.TwoDigitRoundTrip | furret-deploy/src/api/flights.ts:49-50 | `String(n).padStart(2, '0')` for `n < 100` is two digits that parse back to `n` |
| Text.Repeat | furret-deploy/src/api/flights.ts:49 | the fill of `padStart` is `n` copies of the fill character |
| Text.IndexOf | furret-deploy/src/api/flights.ts:47 | helper of the model's read-back parser for the duration text, not a source operation: the first position of a character, or None when it does not occur |
| Text.DigitChar | furret-deploy/src/api/flights.ts:42 | a digit below ten renders as a digit character |
| Text.DigitValue | furret-deploy/src/api/flights.ts:42 | helper of the model's read-back parser, not a source operation: a digit character's value is below ten |
| Rounding.RoundBounds | furret-deploy/src/api/flights.ts:39 | `Math.round(p / q)` is the integer `r` with `r - 1/2 <= p / q < r + 1/2` |
| Rounding.RoundUnique | furret-deploy/src/api/flights.ts:39 | any integer that meets the rounding condition is the rounded value |
| Rounding.RoundWhole | furret-deploy/src/api/flights.ts:45 | whole numbers round to themselves |
| Rounding.RoundScale | furret-deploy/src/api/flights.ts:39-45 | rounding does not depend on how the fraction is written |
| Rounding.RoundMonotone | furret-deploy/src/api/flights.ts:39-45 | rounding is monotone |
| Rounding.RoundNear | furret-deploy/src/api/flights.ts:55 | values at most half a unit apart round at most one apart |
| Rounding.RoundSum | furret-deploy/src/api/flights.ts:39-52 | rounding two parts separately is within one of rounding their sum |
| Rounding.RoundError | furret-deploy/src/api/flights.ts:45 | the rounding error is at most one half |
| Rounding.RoundRescaled | furret-deploy/src/api/flights.ts:45-52 | scaling by `c / m` with `c <= m` and rounding once is within one of rounding first and then scaling |

## Left out

- `setTimeout` latency in both queries (source lines 70 and 90) is not modelled. The queries are modelled as their resolved values.
- `Math.random` is not modelled as a generator. Its results are the caller-supplied draws, and the model makes no statement about their distribution.
- Only `Math.random()` results that are multiples of 2^-52 are modelled (the type `Flights.Draw`). The language requires only an approximately uniform value in [0, 1), and an engine may return values off this grid; those are not captured.
- `Date.now` and `toISOString().split('T')[0]` are not modelled. History dates are UTC day numbers counted from `today`, and the calendar text is not produced.
- Floating point is not modelled. The base price and all products are exact rationals, so a double-rounding difference at a `.5` boundary is not captured.
- `toLowerCase` is modelled for ASCII only. The route codes are ASCII; Unicode case mapping of a non-ASCII filter value is not modelled.
- The module-level `const mockFlights = generateMockFlights()` (line 62) is not modelled as state. Each query takes the collection as a parameter, and the generated-collection lemmas state what the queries return on it.
- Optional fields of the `Flight` interface (`originalPrice`, `savings`, `priceHistory`) are always present. The generator always sets them, and only it builds records.
- JavaScript truthiness of non-string parameter values is not modelled. The parameters are typed as optional strings, and truthiness is "present and not empty".
- Flights.PriceHistoryValid: the model reads the clock once per generation, where the source calls `Date.now()` for every history entry (line 54), 147 times per generation. "Consecutive days ending today" holds only under that single read. If a generation crosses UTC midnight, or the clock is adjusted during it, the source's history can skip or repeat a day and end a day later. Flights.MakeFlightHistory inherits the same assumption.
- Aliasing is not modelled. With no active filter, `fetchFlights` returns the module's own `mockFlights` array (lines 72 and 86), and both queries return the shared record objects, so a caller that mutates a result changes the collection. The model returns values.
- Flights.SavingsNearRoundedOriginal: the savings are stated to within one unit of the rounded original price times the rate, not equal to it. The source rounds the unrounded base price, so exact equality does not hold.
- Flights.PricePlusSavings: price plus savings is stated to within one unit of the original price, not equal to it, because three separate roundings are involved.

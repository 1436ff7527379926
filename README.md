# Flight search client: a verified model

This project models the logic of the `FlightSearchAPI` class in
`flight-api-integration.js`: a client for a flight-offer search service
that looks up offers from Chicago to Barcelona.

The model has seven modules. Five of them model the class:
- **`FlightSearch`**:
  - the class `FlightSearchApi`, with the two fields the source updates in
    place (`accessToken`, `tokenExpiry`);
  - `GetAccessToken`, the OAuth token cache (reuse a token or refresh it),
    proved against the pure transition `Acquire`;
  - `SearchFlights`, which gets a token, sends the query with a bearer
    header, and reports a non-OK reply as the source's error message.
- **`SearchQuery`**: the query parameters `searchFlights` builds. Every
  absent or falsy field takes its default. The preferred-airline list is
  comma-joined and appended whenever one is given.
- **`Offers`**: `formatFlightData`.
  - It keeps the first three offers, ranked from 1 in input order.
  - For each offer it derives the total duration, the stop label, the
    airline name, the `HH:MM` departure and arrival, the aircraft code with
    an `N/A` fallback, the price text and the booking link.
  - A malformed offer makes the source throw a TypeError. The model returns
    that error instead, in the order the source meets it.
  - The `forEach` loop is the method `FormatFlightData`, proved against
    `Collect`: every callback result in order, or the first error.
- **`Durations`**: `parseDuration` and `formatDuration`.
  - `ParseDuration` follows the unanchored regular expression
    `PT(\d+H)?(\d+M)?`: the match starts at the first `PT`, and each group
    is a maximal digit run followed by its unit letter.
  - `ReadDuration` reads the display format back and serves as the inverse
    that `FormatDuration` is checked against.
- **`Airlines`**: `getAirlineName` and its seven-entry table.

`Decimal` supplies the digit-string helpers (printing, reading back,
maximal digit runs). `Wrappers` holds `Option` and `Result`.

Where the code's behaviour is sharper than a plain reading, the model
follows the code:
- **Clock time.** `split('T')[1]` is the text between the first and the
  second `T`, not everything after the first.
- **Empty airline list.** A JavaScript array is truthy even when empty, so
  `includedAirlineCodes: []` still appends the parameter, with an empty
  value.
- **Token expiry.** The comparison is strict: a token whose expiry equals
  the current time is refreshed.
- **Two clock readings.** The source reads the clock twice. `now` decides
  whether the cached token is reused (line 16). `receivedAt`, read after
  the token reply, sets the new expiry (line 34).

## Model

| member | source | states |
|---|---|---|
| Decimal.Show | flight-api-integration.js:109 | a number prints as a non-empty digit string without a leading zero |
| Decimal.ValueOfShow | flight-api-integration.js:101 | reading back the digits of a printed number gives the number |
| Decimal.DigitRunIsMaximal | flight-api-integration.js:100 | `\d+` takes every digit up to the first non-digit or the end |
| Durations.FindPT | flight-api-integration.js:100 | a found position holds "PT" and lies at or after the search start |
| Durations.FindPTFirst | flight-api-integration.js:100 | the match starts at the leftmost "PT"; None means there is no "PT" at all |
| Durations.Group | flight-api-integration.js:100-102 | a group never moves the scan backwards or past the end |
| Durations.ParseFailsIffNoPT | flight-api-integration.js:100-101 | parsing fails (the source throws) exactly when the text holds no "PT" |
| Durations.ParseAtStart | flight-api-integration.js:100 | text that begins with "PT" is matched from position 0 |
| Durations.ParseSkipsPrefix | flight-api-integration.js:100-104 | text before the first "PT" that holds no "PT" does not change the result ("xPT2H30M" parses like "PT2H30M") |
| Durations.ParseHoursMinutes | flight-api-integration.js:99-104 | any text starting "PT<h>H<m>M" parses to h*60+m, whatever follows |
| Durations.GroupAtEnd | flight-api-integration.js:100-103 | digits that run to the end of the text, with no unit letter after them, are no group |
| Durations.ParseHoursTrailingDigits | flight-api-integration.js:99-104 | "PT<h>H" followed only by digits parses to h*60: the trailing digits are not minutes |
| Durations.ParseBareDigits | flight-api-integration.js:99-104 | "PT" followed only by digits parses to 0 |
| Durations.ParseHoursOnly | flight-api-integration.js:99-104 | "PT<h>H" with no digit next parses to h*60 (missing minutes count 0) |
| Durations.ParseMinutesOnly | flight-api-integration.js:99-104 | "PT<m>M" parses to m (missing hours count 0) |
| Durations.ParseNoGroups | flight-api-integration.js:101-103 | "PT" with no digit next parses to 0 |
| Durations.ExampleNoMatch | flight-api-integration.js:100-101 | "2H30M" has no "PT" and fails |
| Durations.FormatHoursMinutes | flight-api-integration.js:106-110 | h*60+m with m<60 displays as "<h>h <m>m" |
| Durations.ReadFormatted | flight-api-integration.js:106-110 | reading a formatted duration back gives the minutes; the minutes field is below 60 |
| Durations.FormatInjective | flight-api-integration.js:106-110 | different minute counts display differently |
| Durations.ParseThenFormat | flight-api-integration.js:99-110 | for m<60, formatting the parse of "PT<h>H<m>M" gives "<h>h <m>m" |
| Durations.IsoDurationExamples | flight-api-integration.js:78-86 | the vendor forms of 2h30m and 1h15m are "PT2H30M" and "PT1H15M" |
| Durations.SumOfTwoLegs | flight-api-integration.js:78-86 | legs "PT2H30M" and "PT1H15M" display as "3h 45m" together |
| Durations.FormatExample | flight-api-integration.js:106-110 | 225 minutes display as "3h 45m" |
| Airlines.AirlineName | flight-api-integration.js:112-123 | the result is the code itself exactly when the table lacks the code |
| Airlines.KnownCarrierNames | flight-api-integration.js:113-121 | the seven codes map to their listed names, and the table has no other key |
| Airlines.UnknownCodeUnchanged | flight-api-integration.js:122 | any other code (such as "XX") is returned unchanged |
| Airlines.AirlineNameIdempotent | flight-api-integration.js:112-123 | looking up a looked-up name changes nothing |
| Offers.Shown | flight-api-integration.js:74 | at most three offers are kept, and all of them when there are fewer |
| Offers.ShownOffers | flight-api-integration.js:74 | the kept offers are the first min(3, n), in input order |
| Offers.ClockTime | flight-api-integration.js:88-89 | the result is missing (the source throws) exactly when the timestamp has no 'T'; otherwise it is the longest prefix, up to 5 characters, of the text after the first 'T' that holds no 'T' |
| Offers.ClockTimeOf | flight-api-integration.js:88-89 | "<date>T<time>" gives the first five characters of the time |
| Offers.ClockTimeExample | flight-api-integration.js:88 | "2025-08-05T10:30:00" gives "10:30" |
| Offers.StopsLabelCases | flight-api-integration.js:87 | 0 is "Nonstop", 1 is "1 stop", n>1 is "<n> stops" |
| Offers.StopsLabelInjective | flight-api-integration.js:87 | different stop counts get different labels |
| Offers.AircraftLabel | flight-api-integration.js:90 | a present, non-empty code is shown as is; otherwise "N/A"; never empty |
| Offers.FirstError | flight-api-integration.js:75-89 | an offer raises no error exactly when it is well formed |
| Offers.FirstErrorOrder | flight-api-integration.js:75-89 | each of the seven errors is reported exactly when all earlier checks pass and its own fails, in the order the source evaluates them |
| Offers.WellFormedIff | flight-api-integration.js:75-89 | well formed means two itineraries, "PT" in both durations, an outbound segment, and a 'T' in the first departure and the last arrival |
| Offers.Summarize | flight-api-integration.js:75-92 | the summary exists exactly when the offer is well formed, and it is ranked index+1 |
| Offers.SummaryFields | flight-api-integration.js:79-91 | stops come from the outbound segment count less one; airline, departure and aircraft from the first outbound segment; arrival from the last; price and booking link from the offer |
| Offers.SummaryDurationParsed | flight-api-integration.js:78-86 | the duration shown is the parsed outbound plus the parsed return duration, formatted |
| Offers.Collect | flight-api-integration.js:74-93 | a successful collection has one result per element |
| Offers.CollectValue | flight-api-integration.js:74-93 | each collected result is the callback's for its own element and index |
| Offers.CollectOkIff | flight-api-integration.js:74-93 | collection succeeds exactly when the callback succeeds on every element |
| Offers.CollectErr | flight-api-integration.js:74-93 | a failure carries the error of the first failing element; all before it succeed |
| Offers.CollectErrPrefix | flight-api-integration.js:74-93 | once a prefix fails, the rest is not looked at |
| Offers.FormatFlightData | flight-api-integration.js:71-96 | the loop's result equals collecting the summaries of the kept offers |
| Offers.FormatOkIff | flight-api-integration.js:74-93 | the result is a list exactly when every kept offer is well formed |
| Offers.FormatCount | flight-api-integration.js:74 | a successful result has min(3, n) flights, so exactly 3 when n >= 3 |
| Offers.FormatShownFlight | flight-api-integration.js:74-83 | flight i is the summary of offer i and has rank i+1: no reordering |
| Offers.FormatErr | flight-api-integration.js:74-93 | a failure is the error of the first malformed kept offer |
| Offers.FormatOnlyShown | flight-api-integration.js:74 | offers after the third never change the result |
| SearchQuery.OrDefault | flight-api-integration.js:43-49 | a present, non-empty value is kept; an absent or empty one takes the default |
| SearchQuery.Join | flight-api-integration.js:54 | no codes join to "", one code to itself |
| SearchQuery.QueryValues | flight-api-integration.js:42-50 | each of the seven parameters is the caller's truthy value or its default (ORD, BCN, 2025-08-05, 2025-08-08, 1, BUSINESS, 10) |
| SearchQuery.QueryAirlines | flight-api-integration.js:53-55 | includedAirlineCodes is present, comma-joined, exactly when a list is given |
| SearchQuery.DefaultQuery | flight-api-integration.js:42-50 | with no fields at all, the query is exactly the seven defaults in order |
| SearchQuery.QueryOf | flight-api-integration.js:42-55 | seven parameters, eight when an airline list is given |
| SearchQuery.QueryKeys | flight-api-integration.js:42-55 | the parameter names are exactly the seven, in insertion order, then `includedAirlineCodes` when a list is given; nothing else is sent |
| SearchQuery.QueryKeysDistinct | flight-api-integration.js:42-55 | no parameter name occurs twice |
| SearchQuery.SplitJoin | flight-api-integration.js:54 | a non-empty list of comma-free codes splits back from its join |
| SearchQuery.EmptyAirlineList | flight-api-integration.js:53-54 | an empty list is sent as "", which splits to [""] rather than [] |
| FlightSearch.Refreshed | flight-api-integration.js:33-34 | after a fetch the token is the grant's, and the expiry is the clock plus expires_in*1000 (none when expires_in is missing) |
| FlightSearch.Acquire | flight-api-integration.js:15-36 | a fetch happens exactly when the cache is not reusable; without one the cache is unchanged; the token returned is the one cached afterwards; after a fetch the cache holds the granted token and the expiry computed from the grant (`Refreshed`) |
| FlightSearch.BearerHeader | flight-api-integration.js:59 | a token t is sent as "Bearer t"; a missing one as "Bearer undefined" |
| FlightSearch.Outcome | flight-api-integration.js:63-67 | the search succeeds exactly on an OK reply, with the reply's body; otherwise it rejects with the message "API Error: <status> <statusText>" |
| FlightSearch.FlightSearchApi.constructor | flight-api-integration.js:9-12 | a new client has no token and no expiry |
| FlightSearch.FlightSearchApi.GetAccessToken | flight-api-integration.js:15-36 | the new fields, the token and whether a fetch happened are exactly Acquire's |
| FlightSearch.FlightSearchApi.SearchFlights | flight-api-integration.js:39-68 | the cache is updated as by Acquire; the request carries the built query and the acquired token; the result is the reply's outcome |
| FlightSearch.FirstCallFetches | flight-api-integration.js:9-17 | a new client always fetches a token |
| FlightSearch.ReuseWithinLifetime | flight-api-integration.js:15-36 | after a fetch of a usable token, a call before its expiry returns the same token without a fetch |
| FlightSearch.RefetchFromExpiry | flight-api-integration.js:16 | a call at or after the expiry fetches again |
| FlightSearch.ExpiryBoundary | flight-api-integration.js:16 | at the expiry instant itself the token is refreshed |
| FlightSearch.UnusableGrantRefetches | flight-api-integration.js:16-34 | a grant with an empty or missing token, or with no expires_in, is never reused |
| FlightSearch.ReusableEarlier | flight-api-integration.js:16 | a token good at some time is good at every earlier time |
| FlightSearch.AtMostOneFetch | flight-api-integration.js:15-36 | two calls made one after the other, with the clock unchanged, fetch at most once when the token lasts at least a second |
| FlightSearch.BearerCarriesToken | flight-api-integration.js:59 | the token follows the "Bearer " prefix unchanged |
| FlightSearch.ApiErrorInjective | flight-api-integration.js:64 | the error message determines the status and the status text |

## Left out

- Network I/O is not modelled: the token request, the search request, `response.json()` and the base URL. Replies are method parameters: a `TokenGrant` and an `HttpReply`.
- A token reply without a JSON body is not modelled; in the source, `response.json()` would throw.
- The percent-encoding `URLSearchParams` applies when the query becomes the URL text is not modelled. The model keeps the query as ordered key/value pairs.
- `Date.now()` is two parameters, `now` and `receivedAt`.
- `async`/`await` is not modelled: calls run one after another, and two concurrent `getAccessToken` calls cannot interleave.
- Price parsing (`Math.round(parseFloat(...))`) is floating point. An offer carries the price already rounded, as a non-negative integer.
- `updateFlightPrices`, `updateWebsiteWithRealTimeData` and the module export lines are not modelled: they are logging and orchestration.
- Field types are the ones the source expects:
  - durations, timestamps and codes are strings;
  - `expires_in` is a non-negative integer;
  - search fields are strings.
  A numeric field such as the `maxResults: 10` of the usage example, a numeric 0, a non-array `includedAirlineCodes`, or a missing `duration` or `departure` object is outside the model.
- Durations.ParseDuration: `parseInt` on digit runs beyond 2^53 loses precision in JavaScript, and the model uses exact integers.
- Decimal.Show: JavaScript prints numbers of 10^21 and above in exponent notation, and the model always prints plain digits.
- Airlines.AirlineName: in JavaScript, code strings such as "constructor" also hit the object's prototype chain. The model table has exactly the seven entries.
- FlightSearch.Refreshed: the `NaN` expiry of a reply without `expires_in` is modelled as no expiry. Both fail every comparison with the clock.
- Offers.ClockTime: Dafny strings are sequences of Unicode scalar values, while `split('T')` and `substring(0, 5)` count UTF-16 code units. The two differ only on text with characters outside the Basic Multilingual Plane, which ISO timestamps never contain.

# Flight monitor core, modelled in Dafny

The flight monitor watches return-flight prices on the Amadeus flight-offers API.

- A user submits a route, two base dates with 0–3 "flex days" each, and a poll interval.
- The server searches every (departure day, return day) pair in the two date windows.
- It normalises each offer into a flight summary and stores the summaries with a one-entry price history.
- An interval timer repeats the search. Each time it runs, every stored flight that reappears gets the new price appended to its history.
- The client has its own copy of the date window and of the history merge. It also has the search form's change handlers.
- A shared `AmadeusOffer` wrapper answers queries about one search response.

This project models that sequential core and proves what it promises.

| module (file) | what it models |
|---|---|
| `Text` (text.dfy) | the JavaScript string operations the core relies on: `split('T')[0]`, `includes`, `toUpperCase` (ASCII), `<` on strings, `parseInt`, the regular expression `(\d+)H` |
| `Calendar` (calendar.dfy) | dates as day numbers since 1970-01-01 UTC, instants as milliseconds (`None` for an invalid `Date`), and `formatDate` |
| `AmadeusTypes` (amadeus_types.dfy) | the API's response shapes, the search form and the flight summary |
| `Offers` (amadeus_offer.dfy) | the queries, filter and validation of `AmadeusOffer` |
| `AmadeusClient` (amadeus_client.dfy) | `AmadeusApi`: the token answer, the request body and the classification of the search answer |
| `Shared` (shared.dfy) | `generateDateRange` and `POLL_INTERVALS` |
| `Search` (search.dfy) | `FlightMonitor.searchFlights` with `createSearchParams`, the cabin filter and `parseAmadeusOffer` |
| `Monitor` (monitor.dfy) | the `FlightMonitor` class: the registry of timers, the Prisma store as two maps, start, stop, the poll tick and the two queries |
| `Validation` (validation.dfy) | the two request-check middlewares |
| `SearchFormHandlers` (search_form.dfy) | the search form's change handlers |
| `ClientApi` (client_api.dfy) | the client's `processFlightData` |

## How the outside world appears

- **The Amadeus API** is a function parameter.
  - The monitor and the search take `api: (Credentials, SearchForm) -> Result<AmadeusResponse, string>`. A `Failure` stands for a thrown error.
  - `AmadeusClient.SearchFlights` takes two functions: one answers the token request and one answers the search request.
  - The search methods also return the list of parameters they passed to the API, in call order. That list is how the model states "one call per pair, in this order".
- **The Prisma store** is two fields of the class: `monitorTable` and `flightTable`.
  - Whether a database write throws is a parameter: `upsertFails` for `startMonitoring`, `storeFailsAt` for a poll tick.
- **A timer** is an opaque handle.
  - A tick of the interval timer is an explicit call of `PollTick`.
  - The tick searches again with the credentials and form that the timer captured.
- **The clock** (`new Date()` in `validateOffer` and `validateFlightDetails`) is a parameter `now`, in milliseconds.
- **`new Date(text)`** is the instant that text denotes. Any date the model renders is first brought down to a day number.

## Where the code departs from its evident intent

- **`alternativeDate`.** The server's `parseAmadeusOffer` compares a fresh `Date` with a string using `!==`, so the flag is always true (packages/server/src/services/monitor.ts:55 and :66). The client's `processFlightData` compares the date strings instead (packages/client/src/lib/api.ts:90 and :101), flagging a leg iff its departure day differs from the base day. See Findings. The model of the server search uses the client's comparison.
- **Cabin filter.** The server tests `preferredCabins.includes(cabin)` (packages/server/src/services/monitor.ts:160). `preferredCabins` is a single string, so this is a substring test. `AmadeusOffer.hasRequestedCabinClass` (packages/shared/src/models/AmadeusOffer.ts:143-148) compares cabins for equality. See Findings. The model of the server search uses equality.
- **Arrival of a leg.** Both `parseAmadeusOffer` and `processFlightData` read the arrival of the first segment of each itinerary, and the model does the same.
- **`startMonitoring` can fail without touching the store.** Per-pair search errors are swallowed. But the two date windows are computed before the per-pair `try` (packages/server/src/services/monitor.ts:119-126). So an invalid or missing date makes `searchFlights`, and with it `startMonitoring`, throw. A failed upsert is the other cause. Either way no timer is left for the id.
- **The lookup key of the tick.**
  - The tick looks a flight up with `where: { id: flight.id }` (packages/server/src/services/monitor.ts:278 and :297). `flight.id` there is the Amadeus offer id.
  - The row was created with that offer id in `amadeusId` (packages/server/src/services/monitor.ts:244), and its own `id` is generated by the database.
  - So as written, the lookup only finds a row whose generated id equals an offer id. `getFlightHistory` (packages/server/src/services/monitor.ts:357) looks up the same way. See Findings.
  - `Monitor.SeedRows` and `Monitor.TickMissesGeneratedIds` model the code as written. The class keys its flight table by offer id, which gives the update rule the tick intends.
- **Three copies of `generateDateRange`.** `generateDateRange` exists at packages/shared/src/utils.ts:3-15, packages/client/src/lib/api.ts:46-58 and packages/server/src/services/monitor.ts:203-213. All three are the same loop, so one method models them.

## Model

| member | source | states |
|---|---|---|
| `Text.DatePart` | packages/client/src/lib/api.ts:69-72 | `split('T')[0]` is a prefix of the text with no 'T' in it. It is the whole text, or it ends just before the first 'T'. |
| `Text.DatePartOfPrefix` | packages/client/src/lib/api.ts:69-72 | The date part of `d + "T" + rest` is `d`, for any `d` without a 'T'. |
| `Text.Includes` | packages/server/src/services/monitor.ts:160 | `hay.includes(needle)` is true iff `needle` occurs in `hay` at some index as a contiguous substring. |
| `Text.Upper` | packages/client/src/app/components/FlightSearchForm.tsx:119 | `toUpperCase` keeps the length and maps each character independently. |
| `Text.UpperIdempotent` | packages/client/src/app/components/FlightSearchForm.tsx:119 | Upper-casing twice is upper-casing once. |
| `Text.LexTrichotomy` | packages/client/src/app/components/FlightSearchForm.tsx:44-61 | The `<` order on strings is total: of two different strings, one is smaller. |
| `Text.LexIrreflexive` | packages/client/src/app/components/FlightSearchForm.tsx:44-61 | No string is `<` itself. |
| `Text.ParseIntRoundTrip` | packages/client/src/app/components/FlightSearchForm.tsx:74 | `parseInt(String(n)) == n` for every integer. |
| `Text.NumberBeforeAbsent` | packages/shared/src/models/AmadeusOffer.ts:73-74 | `(\d+)H` does not match a text without 'H' from the starting index on. |
| `Text.NumberBeforeRun` | packages/shared/src/models/AmadeusOffer.ts:73-74 | A digit run followed directly by 'H' is the leftmost match, and its value is captured. |
| `Text.NumberBeforeSkipRun` | packages/shared/src/models/AmadeusOffer.ts:73-74 | A digit run followed by some other non-digit is skipped whole. |
| `Calendar.EpochIsoDate` | packages/server/src/services/amadeus.ts:46-48 | Day 0 renders as `1970-01-01`. |
| `Calendar.IsoDateShape` | packages/server/src/services/amadeus.ts:46-48 | A date in years 0–9999 renders with the `YYYY-MM-DD` shape. |
| `Calendar.IsoDateHasNoT` | packages/server/src/services/amadeus.ts:48 | A rendered date contains no 'T', so `split('T')[0]` keeps all of it. |
| `Calendar.FormatDateShape` | packages/server/src/services/amadeus.ts:46-56 | When `formatDate` succeeds on a date that fits four year digits, the result matches `^\d{4}-\d{2}-\d{2}$`. |
| `Calendar.FormatDateIdempotent` | packages/server/src/services/amadeus.ts:46-56 | Formatting a formatted date returns it unchanged. |
| `Calendar.BaseInstant` | packages/server/src/services/monitor.ts:119-126 | `new Date(formatDate(d))` fails exactly when `formatDate(d)` throws. |
| `Offers.OfferIndex` | packages/shared/src/models/AmadeusOffer.ts:41-43 | The position found is the first offer with the id. There is none iff no offer has the id. |
| `Offers.FindOffer` | packages/shared/src/models/AmadeusOffer.ts:41-43 | `getFlightOfferById` returns the first offer with the id, or undefined iff there is none. |
| `Offers.TotalPrice` | packages/shared/src/models/AmadeusOffer.ts:62-65 | The first matching offer's total, or undefined iff the id is unknown. |
| `Offers.SegmentCount` | packages/shared/src/models/AmadeusOffer.ts:79-82 | The number of segments of the first itinerary. It is 0 for an unknown id or an offer without itineraries. |
| `Offers.FlightDuration` | packages/shared/src/models/AmadeusOffer.ts:67-77 | Undefined iff the offer, its first itinerary or that itinerary's duration is missing or empty. Otherwise the parsed hours and minutes. |
| `Offers.ParseDurationText` | packages/shared/src/models/AmadeusOffer.ts:71-76 | Parsing any `PT{h}H{m}M` text gives back h and m, and a missing part reads as 0. |
| `Offers.RouteDescription` | packages/shared/src/models/AmadeusOffer.ts:84-93 | Undefined iff the offer or its first itinerary is missing. It throws iff that itinerary has no segment. Otherwise it is first departure code + " → " + last arrival code. |
| `Offers.FindOffersByParams` | packages/shared/src/models/AmadeusOffer.ts:130-146 | It throws iff some offer has no first segment. Otherwise the result is an order-preserving subsequence. Every kept offer meets each truthy criterion (origin, destination, price ≤ max, one segment when non-stop, cabin equality), and every offer meeting them all is kept, as many times as it occurs in the input. |
| `Offers.ZeroMaxPriceImposesNothing` | packages/shared/src/models/AmadeusOffer.ts:140 | A maximum price of 0 filters exactly like no maximum price. |
| `Offers.JsRem` | packages/shared/src/models/AmadeusOffer.ts:188 | JavaScript's `%` keeps the sign of the dividend and stays below the divisor in magnitude. |
| `Offers.ConnectionParts` | packages/shared/src/models/AmadeusOffer.ts:186-188 | For a non-negative gap: hours ≥ 0 and minutes in [0, 59], and hours·3600000 + minutes·60000 ≤ gap < that + 60000. |
| `Offers.ConnectionDurationParses` | packages/shared/src/models/AmadeusOffer.ts:180-190 | The text `calculateConnectionDuration` writes for a non-negative gap parses back, through `getFlightDuration`'s parser, to its hours and minutes. |
| `Offers.GetConnections` | packages/shared/src/models/AmadeusOffer.ts:157-178 | For an unknown id, []. It throws iff the offer has no itinerary. Otherwise there are segments−1 entries, and entry i joins the arrival of segment i to the departure of segment i+1. |
| `Offers.GetAvailability` | packages/shared/src/models/AmadeusOffer.ts:247-260 | `{0, false}` for an unknown id. Otherwise the first match's seat count, and available iff that count > 0. |
| `Offers.ValidateOffer` | packages/shared/src/models/AmadeusOffer.ts:207-244 | An unknown id gives exactly one 404 `OFFER_NOT_FOUND`. Otherwise the list is exactly `EXPIRED_OFFER` if the last ticketing date is before now, followed by `NO_SEATS` if the offer is not available. Each appears at most once and nothing else appears. |
| `AmadeusClient.GetToken` | packages/server/src/services/amadeus.ts:28-39 | Throws "Authentication failed: " + status text iff the answer is not ok. Otherwise returns the access token. |
| `AmadeusClient.BuildRequestBody` | packages/server/src/services/amadeus.ts:68-115 | Throws the departure date's error first, then the return date's. Otherwise the body has EUR, GDS, 200 offers, the economy restriction, `adults` or 1 travellers and the non-stop flag. Leg 1 runs origin→destination on the formatted departure date, upper-cased. There is a leg 2 iff a return date is truthy, and it runs in the opposite direction. |
| `AmadeusClient.SearchFlights` | packages/server/src/services/amadeus.ts:58-173 | A failed token answer means no request is sent. A request is sent iff both dates format, and it is the body above. A non-ok answer, a non-JSON body and a body without `data` each throw their exact message. Otherwise the parsed response is returned. |
| `Shared.DateWindow` | packages/shared/src/utils.ts:3-15 | 2·flex+1 consecutive ascending days, with the base at index flex. `[base]` for flex 0, and empty for a negative flex. It fails iff there is a day to render from an invalid base. |
| `Shared.GenerateDateRange` | packages/shared/src/utils.ts:3-15 | The loop produces exactly `DateWindow(base, flex)`. |
| `Shared.PollIntervalsIncreasing` | packages/shared/src/utils.ts:17-22 | The offered intervals strictly increase and are each at least one minute. |
| `Search.CreateSearchParamsRequest` | packages/server/src/services/monitor.ts:72-97 | The request built for a date pair has two legs, on exactly those two days, for one adult, with non-stop false. |
| `Search.AirlineOf` | packages/server/src/services/monitor.ts:44-46 | The carrier's dictionary name when it is non-empty, else the first validating code. |
| `Search.ParseOfferAsWritten` | packages/server/src/services/monitor.ts:21-70 | As written, both legs are always flagged as on an alternative date. |
| `Search.ParseOffer` | packages/server/src/services/monitor.ts:21-70 | The summary has the offer's id and total, history `[price]`, the airline above and the first segment of each itinerary. There is a return leg iff a second itinerary exists. Each leg is flagged iff its departure's date part differs from the base date. |
| `Search.AlternativeDateAlwaysFlagged` | packages/server/src/services/monitor.ts:55 | A flight departing on the base date itself is flagged as written, and not flagged by the intended rule. |
| `Search.CabinFilterAsWritten` | packages/server/src/services/monitor.ts:154-166 | As written: an order-preserving subsequence that keeps exactly the offers with a fare whose cabin passes the substring test, each as many times as it occurs in the input. It is everything when no cabin is preferred. |
| `Search.CabinFilter` | packages/server/src/services/monitor.ts:154-166 | An order-preserving subsequence. It keeps exactly the offers with a fare in the preferred cabin, each as many times as it occurs in the input. Without a preferred cabin it keeps everything. |
| `Search.EconomyPassesPremiumFilter` | packages/server/src/services/monitor.ts:160 | With PREMIUM_ECONOMY preferred, an economy-only offer passes the as-written filter and fails the intended one. |
| `Search.CabinFilterNarrows` | packages/server/src/services/monitor.ts:160 | Every offer the intended filter keeps, the as-written filter keeps too. |
| `Search.PairFlightsContents` | packages/server/src/services/monitor.ts:138-184 | A pair contributes nothing when its call throws or its response is not valid. Otherwise it contributes the cabin-filtered offers parsed in order, or nothing if parsing one of them throws. |
| `Search.BaseDay` | packages/server/src/services/monitor.ts:119-126 | The base day fails exactly when `formatDate` throws. |
| `Search.Expansion` | packages/server/src/services/monitor.ts:119-126 | Both windows exist only if both dates format. The departure date's error comes first, and a missing return date throws. |
| `Search.Pairs` | packages/server/src/services/monitor.ts:130-131 | There are \|departure days\|·\|return days\| pairs. |
| `Search.PairsAt` | packages/server/src/services/monitor.ts:130-131 | Pair number i·\|rs\|+j is (departure day i, return day j): departure outer, return inner. |
| `Search.FailedPairAddsNothing` | packages/server/src/services/monitor.ts:185-193 | A failing or invalid pair adds nothing, and the pairs after it still contribute. |
| `Search.SearchResult` | packages/server/src/services/monitor.ts:111-201 | The search fails iff a date window cannot be computed. |
| `Search.SearchRow` | packages/server/src/services/monitor.ts:131-195 | The inner loop makes one call per return day, in order, and concatenates what each pair contributes. |
| `Search.ExpandDates` | packages/server/src/services/monitor.ts:118-125 | The two date windows the search iterates over, or the error `formatDate` throws first. |
| `Search.SearchPairs` | packages/server/src/services/monitor.ts:127-200 | The nested loops make one call per date pair, departure outer and return inner. The collected flights are each pair's contribution, concatenated in pair order. |
| `Search.SearchFlights` | packages/server/src/services/monitor.ts:111-201 | The result is the in-order concatenation of the per-pair contributions. A date failure makes no call. Otherwise call k is the parameters of pair k. |
| `Monitor.SeededRoundTrip` | packages/server/src/services/monitor.ts:243-250 | Storing a fresh summary and reading it back through `getFlights` gives the summary again. |
| `Monitor.WithoutMonitor` | packages/server/src/services/monitor.ts:241 | `deleteMany` removes exactly the monitor's rows and leaves every other row unchanged. |
| `Monitor.SeedEffect` | packages/server/src/services/monitor.ts:242-251 | After `createMany`, a key holds the seeded row of the last result with that id, or its old row. |
| `Monitor.ReplaceFlightsEffect` | packages/server/src/services/monitor.ts:235-269 | After the upsert, the monitor's rows are exactly the fresh results, each with history `[price]`, and other monitors' rows are untouched. |
| `Monitor.ReplaceFlightsConsistent` | packages/server/src/services/monitor.ts:235-269 | The upsert keeps the store consistent: every row is keyed by its offer id, and its price is the last entry of a non-empty history. |
| `Monitor.TickStoreEffect` | packages/server/src/services/monitor.ts:277-305 | A tick adds and removes no row. Each row gets exactly the prices of the results with its key appended, in order, and the last one becomes its price. |
| `Monitor.TickStoreAppend` | packages/server/src/services/monitor.ts:270-305 | Ticks compose: a tick over some results and then a tick over more gives the single tick over both runs. With `TickStoreEffect`, a history after many ticks is the old history followed by every price its key received, in order. |
| `Monitor.TickHistoryAppendOnly` | packages/server/src/services/monitor.ts:277-305 | A tick keeps the store consistent. Old histories are prefixes of the new ones. A row that no result carries is unchanged. |
| `Monitor.TickStoreMisses` | packages/server/src/services/monitor.ts:276-303 | A tick whose results carry no key of the table leaves the table unchanged. |
| `Monitor.SeedRows` | packages/server/src/services/monitor.ts:242-251 | As written, `createMany` stores each result under a generated row id. The keys afterwards are exactly the old keys plus the generated ids. |
| `Monitor.TickMissesGeneratedIds` | packages/server/src/services/monitor.ts:277-279 | As written, when no generated row id is an offer id of the results, a tick after the upsert finds no row. The table is unchanged and no result's offer id is a stored key, so `getFlightHistory` of it gives []. |
| `Monitor.FlightMonitor.constructor` | packages/server/src/services/monitor.ts:15-19 | It starts with no running monitors and an empty store. |
| `Monitor.FlightMonitor.StopMonitoring` | packages/server/src/services/monitor.ts:326-334 | The id leaves the registry and nothing else changes. It is a no-op for an id without a timer, so it is idempotent. |
| `Monitor.FlightMonitor.StartMonitoring` | packages/server/src/services/monitor.ts:215-324 | It succeeds iff the search succeeds and the upsert does not fail. On success the monitor row is written, the flights are replaced by the fresh results and a fresh timer is registered. On failure the error is rethrown, no timer is left for the id and the store is unchanged. |
| `Monitor.FlightMonitor.Persist` | packages/server/src/services/monitor.ts:235-315 | The upsert writes the monitor row and replaces its flights with the fresh results. The timer is then registered under a new handle. The registry stays valid: every running id is persisted and the handles are distinct. |
| `Monitor.RegisterFresh` | packages/server/src/services/monitor.ts:315 | Registering a timer under the next unused handle keeps all handles distinct. |
| `Monitor.ListsAppend` | packages/server/src/services/monitor.ts:343-351 | Appending the summary of a row not yet listed keeps the listing exact: one summary per listed key, each equal to its row's view, with no key twice. |
| `Monitor.FlightMonitor.PollTick` | packages/server/src/services/monitor.ts:271-313 | Only the flight table changes. It is unchanged for an unregistered id or a failing search. Otherwise the tick rule is applied to the results, up to the first store failure. |
| `Monitor.FlightMonitor.ApplyResults` | packages/server/src/services/monitor.ts:277-305 | The loop applies the tick rule to the results in order, stopping at a store failure, and keeps the store consistent. |
| `Monitor.FlightMonitor.RecordPrice` | packages/server/src/services/monitor.ts:277-303 | For one result, a stored flight with its id takes the new price and gets it appended to its history, whether or not the price changed. An unknown id changes nothing, and only the flight table changes. |
| `Monitor.FlightMonitor.GetFlights` | packages/server/src/services/monitor.ts:336-352 | Exactly the monitor's rows, one summary per row, with no id twice. |
| `Monitor.FlightMonitor.GetFlightHistory` | packages/server/src/services/monitor.ts:354-367 | The stored, non-empty history of the flight, or [] for an unknown id. |
| `Validation.ValidateCredentials` | packages/server/src/middleware/validation.ts:10-22 | 400 "Missing API credentials" iff the client id or secret is missing or empty. Otherwise `next()`. |
| `Validation.ValidateFlightDetails` | packages/server/src/middleware/validation.ts:24-69 | The six checks run in order and the first failing one answers 400 with its message. `next()` iff all pass. |
| `Validation.AcceptedDetails` | packages/server/src/middleware/validation.ts:32-68 | An accepted request has two three-letter codes, now ≤ departure < return, and one of the offered poll intervals. |
| `Validation.SameDayReturnRefused` | packages/server/src/middleware/validation.ts:56-60 | A return at the departure instant is refused with "Return date must be after departure date". |
| `Validation.PollIntervalsAccepted` | packages/server/src/middleware/validation.ts:62-66 | The intervals the check accepts are exactly the offered `POLL_INTERVALS` values, in order. |
| `SearchFormHandlers.HandleDateChange` | packages/client/src/app/components/FlightSearchForm.tsx:40-62 | Afterwards departure ≤ return, whatever the state before. A later departure or an earlier return sets both dates. Otherwise only the edited date changes. |
| `SearchFormHandlers.FlexDays` | packages/client/src/app/components/FlightSearchForm.tsx:74 | Always in [0, 3]. Non-numeric text gives 0, 0–3 is kept, and other values are clamped. |
| `SearchFormHandlers.HandleFlexDaysChange` | packages/client/src/app/components/FlightSearchForm.tsx:64-76 | Only the edited flex-day field changes, to the clamped count. |
| `SearchFormHandlers.FlexDaysTyped` | packages/client/src/app/components/FlightSearchForm.tsx:74 | Typing a count from 0 to 3 sets exactly that count. |
| `SearchFormHandlers.HandleOriginChange` | packages/client/src/app/components/FlightSearchForm.tsx:119 | Only the origin changes, to the typed text with ASCII lower-case letters capitalised. |
| `SearchFormHandlers.HandleDestinationChange` | packages/client/src/app/components/FlightSearchForm.tsx:132 | Only the destination changes, to the typed text with ASCII lower-case letters capitalised. |
| `SearchFormHandlers.TypedCodeAccepted` | packages/client/src/app/components/FlightSearchForm.tsx:114-135 | Three ASCII letters typed in either case become a code that the server's `^[A-Z]{3}$` check accepts. Typing the stored code again changes nothing. |
| `ClientApi.FindExisting` | packages/client/src/lib/api.ts:67 | The first on-screen flight with the id, or none iff there is none. |
| `ClientApi.ProcessOffer` | packages/client/src/lib/api.ts:66-105 | The history is the first match's history plus the new price, so its length grows by one and its last entry is the price. The airline is the first validating code. A leg is flagged iff its date part differs from the base date. There is a return leg iff a second itinerary exists. |
| `ClientApi.ProcessFlightData` | packages/client/src/lib/api.ts:60-106 | It throws iff some offer lacks a first segment where one is read. Otherwise there is one summary per offer, in order, and on-screen flights absent from the data are dropped. |

## Left out

- The network: the HTTP exchanges of `getToken` and `searchFlights` are function parameters. `getAccessToken` and `fetchFlights` on the client are not part of this model.
- Prisma: upsert, `findUnique` and `update` are map operations, and whether one throws is a parameter. Row-level isolation between concurrent writers is not modelled.
- Timers and async interleaving: `setInterval`/`clearInterval` are handles, and a tick is an explicit `PollTick` call. Interleaving between monitors, and a tick still running after `stopMonitoring`, are not modelled.
- The `timestamp` field, `updatedAt` and every other reading of the clock are left out. `now` is a parameter where a comparison uses it.
- `toLocaleString`: a leg keeps its departure and arrival timestamp text instead of the locale rendering.
- Time zones: `new Date(text)`, `setDate` and `getDate` are taken in UTC. Local-time and daylight-saving shifts are not modelled.
- `Date` range limits and the precision of `parseFloat`/`Number`: prices are exact reals.
- `parseInt` with a hexadecimal prefix or a radix is not modelled, and neither is case mapping outside ASCII.
- JSON encoding of `priceHistory`, `outbound` and `return`, and `AmadeusOffer.toJSON`/`fromJSON`, are taken as the identity.
- `crypto.randomUUID`, logging (including the price-change log at packages/server/src/services/monitor.ts:286-295), Express, the CLI and the React rendering are left out.
- The `AmadeusOffer` getters `getMeta`/`getData` and the dictionary lookups `getAirportInfo`, `getAircraftInfo`, `getCarrierInfo` and `getCurrencyInfo` are plain map lookups (`Offers.AirportInfo` and its siblings) with no contract beyond their definition.
- `Offers.IsValid` is the predicate of `isValid` itself. Its use is proved through `Search.PairFlightsContents`.
- Calendar.IsoDate: only its shape and the epoch are proved, not that it is the Gregorian rendering of every day.
- Monitor.FlightMonitor.StartMonitoring: the flight table is keyed by offer id across monitors. Two monitors tracking the same offer share one row in the model, where the database would hold two.
- Search.PairFlights / Search.SearchFlights: the stored summaries use the corrected cabin test and date flag, not packages/server/src/services/monitor.ts:55, :66 and :160 as written. The as-written rules are modelled separately, in `Search.ParseOfferAsWritten` and `Search.CabinFilterAsWritten`, and only in the Findings lemmas.
- Monitor.Seed: rows are keyed by offer id, so when the same offer id appears more than once in the results of one search, those results collapse into one row, the later one. `createMany` would create one row for each.
- Monitor.SeedEffect: states the last-wins collapse of duplicate offer ids within one monitor, where the database keeps one row per result.
- Monitor.ReplaceFlightsEffect: "exactly the fresh results" holds per offer id. Duplicates within the monitor's results are collapsed to the last one, as in `Monitor.Seed`.
- Monitor.FlightMonitor.GetFlights: "no id twice" follows from the keying of the model. The database can hold two rows of one monitor with the same `amadeusId`, and `getFlights` would list both.
- Offers.FindOffersByParams and ClientApi.ProcessFlightData: a failure carries one fixed `TypeError` message. In JavaScript the message names the property whose read failed, which differs between a missing itinerary and a missing segment.
- Text.LexLess: JavaScript's `<` compares UTF-16 code units, and the model compares characters by scalar value. The two orders agree on the ASCII date texts the form compares.
- The status-text and response-text details of the failed HTTP answers are reduced to the thrown message.

## Findings

| source | as written | input that shows it | evidently intended | confidence | as-written member | corrected member |
|---|---|---|---|---|---|---|
| packages/server/src/services/monitor.ts:55 | `alternativeDate: new Date(departDate) !== baseDepartDate` compares two distinct objects, so it is always true (the same holds at line 66 for the return leg) | an offer whose first departure is `2025-06-01T10:00:00` when searching the base date `2025-06-01` | flagged iff the leg's departure date differs from the base date, as packages/client/src/lib/api.ts:90 does | not executed | `Search.AlternativeDateAlwaysFlagged` (with `Search.ParseOfferAsWritten`) | `Search.ParseOffer` |
| packages/server/src/services/monitor.ts:277-279 | `findUnique({ where: { id: flight.id } })` looks a row up by its own id with the Amadeus offer id. Rows are created with the offer id in `amadeusId` (line 244) and an id generated by the database, and the `update` at line 297 and `getFlightHistory` at line 357 look up the same way | a monitor started with one offer `"1"` at 400 whose row gets the id `"r1"`. A tick returning offer `"1"` at 350 leaves that row's history at `[400]`, and `getFlightHistory("1")` returns `[]` | look the row up by its offer id, so a tick appends the new price to that offer's history | not executed | `Monitor.TickMissesGeneratedIds` (with `Monitor.SeedRows`) | `Monitor.TickStoreEffect` (with `Monitor.FlightMonitor.PollTick`) |
| packages/server/src/services/monitor.ts:160 | `details.preferredCabins?.includes(fare.cabin)` on the single-string `preferredCabins` is a substring test | `preferredCabins = "PREMIUM_ECONOMY"` and an offer whose only fare is in `ECONOMY`: the offer is kept | keep an offer iff some fare's cabin equals the preferred cabin, as `hasRequestedCabinClass` does | not executed | `Search.EconomyPassesPremiumFilter` (with `Search.CabinFilterAsWritten`) | `Search.CabinFilter` |

/** The data shapes of the Amadeus flight-offers API and of the application's own records
    (packages/shared/src/types/amadeus.ts, packages/shared/src/utils.ts). Fields that no modelled
    operation reads are omitted. */
module AmadeusTypes {
  import opened Wrappers
  import opened Calendar

  /** `at` is the local timestamp text; `atMs` is what `new Date(at).getTime()` gives (None: NaN). */
  datatype FlightPoint = FlightPoint(iataCode: string, at: string, atMs: Option<int>)

  datatype Segment = Segment(id: string, departure: FlightPoint, arrival: FlightPoint, carrierCode: string)

  /** `duration` is an ISO 8601 duration such as `PT9H10M`; the empty string is falsy. */
  datatype Itinerary = Itinerary(duration: string, segments: seq<Segment>)

  /** `total` is the decimal amount the API sends as text, held as the number `parseFloat` reads. */
  datatype Price = Price(currency: string, total: real)

  datatype FareDetails = FareDetails(segmentId: string, cabin: string)

  datatype TravelerPricing = TravelerPricing(travelerId: string, fareDetailsBySegment: seq<FareDetails>)

  /** `lastTicketingDate` is the instant `new Date(lastTicketingDate)` gives (None: NaN). */
  datatype FlightOffer = FlightOffer(
    id: string,
    lastTicketingDate: Option<int>,
    numberOfBookableSeats: int,
    itineraries: seq<Itinerary>,
    price: Price,
    validatingAirlineCodes: seq<string>,
    travelerPricings: seq<TravelerPricing>)

  datatype Location = Location(cityCode: string, countryCode: string)

  datatype Dictionaries = Dictionaries(
    locations: map<string, Location>,
    aircraft: map<string, string>,
    currencies: map<string, string>,
    carriers: map<string, string>)

  datatype Meta = Meta(count: int)

  /** A parsed search response; `meta` and `dictionaries` may be missing. */
  datatype AmadeusResponse = AmadeusResponse(meta: Option<Meta>, data: seq<FlightOffer>, dictionaries: Option<Dictionaries>)

  datatype AmadeusError = AmadeusError(code: string, title: string, detail: string, status: int)

  datatype Duration = Duration(hours: nat, minutes: nat)

  datatype Connection = Connection(duration: string, origin: string, destination: string, departureTime: string, arrivalTime: string)

  datatype FlightAvailability = FlightAvailability(numberOfBookableSeats: int, available: bool)

  const Economy: string := "ECONOMY"
  const PremiumEconomy: string := "PREMIUM_ECONOMY"
  const Business: string := "BUSINESS"
  const First: string := "FIRST"

  datatype Credentials = Credentials(clientId: string, clientSecret: string)

  /** `FlightSearchFormData`. Optional fields are `None` when absent. */
  datatype SearchForm = SearchForm(
    origin: string,
    destination: string,
    departDate: DateArg,
    returnDate: Option<DateArg>,
    departFlexDays: int,
    returnFlexDays: int,
    pollInterval: int,
    maxPrice: Option<real>,
    preferredCabins: Option<string>,
    adults: Option<int>,
    nonStop: Option<bool>)

  /** One leg of a `FlightSummaryData`. `departure`/`arrival` hold the segment's timestamp text
      (the source shows it through `toLocaleString`). */
  datatype LegSummary = LegSummary(departure: string, arrival: string, duration: string, alternativeDate: bool)

  /** `FlightSummaryData`, without its `timestamp` (the clock). `airline` is `None` for `undefined`. */
  datatype FlightSummary = FlightSummary(
    id: string,
    price: real,
    priceHistory: seq<real>,
    airline: Option<string>,
    outbound: LegSummary,
    returnLeg: Option<LegSummary>)

  /** JavaScript truthiness of an optional string. */
  predicate TruthyText(s: Option<string>) { s.Some? && s.value != "" }

  /** JavaScript truthiness of an optional number. */
  predicate TruthyInt(n: Option<int>) { n.Some? && n.value != 0 }

  predicate TruthyReal(n: Option<real>) { n.Some? && n.value != 0.0 }
}

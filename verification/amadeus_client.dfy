/** The HTTP client for the Amadeus flight-offers API (packages/server/src/services/amadeus.ts).
    The two HTTP exchanges are parameters: `auth` answers the token request for a pair of
    credentials, `send` answers the search request carrying a bearer token and a request body. */
module AmadeusClient {
  import opened Wrappers
  import opened Text
  import opened Calendar
  import opened AmadeusTypes

  datatype DateTimeRange = DateTimeRange(date: string, time: string)

  datatype OriginDestination = OriginDestination(
    id: string,
    originLocationCode: string,
    destinationLocationCode: string,
    departureDateTimeRange: DateTimeRange)

  datatype TravelerSpec = TravelerSpec(id: string, travelerType: string, count: int)

  datatype CabinRestriction = CabinRestriction(cabin: string, coverage: string, originDestinationIds: seq<string>)

  /** The JSON body of a flight-offers search. */
  datatype RequestBody = RequestBody(
    currencyCode: string,
    originDestinations: seq<OriginDestination>,
    travelers: seq<TravelerSpec>,
    sources: seq<string>,
    maxFlightOffers: int,
    cabinRestrictions: seq<CabinRestriction>,
    nonStop: Option<bool>)

  /** Answer to the token request. */
  datatype TokenReply = TokenReply(ok: bool, statusText: string, accessToken: string)

  /** The body of the search answer: not JSON, JSON without a truthy `data`, or a response. */
  datatype ReplyBody = Unparsable | NoData | WithData(response: AmadeusResponse)

  datatype SearchReply = SearchReply(ok: bool, statusText: string, body: ReplyBody)

  /** `getToken`: the access token of a successful answer; a failed answer throws. */
  function GetToken(reply: TokenReply): (r: Result<string, string>)
    ensures r.Failure? <==> !reply.ok
    ensures r.Failure? ==> r.error == "Authentication failed: " + reply.statusText
    ensures r.Success? ==> r.value == reply.accessToken
  {
    if !reply.ok then Failure("Authentication failed: " + reply.statusText)
    else Success(reply.accessToken)
  }

  /** `if (params.returnDate)`: a date object is always truthy, a string unless empty. */
  predicate ReturnRequested(p: SearchForm)
  {
    p.returnDate.Some? && (p.returnDate.value.DateValue? || p.returnDate.value.text != "")
  }

  function Leg(id: string, origin: string, destination: string, date: string): OriginDestination
  {
    OriginDestination(id, Upper(origin), Upper(destination), DateTimeRange(date, "10:00:00"))
  }

  /** What a request body for the search form `p` holds: EUR prices, GDS content, at most 200
      offers, an economy restriction on leg 1, `adults || 1` adult travellers, the form's non-stop
      flag, the outbound leg on the departure date and, when a return date is given, the return
      leg between the same airports in the opposite direction. */
  predicate DescribesSearch(b: RequestBody, p: SearchForm)
  {
    && b.currencyCode == "EUR"
    && b.sources == ["GDS"]
    && b.maxFlightOffers == 200
    && b.cabinRestrictions == [CabinRestriction("ECONOMY", "MOST_SEGMENTS", ["1"])]
    && b.nonStop == p.nonStop
    && b.travelers == [TravelerSpec("1", "ADULT", if TruthyInt(p.adults) then p.adults.value else 1)]
    && FormatDate(p.departDate).Success?
    && |b.originDestinations| == (if ReturnRequested(p) then 2 else 1)
    && b.originDestinations[0] == Leg("1", p.origin, p.destination, FormatDate(p.departDate).value)
    && (ReturnRequested(p) ==>
          && FormatDate(p.returnDate.value).Success?
          && b.originDestinations[1] == Leg("2", p.destination, p.origin, FormatDate(p.returnDate.value).value))
  }

  /** Builds the request body of `searchFlights`: formatting the departure date, then the return
      date when one is requested, throws on an invalid date. The return leg mirrors the outbound
      leg. */
  method BuildRequestBody(p: SearchForm) returns (r: Result<RequestBody, string>)
    ensures FormatDate(p.departDate).Failure? ==> r == Failure(FormatDate(p.departDate).error)
    ensures FormatDate(p.departDate).Success? && ReturnRequested(p) && FormatDate(p.returnDate.value).Failure?
            ==> r == Failure(FormatDate(p.returnDate.value).error)
    ensures r.Success? <==> FormatDate(p.departDate).Success? && (ReturnRequested(p) ==> FormatDate(p.returnDate.value).Success?)
    ensures r.Success? ==> DescribesSearch(r.value, p)
    ensures r.Success? && ReturnRequested(p) ==>
      var legs := r.value.originDestinations;
      legs[1].originLocationCode == legs[0].destinationLocationCode
      && legs[1].destinationLocationCode == legs[0].originLocationCode
  {
    var depart := FormatDate(p.departDate);
    if depart.Failure? {
      return Failure(depart.error);
    }
    var count := if TruthyInt(p.adults) then p.adults.value else 1;
    var body := RequestBody(
      "EUR",
      [Leg("1", p.origin, p.destination, depart.value)],
      [TravelerSpec("1", "ADULT", count)],
      ["GDS"],
      200,
      [CabinRestriction("ECONOMY", "MOST_SEGMENTS", ["1"])],
      p.nonStop);
    if ReturnRequested(p) {
      var ret := FormatDate(p.returnDate.value);
      if ret.Failure? {
        return Failure(ret.error);
      }
      body := body.(originDestinations := body.originDestinations + [Leg("2", p.destination, p.origin, ret.value)]);
    }
    return Success(body);
  }

  /** `AmadeusApi.searchFlights`: obtains a token, builds the request, sends it and accepts only an
      ok answer whose body is JSON with offers; every failure surfaces as its error message.
      `sent` is the request that went out, if any. */
  method SearchFlights(creds: Credentials, p: SearchForm, auth: Credentials -> TokenReply,
                       send: (string, RequestBody) -> SearchReply)
    returns (r: Result<AmadeusResponse, string>, sent: Option<RequestBody>)
    ensures !auth(creds).ok ==> sent.None? && r == Failure("Authentication failed: " + auth(creds).statusText)
    ensures sent.Some? ==> auth(creds).ok && DescribesSearch(sent.value, p)
    ensures auth(creds).ok ==>
      (sent.Some? <==> FormatDate(p.departDate).Success? && (ReturnRequested(p) ==> FormatDate(p.returnDate.value).Success?))
    ensures auth(creds).ok && FormatDate(p.departDate).Failure? ==> r == Failure(FormatDate(p.departDate).error)
    ensures auth(creds).ok && FormatDate(p.departDate).Success? && ReturnRequested(p) && FormatDate(p.returnDate.value).Failure?
            ==> r == Failure(FormatDate(p.returnDate.value).error)
    ensures sent.Some? ==>
      var reply := send(auth(creds).accessToken, sent.value);
      && (!reply.ok ==> r == Failure("Flight search failed: " + reply.statusText))
      && (reply.ok && reply.body.Unparsable? ==> r == Failure("Invalid response format from Amadeus API"))
      && (reply.ok && reply.body.NoData? ==> r == Failure("Unexpected response structure from Amadeus API"))
      && (reply.ok && reply.body.WithData? ==> r == Success(reply.body.response))
    ensures r.Success? ==> sent.Some?
  {
    sent := None;
    var token := GetToken(auth(creds));
    if token.Failure? {
      return Failure(token.error), None;
    }
    var body := BuildRequestBody(p);
    if body.Failure? {
      return Failure(body.error), None;
    }
    sent := Some(body.value);
    var reply := send(token.value, body.value);
    if !reply.ok {
      return Failure("Flight search failed: " + reply.statusText), sent;
    }
    match reply.body
    case Unparsable =>
      r := Failure("Invalid response format from Amadeus API");
    case NoData =>
      r := Failure("Unexpected response structure from Amadeus API");
    case WithData(response) =>
      r := Success(response);
  }
}

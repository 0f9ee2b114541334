/** The client's merge of a fresh search response into the flights on screen
    (`processFlightData`, packages/client/src/lib/api.ts). */
module ClientApi {
  import opened Wrappers
  import opened Text
  import opened AmadeusTypes
  import opened Search

  /** The first flight on screen with the id (`Array.prototype.find`). */
  function FindExisting(existing: seq<FlightSummary>, id: string): (r: Option<FlightSummary>)
    ensures r.Some? ==> r.value.id == id
    ensures r.Some? ==> exists i :: (0 <= i < |existing| && existing[i] == r.value
                                    && forall j :: 0 <= j < i ==> existing[j].id != id)
    ensures r.None? ==> forall i :: 0 <= i < |existing| ==> existing[i].id != id
  {
    if existing == [] then None
    else if existing[0].id == id then Some(existing[0])
    else
      var r := FindExisting(existing[1..], id);
      if r.Some? then
        ghost var i :| 0 <= i < |existing[1..]| && existing[1..][i] == r.value
                       && forall j :: 0 <= j < i ==> existing[1..][j].id != id;
        assert existing[i + 1] == r.value && forall j :: 0 <= j < i + 1 ==> existing[j].id != id;
        r
      else r
  }

  /** The history the matching on-screen flight brings, if any. */
  function PreviousHistory(existing: seq<FlightSummary>, id: string): seq<real>
  {
    var previous := FindExisting(existing, id);
    if previous.Some? then previous.value.priceHistory else []
  }

  /** The summary of one offer: the first on-screen flight with its id contributes its history,
      the new price is appended; the airline is the first validating code itself. */
  function ProcessOffer(o: FlightOffer, existing: seq<FlightSummary>, baseDepart: string, baseReturn: string): (s: FlightSummary)
    requires Parseable(o)
    ensures s.id == o.id && s.price == o.price.total
    ensures s.priceHistory == PreviousHistory(existing, o.id) + [s.price]
    ensures |s.priceHistory| == |PreviousHistory(existing, o.id)| + 1
    ensures s.priceHistory[|s.priceHistory| - 1] == s.price
    ensures s.airline == if |o.validatingAirlineCodes| > 0 then Some(o.validatingAirlineCodes[0]) else None
    ensures s.outbound.alternativeDate <==> DatePart(o.itineraries[0].segments[0].departure.at) != baseDepart
    ensures s.returnLeg.Some? <==> |o.itineraries| > 1
    ensures s.returnLeg.Some? ==>
      (s.returnLeg.value.alternativeDate <==> DatePart(o.itineraries[1].segments[0].departure.at) != baseReturn)
  {
    var price := o.price.total;
    var previous := FindExisting(existing, o.id);
    FlightSummary(
      o.id,
      price,
      if previous.Some? then previous.value.priceHistory + [price] else [price],
      if |o.validatingAirlineCodes| > 0 then Some(o.validatingAirlineCodes[0]) else None,
      LegOf(o.itineraries[0], AlternativeDate(o.itineraries[0], baseDepart)),
      if |o.itineraries| > 1 then Some(LegOf(o.itineraries[1], AlternativeDate(o.itineraries[1], baseReturn))) else None)
  }

  /** `processFlightData`: one summary per offer of the response, in its order; on-screen flights
      absent from the response are dropped. An offer without a first segment where one is read
      makes it throw. */
  function ProcessFlightData(data: AmadeusResponse, existing: seq<FlightSummary>, baseDepart: string, baseReturn: string)
    : (r: Result<seq<FlightSummary>, string>)
    ensures r.Failure? <==> exists i :: 0 <= i < |data.data| && !Parseable(data.data[i])
    ensures r.Success? ==> |r.value| == |data.data|
    ensures r.Success? ==> forall i :: 0 <= i < |r.value| ==>
      Parseable(data.data[i]) && r.value[i] == ProcessOffer(data.data[i], existing, baseDepart, baseReturn)
  {
    if exists i :: 0 <= i < |data.data| && !Parseable(data.data[i]) then
      Failure("TypeError: Cannot read properties of undefined (reading 'segments')")
    else
      Success(seq(|data.data|, i requires 0 <= i < |data.data| => ProcessOffer(data.data[i], existing, baseDepart, baseReturn)))
  }
}

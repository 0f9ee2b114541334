/** The flight search of the server's `FlightMonitor` (packages/server/src/services/monitor.ts):
    the matrix of departure and return dates, one API call per pair, the cabin filter and the
    normalisation of each offer into a flight summary. The Amadeus client is the parameter `api`;
    a `Failure` from it stands for a thrown error. */
module Search {
  import opened Wrappers
  import opened Seqs
  import opened Text
  import opened Calendar
  import opened AmadeusTypes
  import opened Offers
  import opened Shared
  import AmadeusClient

  type Api = (Credentials, SearchForm) -> Result<AmadeusResponse, string>

  /** `createSearchParams`: the form with the pair's dates (midnight UTC of each day), one adult
      and no non-stop restriction. */
  function CreateSearchParams(details: SearchForm, departDay: int, returnDay: int): SearchForm
  {
    details.(departDate := DateValue(Some(departDay * MsPerDay)),
             returnDate := Some(DateValue(Some(returnDay * MsPerDay))),
             adults := Some(1),
             nonStop := Some(false))
  }

  /** The request the Amadeus client builds for the parameters of a date pair searches a round
      trip on exactly those two days, for one adult, without the non-stop restriction. */
  lemma CreateSearchParamsRequest(details: SearchForm, departDay: int, returnDay: int, b: AmadeusClient.RequestBody)
    requires AmadeusClient.DescribesSearch(b, CreateSearchParams(details, departDay, returnDay))
    ensures |b.originDestinations| == 2
    ensures b.originDestinations[0].departureDateTimeRange.date == IsoDate(departDay)
    ensures b.originDestinations[1].departureDateTimeRange.date == IsoDate(returnDay)
    ensures b.travelers[0].count == 1 && b.nonStop == Some(false)
  {
    assert departDay * MsPerDay / MsPerDay == departDay;
    assert returnDay * MsPerDay / MsPerDay == returnDay;
  }

  /** Whether `parseAmadeusOffer` can read the offer: a first itinerary with a first segment and,
      when there is a second itinerary, a first segment in it too. */
  predicate Parseable(o: FlightOffer)
  {
    && |o.itineraries| > 0 && |o.itineraries[0].segments| > 0
    && (|o.itineraries| > 1 ==> |o.itineraries[1].segments| > 0)
  }

  /** `getCarrierInfo(codes[0]) || codes[0]`: the carrier's name when the dictionary has a
      non-empty one, else the code. A missing code is looked up under the key "undefined". */
  function AirlineOf(d: Dictionaries, codes: seq<string>): (a: Option<string>)
    ensures |codes| > 0 && codes[0] in d.carriers && d.carriers[codes[0]] != "" ==> a == Some(d.carriers[codes[0]])
    ensures |codes| > 0 && (codes[0] !in d.carriers || d.carriers[codes[0]] == "") ==> a == Some(codes[0])
    ensures a.Some? ==> a.value != "" || (|codes| > 0 && a.value == codes[0])
  {
    var name := CarrierInfo(d, if |codes| > 0 then codes[0] else "undefined");
    if name.Some? && name.value != "" then name
    else if |codes| > 0 then Some(codes[0])
    else None
  }

  /** A leg of the summary, read from the first segment of the itinerary. */
  function LegOf(it: Itinerary, alternative: bool): LegSummary
    requires |it.segments| > 0
  {
    LegSummary(it.segments[0].departure.at, it.segments[0].arrival.at, it.duration, alternative)
  }

  function Summary(d: Dictionaries, o: FlightOffer, outAlternative: bool, returnAlternative: bool): FlightSummary
    requires Parseable(o)
  {
    var total := o.price.total;
    FlightSummary(o.id, total, [total], AirlineOf(d, o.validatingAirlineCodes),
                  LegOf(o.itineraries[0], outAlternative),
                  if |o.itineraries| > 1 then Some(LegOf(o.itineraries[1], returnAlternative)) else None)
  }

  /** `parseAmadeusOffer` as written: `new Date(departDate) !== baseDepartDate` compares two
      distinct objects, so both legs are always flagged as on an alternative date. */
  function ParseOfferAsWritten(d: Dictionaries, o: FlightOffer): (s: FlightSummary)
    requires Parseable(o)
    ensures s.outbound.alternativeDate
    ensures s.returnLeg.Some? ==> s.returnLeg.value.alternativeDate
  {
    Summary(d, o, true, true)
  }

  /** The intended rule: a leg is on an alternative date iff the date part of its first
      departure differs from the base date's `YYYY-MM-DD` text. */
  predicate AlternativeDate(it: Itinerary, baseText: string)
    requires |it.segments| > 0
  {
    DatePart(it.segments[0].departure.at) != baseText
  }

  /** `parseAmadeusOffer` with the intended date comparison: the offer's id and total, a history
      holding just that total, the airline name, the first segment of each itinerary, and a
      return leg iff there is a second itinerary. */
  function ParseOffer(d: Dictionaries, o: FlightOffer, baseDepart: string, baseReturn: string): (s: FlightSummary)
    requires Parseable(o)
    ensures s.id == o.id && s.price == o.price.total && s.priceHistory == [s.price]
    ensures s.airline == AirlineOf(d, o.validatingAirlineCodes)
    ensures s.outbound.departure == o.itineraries[0].segments[0].departure.at
    ensures s.outbound.arrival == o.itineraries[0].segments[0].arrival.at
    ensures s.outbound.duration == o.itineraries[0].duration
    ensures s.returnLeg.Some? <==> |o.itineraries| > 1
    ensures s.returnLeg.Some? ==>
      && s.returnLeg.value.departure == o.itineraries[1].segments[0].departure.at
      && s.returnLeg.value.arrival == o.itineraries[1].segments[0].arrival.at
      && s.returnLeg.value.duration == o.itineraries[1].duration
    ensures s.outbound.alternativeDate <==> DatePart(o.itineraries[0].segments[0].departure.at) != baseDepart
    ensures s.returnLeg.Some? ==>
      (s.returnLeg.value.alternativeDate <==> DatePart(o.itineraries[1].segments[0].departure.at) != baseReturn)
  {
    Summary(d, o, AlternativeDate(o.itineraries[0], baseDepart),
            |o.itineraries| > 1 && AlternativeDate(o.itineraries[1], baseReturn))
  }

  /** The as-written rule flags a flight that departs on the base date itself. */
  lemma AlternativeDateAlwaysFlagged(d: Dictionaries, o: FlightOffer, baseDepart: string, baseReturn: string)
    requires Parseable(o)
    requires o.itineraries[0].segments[0].departure.at == baseDepart + "T10:00:00"
    requires 'T' !in baseDepart
    ensures ParseOfferAsWritten(d, o).outbound.alternativeDate
    ensures !ParseOffer(d, o, baseDepart, baseReturn).outbound.alternativeDate
  {
    assert baseDepart + "T10:00:00" == baseDepart + "T" + "10:00:00";
    DatePartOfPrefix(baseDepart, "10:00:00");
  }

  /** Cabin test as written: `preferredCabins.includes(fare.cabin)` on a string is a substring
      test. */
  predicate CabinMatchesAsWritten(o: FlightOffer, preferred: string)
  {
    exists p, f :: p in o.travelerPricings && f in p.fareDetailsBySegment && Includes(preferred, f.cabin)
  }

  function CabinFilterAsWritten(data: seq<FlightOffer>, preferred: Option<string>): (r: seq<FlightOffer>)
    ensures Subseq(r, data)
    ensures TruthyText(preferred) ==> forall i :: 0 <= i < |r| ==> CabinMatchesAsWritten(r[i], preferred.value)
    ensures TruthyText(preferred) ==>
      forall i :: 0 <= i < |data| && CabinMatchesAsWritten(data[i], preferred.value) ==> data[i] in r
    ensures TruthyText(preferred) ==>
      forall o :: multiset(r)[o] == if CabinMatchesAsWritten(o, preferred.value) then multiset(data)[o] else 0
    ensures !TruthyText(preferred) ==> r == data
  {
    if TruthyText(preferred) then
      var keep := o => CabinMatchesAsWritten(o, preferred.value);
      FilterCount(data, keep);
      Filter(data, keep)
    else SubseqRefl(data); data
  }

  /** The intended cabin filter: with a preferred cabin, the offers with some fare in exactly
      that cabin, in order; without one, every offer. */
  function CabinFilter(data: seq<FlightOffer>, preferred: Option<string>): (r: seq<FlightOffer>)
    ensures Subseq(r, data)
    ensures TruthyText(preferred) ==> forall i :: 0 <= i < |r| ==> HasRequestedCabinClass(r[i], preferred.value)
    ensures TruthyText(preferred) ==>
      forall i :: 0 <= i < |data| && HasRequestedCabinClass(data[i], preferred.value) ==> data[i] in r
    ensures TruthyText(preferred) ==>
      forall o :: multiset(r)[o] == if HasRequestedCabinClass(o, preferred.value) then multiset(data)[o] else 0
    ensures !TruthyText(preferred) ==> r == data
  {
    if TruthyText(preferred) then
      var keep := o => HasRequestedCabinClass(o, preferred.value);
      FilterCount(data, keep);
      Filter(data, keep)
    else SubseqRefl(data); data
  }

  /** With PREMIUM_ECONOMY preferred, an economy-only offer passes the as-written filter but not
      the intended one. */
  lemma EconomyPassesPremiumFilter(o: FlightOffer)
    requires o.travelerPricings == [TravelerPricing("1", [FareDetails("1", Economy)])]
    ensures CabinFilterAsWritten([o], Some(PremiumEconomy)) == [o]
    ensures CabinFilter([o], Some(PremiumEconomy)) == []
  {
    var p := o.travelerPricings[0];
    var f := p.fareDetailsBySegment[0];
    assert OccursAt(PremiumEconomy, Economy, 8);
    assert CabinMatchesAsWritten(o, PremiumEconomy) by {
      assert p in o.travelerPricings && f in p.fareDetailsBySegment;
    }
    assert !HasRequestedCabinClass(o, PremiumEconomy);
  }

  /** Every offer the intended filter keeps, the as-written filter keeps too. */
  lemma CabinFilterNarrows(o: FlightOffer, preferred: string)
    requires HasRequestedCabinClass(o, preferred)
    ensures CabinMatchesAsWritten(o, preferred)
  {
    var p, f :| p in o.travelerPricings && f in p.fareDetailsBySegment && f.cabin == preferred;
    assert OccursAt(preferred, f.cabin, 0);
  }

  /** The summaries one date pair contributes (see `PairFlightsContents`). */
  function PairFlights(reply: Result<AmadeusResponse, string>, details: SearchForm,
                       baseDepart: string, baseReturn: string): seq<FlightSummary>
  {
    if reply.Failure? || !IsValid(reply.value) then []
    else
      var kept := CabinFilter(reply.value.data, details.preferredCabins);
      if forall k :: 0 <= k < |kept| ==> Parseable(kept[k]) then
        seq(|kept|, k requires 0 <= k < |kept| => ParseOffer(reply.value.dictionaries.value, kept[k], baseDepart, baseReturn))
      else []
  }

  /** A date pair contributes nothing when the call throws or the response is not valid;
      otherwise the cabin-filtered offers, parsed in order, or nothing when parsing one of them
      throws. */
  lemma PairFlightsContents(reply: Result<AmadeusResponse, string>, details: SearchForm,
                            baseDepart: string, baseReturn: string)
    ensures reply.Failure? || !IsValid(reply.value) ==> PairFlights(reply, details, baseDepart, baseReturn) == []
    ensures reply.Success? && IsValid(reply.value) ==>
      var r := PairFlights(reply, details, baseDepart, baseReturn);
      var kept := CabinFilter(reply.value.data, details.preferredCabins);
      if forall k :: 0 <= k < |kept| ==> Parseable(kept[k]) then
        |r| == |kept| && forall k :: 0 <= k < |r| ==> r[k] == ParseOffer(reply.value.dictionaries.value, kept[k], baseDepart, baseReturn)
      else r == []
  {
  }

  /** `new Date(formatDate(d))` as a day number: the day `formatDate` renders, `None` for an
      ISO-shaped text that is not a real date. */
  function BaseDay(d: DateArg): (r: Result<Option<int>, string>)
    ensures r.Failure? <==> FormatDate(d).Failure?
  {
    match BaseInstant(d)
    case Failure(e) => Failure(e)
    case Success(None) => Success(None)
    case Success(Some(ms)) => Success(Some(ms / MsPerDay))
  }

  /** The departure and return windows, in the order `searchFlights` computes them; formatting
      a date or expanding its window can throw, and a missing return date cannot be formatted. */
  function Expansion(details: SearchForm): (r: Result<(seq<int>, seq<int>), string>)
    ensures r.Success? ==> FormatDate(details.departDate).Success? && details.returnDate.Some?
                           && FormatDate(details.returnDate.value).Success?
    ensures FormatDate(details.departDate).Failure? ==> r == Failure(FormatDate(details.departDate).error)
    ensures details.returnDate.None? ==> r.Failure?
  {
    var dep := BaseDay(details.departDate);
    if dep.Failure? then Failure(dep.error)
    else
      var departs := DateWindow(dep.value, details.departFlexDays);
      if departs.Failure? then Failure(departs.error)
      else if details.returnDate.None? then Failure("RangeError: Invalid time value")
      else
        var ret := BaseDay(details.returnDate.value);
        if ret.Failure? then Failure(ret.error)
        else
          var backs := DateWindow(ret.value, details.returnFlexDays);
          if backs.Failure? then Failure(backs.error)
          else Success((departs.value, backs.value))
  }

  /** The pairs with departure day `d`, in the order of `rs`. */
  function Row(d: int, rs: seq<int>): (r: seq<(int, int)>)
    ensures |r| == |rs|
    ensures forall j :: 0 <= j < |rs| ==> r[j] == (d, rs[j])
  {
    seq(|rs|, j requires 0 <= j < |rs| => (d, rs[j]))
  }

  /** The date pairs in loop order: departure days outer, return days inner. */
  function Pairs(ds: seq<int>, rs: seq<int>): (r: seq<(int, int)>)
    ensures |r| == |ds| * |rs|
  {
    if ds == [] then [] else Pairs(ds[..|ds| - 1], rs) + Row(ds[|ds| - 1], rs)
  }

  /** Pair number `i * |rs| + j` is departure day `ds[i]` with return day `rs[j]`. */
  lemma {:induction false} PairsAt(ds: seq<int>, rs: seq<int>, i: int, j: int)
    requires 0 <= i < |ds| && 0 <= j < |rs|
    ensures 0 <= i * |rs| + j < |Pairs(ds, rs)|
    ensures Pairs(ds, rs)[i * |rs| + j] == (ds[i], rs[j])
    decreases |ds|
  {
    var n, m := |ds| - 1, |rs|;
    var prefix := Pairs(ds[..n], rs);
    MulSucc(n, m);
    assert |prefix| == n * m;
    if i < n {
      MulLess(i, n, m);
      PairsAt(ds[..n], rs, i, j);
    } else {
      assert Pairs(ds, rs) == prefix + Row(ds[n], rs);
      assert Pairs(ds, rs)[n * m + j] == Row(ds[n], rs)[j];
    }
  }

  lemma MulSucc(n: nat, m: nat)
    ensures (n + 1) * m == n * m + m
  {
  }

  lemma {:induction false} MulLess(i: nat, n: nat, m: nat)
    requires i < n
    ensures i * m + m <= n * m
    decreases n
  {
    MulSucc(n - 1, m);
    if i < n - 1 {
      MulLess(i, n - 1, m);
    }
  }

  /** The search parameters of one date pair. */
  function Form(details: SearchForm, p: (int, int)): SearchForm
  {
    CreateSearchParams(details, p.0, p.1)
  }

  /** What searching one date pair contributes. */
  function PairOutcome(creds: Credentials, details: SearchForm, api: Api, baseDepart: string, baseReturn: string)
    : ((int, int)) -> seq<FlightSummary>
  {
    p => PairFlights(api(creds, Form(details, p)), details, baseDepart, baseReturn)
  }

  /** A pair whose call throws, or whose response is not valid, adds nothing, and the pairs
      after it are still searched. */
  lemma FailedPairAddsNothing(creds: Credentials, details: SearchForm, api: Api,
                              ps: seq<(int, int)>, p: (int, int), qs: seq<(int, int)>, bd: string, br: string)
    requires api(creds, Form(details, p)).Failure? || !IsValid(api(creds, Form(details, p)).value)
    ensures var f := PairOutcome(creds, details, api, bd, br);
            ConcatMap(ps + [p] + qs, f) == ConcatMap(ps, f) + ConcatMap(qs, f)
  {
    var f := PairOutcome(creds, details, api, bd, br);
    ConcatMapAppend(ps + [p], qs, f);
    assert (ps + [p])[..|ps|] == ps;
    assert f(p) == [];
  }

  /** What `searchFlights` returns: a thrown date error, or the concatenated summaries of all
      pairs. */
  function SearchResult(creds: Credentials, details: SearchForm, api: Api): (r: Result<seq<FlightSummary>, string>)
    ensures r.Failure? <==> Expansion(details).Failure?
  {
    match Expansion(details)
    case Failure(e) => Failure(e)
    case Success((ds, rs)) =>
      Success(ConcatMap(Pairs(ds, rs), PairOutcome(creds, details, api, FormatDate(details.departDate).value,
                                                   FormatDate(details.returnDate.value).value)))
  }

  /** `calls` are the search parameters of `pairs`, one for one. */
  predicate CallsFor(details: SearchForm, calls: seq<SearchForm>, pairs: seq<(int, int)>)
  {
    |calls| == |pairs| && forall k :: 0 <= k < |calls| ==> calls[k] == Form(details, pairs[k])
  }

  lemma CallsForAppend(details: SearchForm, calls: seq<SearchForm>, pairs: seq<(int, int)>,
                       more: seq<SearchForm>, morePairs: seq<(int, int)>)
    requires CallsFor(details, calls, pairs) && CallsFor(details, more, morePairs)
    ensures CallsFor(details, calls + more, pairs + morePairs)
  {
  }

  /** The inner loop of `searchFlights` for departure day `d`: one call per return day, in
      order. */
  method SearchRow(creds: Credentials, details: SearchForm, api: Api, d: int, rs: seq<int>, bd: string, br: string)
    returns (flights: seq<FlightSummary>, calls: seq<SearchForm>)
    ensures flights == ConcatMap(Row(d, rs), PairOutcome(creds, details, api, bd, br))
    ensures CallsFor(details, calls, Row(d, rs))
  {
    ghost var f := PairOutcome(creds, details, api, bd, br);
    flights, calls := [], [];
    var j := 0;
    while j < |rs|
      invariant 0 <= j <= |rs|
      invariant CallsFor(details, calls, Row(d, rs[..j]))
      invariant flights == ConcatMap(Row(d, rs[..j]), f)
    {
      var params := CreateSearchParams(details, d, rs[j]);
      assert Row(d, rs[..j + 1]) == Row(d, rs[..j]) + [(d, rs[j])];
      assert Row(d, rs[..j + 1])[..j] == Row(d, rs[..j]);
      assert Form(details, (d, rs[j])) == params;
      CallsForAppend(details, calls, Row(d, rs[..j]), [params], [(d, rs[j])]);
      calls := calls + [params];
      var reply := api(creds, params);
      flights := flights + PairFlights(reply, details, bd, br);
      assert f((d, rs[j])) == PairFlights(reply, details, bd, br);
      j := j + 1;
    }
    assert rs[..j] == rs;
  }

  /** The first lines of `searchFlights`: format each base date and expand its window, departure
      first. */
  method ExpandDates(details: SearchForm) returns (r: Result<(seq<int>, seq<int>), string>)
    ensures r == Expansion(details)
  {
    var departBase := BaseDay(details.departDate);
    if departBase.Failure? {
      return Failure(departBase.error);
    }
    var departDates := GenerateDateRange(departBase.value, details.departFlexDays);
    if departDates.Failure? {
      return Failure(departDates.error);
    }
    if details.returnDate.None? {
      return Failure("RangeError: Invalid time value");
    }
    var returnBase := BaseDay(details.returnDate.value);
    if returnBase.Failure? {
      return Failure(returnBase.error);
    }
    var returnDates := GenerateDateRange(returnBase.value, details.returnFlexDays);
    if returnDates.Failure? {
      return Failure(returnDates.error);
    }
    return Success((departDates.value, returnDates.value));
  }

  /** The nested loops of `searchFlights`: one call per pair, departure days outer and return days
      inner, the contributions concatenated in call order. */
  method SearchPairs(creds: Credentials, details: SearchForm, api: Api, ds: seq<int>, rs: seq<int>, bd: string, br: string)
    returns (flights: seq<FlightSummary>, calls: seq<SearchForm>)
    ensures flights == ConcatMap(Pairs(ds, rs), PairOutcome(creds, details, api, bd, br))
    ensures CallsFor(details, calls, Pairs(ds, rs))
  {
    ghost var f := PairOutcome(creds, details, api, bd, br);
    flights, calls := [], [];
    var i := 0;
    while i < |ds|
      invariant 0 <= i <= |ds|
      invariant CallsFor(details, calls, Pairs(ds[..i], rs))
      invariant flights == ConcatMap(Pairs(ds[..i], rs), f)
    {
      var rowFlights, rowCalls := SearchRow(creds, details, api, ds[i], rs, bd, br);
      RowStep(ds, rs, i);
      CallsForAppend(details, calls, Pairs(ds[..i], rs), rowCalls, Row(ds[i], rs));
      ConcatMapAppend(Pairs(ds[..i], rs), Row(ds[i], rs), f);
      flights := flights + rowFlights;
      calls := calls + rowCalls;
      i := i + 1;
    }
    assert ds[..i] == ds;
  }

  /** `FlightMonitor.searchFlights`: expands both date windows, then calls the API once per pair,
      departure days outer and return days inner, and concatenates what each pair contributes.
      `calls` lists the parameters passed to the API, in call order. */
  method SearchFlights(creds: Credentials, details: SearchForm, api: Api)
    returns (r: Result<seq<FlightSummary>, string>, calls: seq<SearchForm>)
    ensures r == SearchResult(creds, details, api)
    ensures r.Failure? ==> calls == []
    ensures r.Success? ==>
      var pairs := Pairs(Expansion(details).value.0, Expansion(details).value.1);
      |calls| == |pairs| && forall k :: 0 <= k < |calls| ==> calls[k] == Form(details, pairs[k])
  {
    var windows := ExpandDates(details);
    if windows.Failure? {
      return Failure(windows.error), [];
    }
    var (ds, rs) := windows.value;
    var bd, br := FormatDate(details.departDate).value, FormatDate(details.returnDate.value).value;
    var flights;
    flights, calls := SearchPairs(creds, details, api, ds, rs, bd, br);
    return Success(flights), calls;
  }

  /** Adding departure day `ds[i]` adds its row of pairs. */
  lemma RowStep(ds: seq<int>, rs: seq<int>, i: int)
    requires 0 <= i < |ds|
    ensures Pairs(ds[..i + 1], rs) == Pairs(ds[..i], rs) + Row(ds[i], rs)
  {
    assert ds[..i + 1][..i] == ds[..i];
  }
}

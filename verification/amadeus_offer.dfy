/** The queries of the `AmadeusOffer` wrapper around one search response
    (packages/shared/src/models/AmadeusOffer.ts). The wrapper's fields are set once by its
    constructor and never changed, so every query is a function of the response's parts. */
module Offers {
  import opened Wrappers
  import opened Text
  import opened Seqs
  import opened AmadeusTypes

  /** `isValid`: a non-empty offer list whose length `meta.count` announces, and dictionaries. */
  predicate IsValid(r: AmadeusResponse)
  {
    |r.data| > 0 && r.meta.Some? && r.meta.value.count == |r.data| && r.dictionaries.Some?
  }

  predicate HasId(data: seq<FlightOffer>, id: string)
  {
    exists k :: 0 <= k < |data| && data[k].id == id
  }

  /** `k` is the position of the first offer with this id. */
  predicate FirstWithId(data: seq<FlightOffer>, id: string, k: int)
  {
    0 <= k < |data| && data[k].id == id && forall j :: 0 <= j < k ==> data[j].id != id
  }

  function FirstIndexFrom(data: seq<FlightOffer>, id: string, i: nat): (k: Option<nat>)
    requires i <= |data|
    requires forall j :: 0 <= j < i ==> data[j].id != id
    ensures k.Some? ==> FirstWithId(data, id, k.value)
    ensures k.None? ==> !HasId(data, id)
    decreases |data| - i
  {
    if i == |data| then None
    else if data[i].id == id then Some(i)
    else FirstIndexFrom(data, id, i + 1)
  }

  /** Position of the offer `getFlightOfferById` returns. */
  function OfferIndex(data: seq<FlightOffer>, id: string): (k: Option<nat>)
    ensures k.Some? ==> FirstWithId(data, id, k.value)
    ensures k.None? <==> !HasId(data, id)
  {
    FirstIndexFrom(data, id, 0)
  }

  lemma FirstWithIdUnique(data: seq<FlightOffer>, id: string, k1: int, k2: int)
    requires FirstWithId(data, id, k1) && FirstWithId(data, id, k2)
    ensures k1 == k2
  {
  }

  /** `getFlightOfferById`: the first offer with the id (`Array.prototype.find`), or undefined. */
  function FindOffer(data: seq<FlightOffer>, id: string): (r: Option<FlightOffer>)
    ensures r.None? <==> !HasId(data, id)
    ensures forall k :: FirstWithId(data, id, k) ==> r == Some(data[k])
  {
    var k := OfferIndex(data, id);
    if k.None? then None
    else
      assert forall k' :: FirstWithId(data, id, k') ==> k' == k.value by {
        forall k' | FirstWithId(data, id, k') ensures k' == k.value {
          FirstWithIdUnique(data, id, k', k.value);
        }
      }
      Some(data[k.value])
  }

  /** `getAirportInfo`, `getAircraftInfo`, `getCarrierInfo`, `getCurrencyInfo`: dictionary lookups. */
  function AirportInfo(d: Dictionaries, iataCode: string): Option<Location>
  {
    if iataCode in d.locations then Some(d.locations[iataCode]) else None
  }

  function AircraftInfo(d: Dictionaries, code: string): Option<string>
  {
    if code in d.aircraft then Some(d.aircraft[code]) else None
  }

  function CarrierInfo(d: Dictionaries, code: string): Option<string>
  {
    if code in d.carriers then Some(d.carriers[code]) else None
  }

  function CurrencyInfo(d: Dictionaries, code: string): Option<string>
  {
    if code in d.currencies then Some(d.currencies[code]) else None
  }

  /** `getTotalPrice`: the first matching offer's total, or undefined. */
  function TotalPrice(data: seq<FlightOffer>, id: string): (r: Option<real>)
    ensures r.None? <==> !HasId(data, id)
    ensures forall k :: FirstWithId(data, id, k) ==> r == Some(data[k].price.total)
  {
    var o := FindOffer(data, id);
    if o.None? then None else Some(o.value.price.total)
  }

  /** `getSegmentCount`: segments of the first itinerary, 0 when the offer or itinerary is absent. */
  function SegmentCount(data: seq<FlightOffer>, id: string): (n: nat)
    ensures !HasId(data, id) ==> n == 0
    ensures forall k :: FirstWithId(data, id, k) ==>
      n == if |data[k].itineraries| > 0 then |data[k].itineraries[0].segments| else 0
  {
    var o := FindOffer(data, id);
    if o.None? || |o.value.itineraries| == 0 then 0 else |o.value.itineraries[0].segments|
  }

  function OrZero(n: Option<nat>): nat
  {
    if n.Some? then n.value else 0
  }

  /** `parseInt(duration.match(/(\d+)H/)?.[1] || '0')` and the same for 'M'. */
  function ParseDuration(s: string): Duration
  {
    Duration(OrZero(NumberBefore(s, 'H')), OrZero(NumberBefore(s, 'M')))
  }

  /** `getFlightDuration`: undefined when the offer, its first itinerary or that itinerary's
      duration is missing (the empty string is falsy), else the parsed hours and minutes. */
  function FlightDuration(data: seq<FlightOffer>, id: string): (r: Option<Duration>)
    ensures r.None? <==> match FindOffer(data, id)
                         case None => true
                         case Some(o) => |o.itineraries| == 0 || o.itineraries[0].duration == ""
    ensures r.Some? ==> r.value == ParseDuration(FindOffer(data, id).value.itineraries[0].duration)
  {
    var o := FindOffer(data, id);
    if o.None? || |o.value.itineraries| == 0 || o.value.itineraries[0].duration == "" then None
    else Some(ParseDuration(o.value.itineraries[0].duration))
  }

  /** An ISO 8601 duration `PT{h}H{m}M` with either part optional. */
  function DurationText(h: Option<nat>, m: Option<nat>): string
  {
    "PT" + (if h.Some? then NatText(h.value) + "H" else "") + (if m.Some? then NatText(m.value) + "M" else "")
  }

  /** The first two characters of a duration text are never part of a match. */
  lemma SkipDurationPrefix(s: string, c: char)
    requires !IsDigit(c) && |s| >= 2 && s[0] == 'P' && s[1] == 'T'
    ensures NumberBefore(s, c) == NumberBeforeFrom(s, c, 2)
  {
    assert !IsDigit(s[0]) && !IsDigit(s[1]);
    assert NumberBeforeFrom(s, c, 0) == NumberBeforeFrom(s, c, 1);
  }

  /** `part` of the form `{n}c` sits at index `i` of `s`: its digits run up to that `c`. */
  lemma PartAt(s: string, i: nat, n: nat, c: char)
    requires !IsDigit(c) && i + |NatText(n)| < |s|
    requires s[i..i + |NatText(n)| + 1] == NatText(n) + [c]
    ensures NumberBeforeFrom(s, c, i) == Some(n)
    ensures forall c' :: !IsDigit(c') && c' != c ==> NumberBeforeFrom(s, c', i) == NumberBeforeFrom(s, c', i + |NatText(n)| + 1)
  {
    var t := NatText(n);
    NatTextRoundTrip(n);
    var e := i + |t|;
    assert s[i..e] == t by {
      assert forall k :: 0 <= k < |t| ==> s[i..e][k] == s[i..e + 1][k];
    }
    assert s[e] == s[i..e + 1][|t|];
    NumberBeforeRun(s, c, i, e);
    forall c' | !IsDigit(c') && c' != c
      ensures NumberBeforeFrom(s, c', i) == NumberBeforeFrom(s, c', e + 1)
    {
      NumberBeforeSkipRun(s, c', i, e);
    }
  }

  /** The hours of a `PT{h}H{m}M` text read back. */
  lemma DurationHours(h: Option<nat>, m: Option<nat>)
    ensures NumberBefore(DurationText(h, m), 'H') == h
  {
    var s := DurationText(h, m);
    SkipDurationPrefix(s, 'H');
    if h.Some? {
      PartAt(s, 2, h.value, 'H');
    } else if m.Some? {
      var t := NatText(m.value);
      NatTextRoundTrip(m.value);
      assert s == "PT" + t + "M";
      assert forall k :: 2 <= k < |s| ==> s[k] != 'H' by {
        forall k | 2 <= k < |s| ensures s[k] != 'H' {
          if k < 2 + |t| {
            assert s[k] == t[k - 2];
          }
        }
      }
      NumberBeforeAbsent(s, 'H', 2);
    } else {
      NumberBeforeAbsent(s, 'H', 2);
    }
  }

  /** Length of the `{h}H` part of a duration text. */
  function HoursPartLength(h: Option<nat>): nat
  {
    if h.Some? then |NatText(h.value)| + 1 else 0
  }

  /** The search for `(\d+)M` passes over the `{h}H` part, and what follows it is the `{m}M` part. */
  lemma SkipHoursPart(h: Option<nat>, m: Option<nat>)
    ensures 2 + HoursPartLength(h) <= |DurationText(h, m)|
    ensures NumberBeforeFrom(DurationText(h, m), 'M', 2) == NumberBeforeFrom(DurationText(h, m), 'M', 2 + HoursPartLength(h))
    ensures DurationText(h, m)[2 + HoursPartLength(h)..] == if m.Some? then NatText(m.value) + "M" else ""
  {
    var s := DurationText(h, m);
    if h.Some? {
      var t := NatText(h.value);
      assert s[2..2 + |t| + 1] == t + "H";
      PartAt(s, 2, h.value, 'H');
    }
  }

  /** The minutes of a `PT{h}H{m}M` text read back. */
  lemma DurationMinutes(h: Option<nat>, m: Option<nat>)
    ensures NumberBefore(DurationText(h, m), 'M') == m
  {
    var s := DurationText(h, m);
    SkipDurationPrefix(s, 'M');
    SkipHoursPart(h, m);
    var i := 2 + HoursPartLength(h);
    if m.Some? {
      var t := NatText(m.value);
      assert s[i..i + |t| + 1] == t + "M";
      PartAt(s, i, m.value, 'M');
    } else {
      NumberBeforeAbsent(s, 'M', i);
    }
  }

  /** The duration parser reads back the hours and minutes of any `PT{h}H{m}M` text, a missing
      part reading as 0. */
  lemma ParseDurationText(h: Option<nat>, m: Option<nat>)
    ensures ParseDuration(DurationText(h, m)) == Duration(OrZero(h), OrZero(m))
  {
    DurationHours(h, m);
    DurationMinutes(h, m);
  }

  /** `getRouteDescription`: "origin → destination" of the first itinerary; undefined when the
      offer or its first itinerary is missing; an empty segment list makes it throw. */
  function RouteDescription(data: seq<FlightOffer>, id: string): (r: Result<Option<string>, string>)
    ensures r == Success(None) <==> match FindOffer(data, id)
                                   case None => true
                                   case Some(o) => |o.itineraries| == 0
    ensures r.Failure? <==> match FindOffer(data, id)
                           case None => false
                           case Some(o) => |o.itineraries| > 0 && |o.itineraries[0].segments| == 0
    ensures r.Success? && r.value.Some? ==>
      var o := FindOffer(data, id).value;
      Routable(o) && r.value.value == Origin(o) + " \U{2192} " + Destination(o)
  {
    var o := FindOffer(data, id);
    if o.None? || |o.value.itineraries| == 0 then Success(None)
    else
      var segs := o.value.itineraries[0].segments;
      if |segs| == 0 then Failure("TypeError: Cannot read properties of undefined (reading 'departure')")
      else
        var origin := segs[0].departure.iataCode;
        var destination := segs[|segs| - 1].arrival.iataCode;
        Success(Some(origin + " \U{2192} " + destination))
  }

  /** `hasRequestedCabinClass`: some fare of some traveler pricing is in exactly this cabin. */
  predicate HasRequestedCabinClass(o: FlightOffer, cabin: string)
  {
    exists p, f :: p in o.travelerPricings && f in p.fareDetailsBySegment && f.cabin == cabin
  }

  /** The offer has a first itinerary with at least one segment. */
  predicate Routable(o: FlightOffer)
  {
    |o.itineraries| > 0 && |o.itineraries[0].segments| > 0
  }

  function Origin(o: FlightOffer): string
    requires Routable(o)
  {
    o.itineraries[0].segments[0].departure.iataCode
  }

  function Destination(o: FlightOffer): string
    requires Routable(o)
  {
    var segs := o.itineraries[0].segments;
    segs[|segs| - 1].arrival.iataCode
  }

  /** The criteria of `findOffersByParams`; a falsy criterion (empty string, 0, false, absent)
      imposes nothing. */
  predicate MatchesParams(o: FlightOffer, q: SearchForm)
  {
    Routable(o)
    && (q.origin == "" || Origin(o) == q.origin)
    && (q.destination == "" || Destination(o) == q.destination)
    && (!TruthyReal(q.maxPrice) || o.price.total <= q.maxPrice.value)
    && (q.nonStop != Some(true) || |o.itineraries[0].segments| == 1)
    && (!TruthyText(q.preferredCabins) || HasRequestedCabinClass(o, q.preferredCabins.value))
  }

  /** `findOffersByParams`: the offers meeting every given criterion, in their order. Reading the
      first segment of an offer without one throws. */
  function FindOffersByParams(data: seq<FlightOffer>, q: SearchForm): (r: Result<seq<FlightOffer>, string>)
    ensures r.Failure? <==> exists i :: 0 <= i < |data| && !Routable(data[i])
    ensures r.Success? ==> Subseq(r.value, data)
    ensures r.Success? ==> forall i :: 0 <= i < |r.value| ==>
      var o := r.value[i];
      && Routable(o)
      && (q.origin != "" ==> Origin(o) == q.origin)
      && (q.destination != "" ==> Destination(o) == q.destination)
      && (TruthyReal(q.maxPrice) ==> o.price.total <= q.maxPrice.value)
      && (q.nonStop == Some(true) ==> |o.itineraries[0].segments| == 1)
      && (TruthyText(q.preferredCabins) ==> HasRequestedCabinClass(o, q.preferredCabins.value))
    ensures r.Success? ==> forall i :: 0 <= i < |data| && MatchesParams(data[i], q) ==> data[i] in r.value
    ensures r.Success? ==> forall o :: multiset(r.value)[o] == if MatchesParams(o, q) then multiset(data)[o] else 0
  {
    if exists i :: 0 <= i < |data| && !Routable(data[i]) then
      Failure("TypeError: Cannot read properties of undefined (reading 'departure')")
    else
      var keep := o => MatchesParams(o, q);
      FilterCount(data, keep);
      Success(Filter(data, keep))
  }

  /** A maximum price of 0 is falsy: it filters exactly like no maximum price. */
  lemma ZeroMaxPriceImposesNothing(data: seq<FlightOffer>, q: SearchForm)
    ensures FindOffersByParams(data, q.(maxPrice := Some(0.0))) == FindOffersByParams(data, q.(maxPrice := None))
  {
    var q0 := q.(maxPrice := Some(0.0));
    var q1 := q.(maxPrice := None);
    FilterExt(data, o => MatchesParams(o, q0), o => MatchesParams(o, q1));
  }

  /** JavaScript's `a % b` for b > 0: the remainder takes the sign of the dividend. */
  function JsRem(a: int, b: int): (r: int)
    requires b > 0
    ensures a >= 0 ==> 0 <= r < b
    ensures a < 0 ==> -b < r <= 0
  {
    if a >= 0 then a % b else -((-a) % b)
  }

  const MsPerHour: int := 3600000
  const MsPerMinute: int := 60000

  /** Hours and minutes of `calculateConnectionDuration`: `Math.floor(ms / 3600000)` and
      `Math.floor((ms % 3600000) / 60000)`. For a non-negative gap they split it into whole hours
      and the whole minutes left over. */
  function ConnectionParts(delta: int): (hm: (int, int))
    ensures delta >= 0 ==> 0 <= hm.0 && 0 <= hm.1 < 60
    ensures delta >= 0 ==> hm.0 * MsPerHour + hm.1 * MsPerMinute <= delta < hm.0 * MsPerHour + (hm.1 + 1) * MsPerMinute
  {
    (delta / MsPerHour, JsRem(delta, MsPerHour) / MsPerMinute)
  }

  /** `calculateConnectionDuration`: `PT{h}H{m}M` of the gap; NaN parts when a time is invalid. */
  function ConnectionDuration(arrival: Option<int>, departure: Option<int>): string
  {
    if arrival.None? || departure.None? then "PTNaNHNaNM"
    else
      var (h, m) := ConnectionParts(departure.value - arrival.value);
      "PT" + IntText(h) + "H" + IntText(m) + "M"
  }

  /** The duration parser of `getFlightDuration` reads back the hours and minutes that
      `calculateConnectionDuration` writes for a non-negative gap. */
  lemma ConnectionDurationParses(arrival: int, departure: int)
    requires arrival <= departure
    ensures ParseDuration(ConnectionDuration(Some(arrival), Some(departure)))
            == var (h, m) := ConnectionParts(departure - arrival); Duration(h, m)
  {
    var (h, m) := ConnectionParts(departure - arrival);
    assert ConnectionDuration(Some(arrival), Some(departure)) == DurationText(Some(h), Some(m));
    ParseDurationText(Some(h), Some(m));
  }

  /** Entry of `getConnections` for the stop between segments `a` and `b`. */
  function ConnectionBetween(a: Segment, b: Segment): Connection
  {
    Connection(ConnectionDuration(a.arrival.atMs, b.departure.atMs), a.arrival.iataCode,
               b.departure.iataCode, b.departure.at, a.arrival.at)
  }

  /** `getConnections`: one entry per adjacent pair of segments of the first itinerary; none for
      an unknown id; an offer without itineraries makes it throw. */
  method GetConnections(data: seq<FlightOffer>, id: string) returns (r: Result<seq<Connection>, string>)
    ensures FindOffer(data, id).None? ==> r == Success([])
    ensures FindOffer(data, id).Some? ==>
      var o := FindOffer(data, id).value;
      (r.Failure? <==> |o.itineraries| == 0)
      && (r.Success? ==>
            var segs := o.itineraries[0].segments;
            |r.value| == (if |segs| > 0 then |segs| - 1 else 0)
            && forall i :: 0 <= i < |r.value| ==> r.value[i] == ConnectionBetween(segs[i], segs[i + 1]))
  {
    var offer := FindOffer(data, id);
    if offer.None? {
      return Success([]);
    }
    if |offer.value.itineraries| == 0 {
      return Failure("TypeError: Cannot read properties of undefined (reading 'segments')");
    }
    var segments := offer.value.itineraries[0].segments;
    var connections: seq<Connection> := [];
    var i := 0;
    while i < |segments| - 1
      invariant 0 <= i <= if |segments| > 0 then |segments| - 1 else 0
      invariant |connections| == i
      invariant forall j :: 0 <= j < i ==> connections[j] == ConnectionBetween(segments[j], segments[j + 1])
    {
      connections := connections + [ConnectionBetween(segments[i], segments[i + 1])];
      i := i + 1;
    }
    return Success(connections);
  }

  function OfferNotFound(id: string): AmadeusError
  {
    AmadeusError("OFFER_NOT_FOUND", "Offer not found", "No offer found with ID " + id, 404)
  }

  const ExpiredOffer: AmadeusError :=
    AmadeusError("EXPIRED_OFFER", "Offer expired", "The last ticketing date has passed", 400)

  const NoSeats: AmadeusError :=
    AmadeusError("NO_SEATS", "No seats available", "No bookable seats remaining for this offer", 400)

  /** `getAvailability`: the first matching offer's seat count, available iff positive;
      `{0, false}` for an unknown id. */
  function GetAvailability(data: seq<FlightOffer>, id: string): (a: FlightAvailability)
    ensures !HasId(data, id) ==> a == FlightAvailability(0, false)
    ensures forall k :: FirstWithId(data, id, k) ==>
      a.numberOfBookableSeats == data[k].numberOfBookableSeats && (a.available <==> data[k].numberOfBookableSeats > 0)
  {
    var o := FindOffer(data, id);
    if o.None? then FlightAvailability(0, false)
    else FlightAvailability(o.value.numberOfBookableSeats, o.value.numberOfBookableSeats > 0)
  }

  /** `validateOffer` at clock time `now`: a single 404 for an unknown id; otherwise an expiry
      error iff the last ticketing instant is before now (an invalid date never is), followed by a
      no-seats error iff the offer is not available. */
  method ValidateOffer(data: seq<FlightOffer>, id: string, now: int) returns (errors: seq<AmadeusError>)
    ensures !HasId(data, id) ==> errors == [OfferNotFound(id)] && errors[0].status == 404
    ensures HasId(data, id) ==>
      var o := FindOffer(data, id).value;
      var expired := o.lastTicketingDate.Some? && o.lastTicketingDate.value < now;
      errors == (if expired then [ExpiredOffer] else []) + (if !GetAvailability(data, id).available then [NoSeats] else [])
  {
    errors := [];
    var offer := FindOffer(data, id);
    if offer.None? {
      errors := errors + [OfferNotFound(id)];
      return;
    }
    var o := offer.value;
    if o.lastTicketingDate.Some? && o.lastTicketingDate.value < now {
      errors := errors + [ExpiredOffer];
    }
    if o.numberOfBookableSeats <= 0 {
      errors := errors + [NoSeats];
    }
  }
}

/** The request checks of the monitor routes (packages/server/src/middleware/validation.ts). Each
    check either lets the request through (`next()`) or answers 400 with a message; reading a
    field of a missing body part throws. */
module Validation {
  import opened Wrappers
  import opened Text
  import opened Shared

  datatype Verdict = Next | Respond(status: int, error: string) | Threw(message: string)

  /** The fields of `req.body.credentials` the check reads. */
  datatype CredentialFields = CredentialFields(clientId: Option<string>, clientSecret: Option<string>)

  /** A date field of the body: its text and the instant `new Date(text)` denotes, if valid. */
  datatype DateField = DateField(text: string, parsed: Option<int>)

  /** The fields of `req.body.details` the check reads. */
  datatype DetailFields = DetailFields(
    origin: Option<string>,
    destination: Option<string>,
    departDate: Option<DateField>,
    returnDate: Option<DateField>,
    pollInterval: Option<int>)

  predicate Truthy(s: Option<string>) { s.Some? && s.value != "" }

  /** `validateCredentials`: 400 "Missing API credentials" iff the client id or secret is missing
      or empty; otherwise the request goes on. */
  function ValidateCredentials(credentials: Option<CredentialFields>): (v: Verdict)
    ensures credentials.None? ==> v.Threw?
    ensures credentials.Some? ==>
      (v == Next <==> Truthy(credentials.value.clientId) && Truthy(credentials.value.clientSecret))
    ensures credentials.Some? && v != Next ==> v == Respond(400, "Missing API credentials")
  {
    if credentials.None? then Threw("TypeError: Cannot destructure 'req.body.credentials' as it is undefined.")
    else if !Truthy(credentials.value.clientId) || !Truthy(credentials.value.clientSecret) then
      Respond(400, "Missing API credentials")
    else Next
  }

  /** `/^[A-Z]{3}$/`. */
  predicate IsAirportCode(s: string)
  {
    |s| == 3 && forall i :: 0 <= i < |s| ==> IsUpperAscii(s[i])
  }

  const ValidIntervals: seq<int> := [300000, 600000, 1800000, 3600000]

  const Messages: seq<string> := [
    "Missing required flight details",
    "Invalid airport code format",
    "Invalid date format",
    "Departure date must be in the future",
    "Return date must be after departure date",
    "Invalid poll interval"
  ]

  /** Whether check number `i` of `validateFlightDetails` passes, given that the ones before it
      did. */
  predicate Passes(d: DetailFields, now: int, i: nat)
    requires i < |Messages|
  {
    match i
    case 0 => Truthy(d.origin) && Truthy(d.destination) && d.departDate.Some? && d.departDate.value.text != ""
              && d.returnDate.Some? && d.returnDate.value.text != "" && d.pollInterval.Some? && d.pollInterval.value != 0
    case 1 => d.origin.Some? && d.destination.Some? && IsAirportCode(d.origin.value) && IsAirportCode(d.destination.value)
    case 2 => d.departDate.Some? && d.returnDate.Some? && d.departDate.value.parsed.Some? && d.returnDate.value.parsed.Some?
    case 3 => d.departDate.Some? && d.departDate.value.parsed.Some? && d.departDate.value.parsed.value >= now
    case 4 => d.departDate.Some? && d.departDate.value.parsed.Some? && d.returnDate.Some? && d.returnDate.value.parsed.Some?
              && d.returnDate.value.parsed.value > d.departDate.value.parsed.value
    case _ => d.pollInterval.Some? && d.pollInterval.value in ValidIntervals
  }

  /** `validateFlightDetails` at clock time `now`: the checks run in order and the first failing
      one answers 400 with its message; `next()` runs only when all pass. */
  function ValidateFlightDetails(details: Option<DetailFields>, now: int): (v: Verdict)
    ensures details.None? ==> v.Threw?
    ensures details.Some? ==> forall i :: 0 <= i < |Messages| ==>
      (v == Respond(400, Messages[i]) <==> (forall j :: 0 <= j < i ==> Passes(details.value, now, j)) && !Passes(details.value, now, i))
    ensures details.Some? ==> (v == Next <==> forall i :: 0 <= i < |Messages| ==> Passes(details.value, now, i))
    ensures details.Some? ==> v.Next? || v.Respond?
  {
    if details.None? then Threw("TypeError: Cannot destructure 'req.body.details' as it is undefined.")
    else
      var d := details.value;
      if !Passes(d, now, 0) then Respond(400, Messages[0])
      else if !Passes(d, now, 1) then Respond(400, Messages[1])
      else if !Passes(d, now, 2) then Respond(400, Messages[2])
      else if !Passes(d, now, 3) then Respond(400, Messages[3])
      else if !Passes(d, now, 4) then Respond(400, Messages[4])
      else if !Passes(d, now, 5) then Respond(400, Messages[5])
      else Next
  }

  /** An accepted request names two airport codes, a poll interval the client offers, and a
      departure no earlier than now and strictly before the return. */
  lemma AcceptedDetails(details: DetailFields, now: int)
    requires ValidateFlightDetails(Some(details), now) == Next
    ensures IsAirportCode(details.origin.value) && IsAirportCode(details.destination.value)
    ensures details.departDate.value.parsed.Some? && details.returnDate.value.parsed.Some?
    ensures now <= details.departDate.value.parsed.value < details.returnDate.value.parsed.value
    ensures exists k :: 0 <= k < |PollIntervals| && PollIntervals[k].value == details.pollInterval.value
  {
    assert Passes(details, now, 1) && Passes(details, now, 3) && Passes(details, now, 4) && Passes(details, now, 5);
    PollIntervalsAccepted();
    var k :| 0 <= k < |ValidIntervals| && ValidIntervals[k] == details.pollInterval.value;
    assert PollIntervals[k].value == details.pollInterval.value;
  }

  /** A return on the departure instant itself is refused. */
  lemma SameDayReturnRefused(details: DetailFields, now: int)
    requires Passes(details, now, 0) && Passes(details, now, 1) && Passes(details, now, 2) && Passes(details, now, 3)
    requires details.returnDate.value.parsed == details.departDate.value.parsed
    ensures ValidateFlightDetails(Some(details), now) == Respond(400, "Return date must be after departure date")
  {
  }

  /** The poll intervals the client offers are exactly the ones this check accepts, in order. */
  lemma PollIntervalsAccepted()
    ensures Values(PollIntervals) == ValidIntervals
  {
    assert Values(PollIntervals)[0] == PollIntervals[0].value;
  }
}

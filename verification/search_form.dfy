/** The change handlers of the client's search form
    (packages/client/src/app/components/FlightSearchForm.tsx). Each handler builds the next form
    state from the current one and the edited input's text; the dates are `YYYY-MM-DD` input
    values compared as strings. */
module SearchFormHandlers {
  import opened Wrappers
  import opened Text
  import Validation

  /** The form fields the handlers touch; `pollInterval` stands for every other field. */
  datatype FormState = FormState(
    origin: string,
    destination: string,
    departDate: string,
    returnDate: string,
    departFlexDays: int,
    returnFlexDays: int,
    pollInterval: int)

  datatype DateInput = DepartInput | ReturnInput

  datatype FlexInput = DepartFlexInput | ReturnFlexInput

  /** `handleDateChange`: a departure after the return, or a return before the departure, moves
      both dates to the new one; otherwise only the edited date changes. Either way the departure
      is no later than the return afterwards, whatever the state before. */
  function HandleDateChange(s: FormState, field: DateInput, newDate: string): (r: FormState)
    ensures LexLessEq(r.departDate, r.returnDate)
    ensures (field == DepartInput && LexLess(s.returnDate, newDate)) || (field == ReturnInput && LexLess(newDate, s.departDate))
            ==> r == s.(departDate := newDate, returnDate := newDate)
    ensures !((field == DepartInput && LexLess(s.returnDate, newDate)) || (field == ReturnInput && LexLess(newDate, s.departDate)))
            ==> r == if field == DepartInput then s.(departDate := newDate) else s.(returnDate := newDate)
  {
    match field
    case DepartInput =>
      if LexLess(s.returnDate, newDate) then s.(departDate := newDate, returnDate := newDate)
      else
        LexTrichotomy(newDate, s.returnDate);
        s.(departDate := newDate)
    case ReturnInput =>
      if LexLess(newDate, s.departDate) then s.(departDate := newDate, returnDate := newDate)
      else
        LexTrichotomy(newDate, s.departDate);
        s.(returnDate := newDate)
  }

  /** `Math.min(3, Math.max(0, parseInt(text) || 0))`. */
  function FlexDays(text: string): (n: int)
    ensures 0 <= n <= 3
    ensures ParseInt(text).None? ==> n == 0
    ensures ParseInt(text).Some? && 0 <= ParseInt(text).value <= 3 ==> n == ParseInt(text).value
    ensures ParseInt(text).Some? && ParseInt(text).value > 3 ==> n == 3
    ensures ParseInt(text).Some? && ParseInt(text).value < 0 ==> n == 0
  {
    var parsed := ParseInt(text);
    var value := if parsed.Some? && parsed.value != 0 then parsed.value else 0;
    if value < 0 then 0 else if value > 3 then 3 else value
  }

  /** `handleFlexDaysChange`: the edited flex-day count becomes the clamped number typed. */
  function HandleFlexDaysChange(s: FormState, field: FlexInput, text: string): (r: FormState)
    ensures field == DepartFlexInput ==> r == s.(departFlexDays := FlexDays(text))
    ensures field == ReturnFlexInput ==> r == s.(returnFlexDays := FlexDays(text))
  {
    if field == DepartFlexInput then s.(departFlexDays := FlexDays(text)) else s.(returnFlexDays := FlexDays(text))
  }

  /** Typing a count from 0 to 3 sets exactly that count. */
  lemma FlexDaysTyped(n: nat)
    requires n <= 3
    ensures FlexDays(NatText(n)) == n
  {
    ParseIntRoundTrip(n);
  }

  /** The origin field's handler: only the origin changes, to the typed text with each ASCII
      lower-case letter replaced by its capital. */
  function HandleOriginChange(s: FormState, text: string): (r: FormState)
    ensures r == s.(origin := r.origin)
    ensures |r.origin| == |text|
    ensures forall i :: 0 <= i < |text| ==>
      && !IsLowerAscii(r.origin[i])
      && (IsLowerAscii(text[i]) ==> r.origin[i] as int == text[i] as int - 32)
      && (!IsLowerAscii(text[i]) ==> r.origin[i] == text[i])
  {
    s.(origin := Upper(text))
  }

  /** The destination field's handler: likewise for the destination. */
  function HandleDestinationChange(s: FormState, text: string): (r: FormState)
    ensures r == s.(destination := r.destination)
    ensures |r.destination| == |text|
    ensures forall i :: 0 <= i < |text| ==>
      && !IsLowerAscii(r.destination[i])
      && (IsLowerAscii(text[i]) ==> r.destination[i] as int == text[i] as int - 32)
      && (!IsLowerAscii(text[i]) ==> r.destination[i] == text[i])
  {
    s.(destination := Upper(text))
  }

  /** Three ASCII letters typed in either case become a code the server accepts, and typing the
      stored code again changes nothing. */
  lemma TypedCodeAccepted(s: FormState, text: string)
    requires |text| == 3 && forall i :: 0 <= i < 3 ==> IsUpperAscii(text[i]) || IsLowerAscii(text[i])
    ensures Validation.IsAirportCode(HandleOriginChange(s, text).origin)
    ensures Validation.IsAirportCode(HandleDestinationChange(s, text).destination)
    ensures HandleOriginChange(HandleOriginChange(s, text), HandleOriginChange(s, text).origin) == HandleOriginChange(s, text)
  {
    UpperIdempotent(text);
  }
}

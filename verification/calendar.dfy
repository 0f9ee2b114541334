/** Calendar dates. A date is its day number counted from 1970-01-01 (UTC), an instant is a count
    of milliseconds since the epoch, and an invalid `Date` (NaN) is `None`. */
module Calendar {
  import opened Wrappers
  import opened Text

  const MsPerDay: int := 86400000

  /** Proleptic Gregorian (year, month, day) of a day number (H. Hinnant's civil_from_days). */
  function CivilFromDays(days: int): (int, int, int)
  {
    var z := days + 719468;
    var era := z / 146097;
    var doe := z - era * 146097;
    var yoe := (doe - doe / 1460 + doe / 36524 - doe / 146096) / 365;
    var doy := doe - (365 * yoe + yoe / 4 - yoe / 100);
    var mp := (5 * doy + 2) / 153;
    var d := doy - (153 * mp + 2) / 5 + 1;
    var m := if mp < 10 then mp + 3 else mp - 9;
    (yoe + era * 400 + (if m <= 2 then 1 else 0), m, d)
  }

  function YearOfDay(days: int): int { CivilFromDays(days).0 }

  /** The last `width` decimal digits of `n`, zero-padded. */
  function Fixed(n: int, width: nat): (s: string)
    ensures |s| == width && AllDigits(s)
    decreases width
  {
    if width == 0 then [] else Fixed(n / 10, width - 1) + [DigitChar(n % 10)]
  }

  /** `toISOString().split('T')[0]` of an instant on day `days`: `YYYY-MM-DD`, or the expanded
      `+YYYYYY-MM-DD` / `-YYYYYY-MM-DD` form outside years 0..9999. */
  function IsoDate(days: int): string
  {
    var (y, m, d) := CivilFromDays(days);
    var year := if 0 <= y <= 9999 then Fixed(y, 4)
                else (if y < 0 then "-" else "+") + Fixed(if y < 0 then -y else y, 6);
    year + "-" + Fixed(m, 2) + "-" + Fixed(d, 2)
  }

  /** The regular expression `^\d{4}-\d{2}-\d{2}$`. */
  predicate IsIsoDateText(s: string)
  {
    |s| == 10 && s[4] == '-' && s[7] == '-'
    && AllDigits(s[..4]) && AllDigits(s[5..7]) && AllDigits(s[8..])
  }

  /** Day 0 is 1970-01-01 in the proleptic Gregorian calendar. */
  lemma CivilEpoch()
    ensures CivilFromDays(0) == (1970, 1, 1)
  {
    assert 719468 / 146097 == 4;
    assert 135080 / 1460 == 92 && 135080 / 36524 == 3 && 135080 / 146096 == 0;
    assert 134991 / 365 == 369;
    assert 369 / 4 == 92 && 369 / 100 == 3;
    assert (5 * 306 + 2) / 153 == 10;
    assert (153 * 10 + 2) / 5 == 306;
  }

  /** A date of years 0 to 9999 renders as its zero-padded year, month and day. */
  lemma IsoDateParts(days: int, y: int, m: int, d: int)
    requires CivilFromDays(days) == (y, m, d) && 0 <= y <= 9999
    ensures IsoDate(days) == Fixed(y, 4) + "-" + Fixed(m, 2) + "-" + Fixed(d, 2)
  {
  }

  lemma EpochDigits()
    ensures Fixed(1970, 4) == "1970" && Fixed(1, 2) == "01"
  {
    assert Fixed(1, 1) == "1" && Fixed(0, 1) == "0";
    assert Fixed(19, 2) == Fixed(1, 1) + "9";
    assert Fixed(197, 3) == Fixed(19, 2) + "7";
    assert Fixed(1970, 4) == Fixed(197, 3) + "0";
  }

  /** Day 0 is 1970-01-01: the day numbering is the Unix epoch's. */
  lemma EpochIsoDate()
    ensures IsoDate(0) == "1970-01-01"
  {
    CivilEpoch();
    IsoDateParts(0, 1970, 1, 1);
    EpochDigits();
  }

  /** Dates of years 0 to 9999 render in the `YYYY-MM-DD` shape. */
  lemma IsoDateShape(days: int)
    requires 0 <= YearOfDay(days) <= 9999
    ensures IsIsoDateText(IsoDate(days))
  {
    var (y, m, d) := CivilFromDays(days);
    var s := IsoDate(days);
    assert s == Fixed(y, 4) + "-" + Fixed(m, 2) + "-" + Fixed(d, 2);
    assert s[..4] == Fixed(y, 4);
    assert s[5..7] == Fixed(m, 2);
    assert s[8..] == Fixed(d, 2);
  }

  /** A rendered date never contains 'T', so it survives `split('T')[0]`. */
  lemma IsoDateHasNoT(days: int)
    ensures 'T' !in IsoDate(days)
  {
    var s := IsoDate(days);
    forall i | 0 <= i < |s| ensures s[i] != 'T' {
    }
  }

  /** A `Date` object (its instant, `None` when invalid) or a string together with the instant
      `new Date(text)` gives for it. */
  datatype DateArg = DateValue(ms: Option<int>) | DateText(text: string, parsed: Option<int>)

  /** `formatDate` (packages/server/src/services/amadeus.ts and monitor.ts): a `Date` is rendered,
      a `YYYY-MM-DD` string is returned as is, any other string is parsed and rendered;
      `toISOString` throws a RangeError on an invalid date. */
  function FormatDate(d: DateArg): Result<string, string>
  {
    match d
    case DateValue(None) => Failure("RangeError: Invalid time value")
    case DateValue(Some(ms)) => Success(IsoDate(ms / MsPerDay))
    case DateText(s, p) =>
      if IsIsoDateText(s) then Success(s)
      else if p.None? then Failure("RangeError: Invalid time value")
      else Success(IsoDate(p.value / MsPerDay))
  }

  /** The argument is rendered in a year that `YYYY-MM-DD` can hold. */
  predicate RendersFourDigitYear(d: DateArg)
  {
    match d
    case DateValue(None) => true
    case DateValue(Some(ms)) => 0 <= YearOfDay(ms / MsPerDay) <= 9999
    case DateText(s, p) => IsIsoDateText(s) || p.None? || 0 <= YearOfDay(p.value / MsPerDay) <= 9999
  }

  /** What `formatDate` returns has the `YYYY-MM-DD` shape ... */
  lemma FormatDateShape(d: DateArg)
    requires FormatDate(d).Success? && RendersFourDigitYear(d)
    ensures IsIsoDateText(FormatDate(d).value)
  {
    match d
    case DateValue(Some(ms)) => IsoDateShape(ms / MsPerDay);
    case DateText(s, p) =>
      if !IsIsoDateText(s) {
        IsoDateShape(p.value / MsPerDay);
      }
  }

  /** ... so formatting a formatted date returns it unchanged: `formatDate` is idempotent. */
  lemma FormatDateIdempotent(d: DateArg, reparsed: Option<int>)
    requires FormatDate(d).Success? && RendersFourDigitYear(d)
    ensures FormatDate(DateText(FormatDate(d).value, reparsed)) == FormatDate(d)
  {
    FormatDateShape(d);
  }

  /** `new Date(formatDate(d))`: the instant the formatted text denotes. A rendered
      `YYYY-MM-DD` text denotes midnight UTC of its day. */
  function BaseInstant(d: DateArg): (r: Result<Option<int>, string>)
    ensures r.Failure? <==> FormatDate(d).Failure?
  {
    match d
    case DateValue(None) => Failure("RangeError: Invalid time value")
    case DateValue(Some(ms)) => Success(Some((ms / MsPerDay) * MsPerDay))
    case DateText(s, p) =>
      if IsIsoDateText(s) then Success(p)
      else if p.None? then Failure("RangeError: Invalid time value")
      else Success(Some((p.value / MsPerDay) * MsPerDay))
  }
}

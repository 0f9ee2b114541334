/** Helpers shared by server and client (packages/shared/src/utils.ts): the window of search
    dates around a base date, and the poll intervals offered to the user. */
module Shared {
  import opened Wrappers

  /** The dates `base - flexDays .. base + flexDays`, as day numbers, that `generateDateRange`
      renders one by one. It is empty when `flexDays` is negative, since the loop never runs, and
      fails when there is at least one date to render from an invalid base. */
  function DateWindow(base: Option<int>, flexDays: int): (r: Result<seq<int>, string>)
    ensures r.Failure? <==> base.None? && flexDays >= 0
    ensures r.Success? ==> |r.value| == if flexDays >= 0 then 2 * flexDays + 1 else 0
    ensures r.Success? ==> forall k :: 0 <= k < |r.value| ==> base.Some? && r.value[k] == base.value - flexDays + k
    ensures r.Success? ==> forall k :: 0 < k < |r.value| ==> r.value[k] == r.value[k - 1] + 1
    ensures r.Success? && flexDays >= 0 ==> r.value[flexDays] == base.value
    ensures base.Some? && flexDays == 0 ==> r == Success([base.value])
  {
    if flexDays < 0 then Success([])
    else if base.None? then Failure("RangeError: Invalid time value")
    else
      var dates := seq(2 * flexDays + 1, k requires 0 <= k => base.value - flexDays + k);
      assert flexDays == 0 ==> dates == [base.value];
      Success(dates)
  }

  /** `generateDateRange`: one date per offset `i` from `-flexDays` to `flexDays`, pushed in
      ascending order; rendering a date of an invalid base throws. */
  method GenerateDateRange(base: Option<int>, flexDays: int) returns (r: Result<seq<int>, string>)
    ensures r == DateWindow(base, flexDays)
  {
    var dates: seq<int> := [];
    var i := -flexDays;
    while i <= flexDays
      invariant flexDays >= 0 ==> -flexDays <= i <= flexDays + 1
      invariant flexDays < 0 ==> i == -flexDays && dates == []
      invariant |dates| == i + flexDays || flexDays < 0
      invariant |dates| > 0 ==> base.Some?
      invariant forall k :: 0 <= k < |dates| ==> base.Some? && dates[k] == base.value - flexDays + k
    {
      if base.None? {
        return Failure("RangeError: Invalid time value");
      }
      dates := dates + [base.value + i];
      i := i + 1;
    }
    if flexDays >= 0 {
      assert |dates| == 2 * flexDays + 1;
      var window := DateWindow(base, flexDays).value;
      assert |dates| == |window|;
      assert forall k :: 0 <= k < |dates| ==> dates[k] == window[k];
      assert dates == window;
    }
    return Success(dates);
  }

  datatype PollInterval = PollInterval(value: int, caption: string)

  /** `POLL_INTERVALS`, in milliseconds. */
  const PollIntervals: seq<PollInterval> := [
    PollInterval(300000, "5 minutes"),
    PollInterval(600000, "10 minutes"),
    PollInterval(1800000, "30 minutes"),
    PollInterval(3600000, "1 hour")
  ]

  function Values(intervals: seq<PollInterval>): (vs: seq<int>)
    ensures |vs| == |intervals|
    ensures forall k :: 0 <= k < |vs| ==> vs[k] == intervals[k].value
  {
    if intervals == [] then [] else [intervals[0].value] + Values(intervals[1..])
  }

  /** The offered intervals are listed from shortest to longest, each at least one minute. */
  lemma PollIntervalsIncreasing()
    ensures forall i, j :: 0 <= i < j < |PollIntervals| ==> PollIntervals[i].value < PollIntervals[j].value
    ensures forall i :: 0 <= i < |PollIntervals| ==> PollIntervals[i].value >= 60000
  {
  }
}

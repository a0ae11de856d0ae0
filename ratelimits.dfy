/** The rate-limit-state tracker both translators keep: after every response it reads
    `X-Rate-Limit-Remaining` and `X-Rate-Limit-Reset`, and on a parse failure clears
    both fields instead of raising. */
module RateLimits {
  import opened Wrappers
  import opened PyInt
  import opened Http

  /** `datetime.fromtimestamp(secs)`, modelled as an injection of the seconds. */
  datatype Timestamp = FromTimestamp(secs: int)

  /** `0001-01-01T00:00:00Z` and `9999-12-31T23:59:59Z` in seconds since the epoch: the
      first and last instants `datetime` can represent (years 1 through 9999). */
  const MIN_TIMESTAMP: int := -62135596800
  const MAX_TIMESTAMP: int := 253402300799

  /** `fromtimestamp` accepts the seconds instead of raising ValueError ("year is out of
      range"), which `_update_rate_limits` catches. */
  predicate InDatetimeRange(secs: int) {
    MIN_TIMESTAMP <= secs <= MAX_TIMESTAMP
  }

  const REMAINING_HEADER := "X-Rate-Limit-Remaining"
  const RESET_HEADER := "X-Rate-Limit-Reset"

  datatype RateLimitState = RateLimitState(remaining: Option<int>, reset: Option<Timestamp>)

  /** `int(headers.get(name, 0))`: a missing header counts as the integer 0. */
  function HeaderInt(headers: map<string, string>, name: string): (r: Option<int>)
    ensures name !in headers ==> r == Some(0)
    ensures name in headers ==> r == ParseInt(headers[name])
  {
    if name in headers then ParseInt(headers[name]) else Some(0)
  }

  /** The state one response leaves behind: both fields set, or both cleared. */
  function Tracked(headers: map<string, string>): (st: RateLimitState)
    ensures st.remaining.Some? <==> st.reset.Some?
    ensures st.remaining.Some? <==>
      && HeaderInt(headers, REMAINING_HEADER).Some?
      && HeaderInt(headers, RESET_HEADER).Some?
      && InDatetimeRange(HeaderInt(headers, RESET_HEADER).value)
    ensures st.remaining.Some? ==>
      && st.remaining == HeaderInt(headers, REMAINING_HEADER)
      && st.reset.value.secs == HeaderInt(headers, RESET_HEADER).value
  {
    match HeaderInt(headers, REMAINING_HEADER)
    case None => RateLimitState(None, None)
    case Some(remaining) =>
      match HeaderInt(headers, RESET_HEADER)
      case None => RateLimitState(None, None)
      case Some(reset) =>
        if InDatetimeRange(reset) then RateLimitState(Some(remaining), Some(FromTimestamp(reset)))
        else RateLimitState(None, None)
  }

  /** Missing headers are not "unknown": they read as 0 remaining, reset at the epoch. */
  lemma MissingHeadersReadAsZero(headers: map<string, string>)
    requires REMAINING_HEADER !in headers && RESET_HEADER !in headers
    ensures Tracked(headers) == RateLimitState(Some(0), Some(FromTimestamp(0)))
  {
  }

  /** Well-formed integer headers are tracked as the integers they spell, as long as the
      reset names an instant `datetime` can represent; otherwise both fields clear. */
  lemma NumericHeadersTracked(headers: map<string, string>, remaining: int, reset: int)
    requires REMAINING_HEADER in headers && headers[REMAINING_HEADER] == ShowInt(remaining)
    requires RESET_HEADER in headers && headers[RESET_HEADER] == ShowInt(reset)
    ensures Tracked(headers) ==
      if InDatetimeRange(reset) then RateLimitState(Some(remaining), Some(FromTimestamp(reset)))
      else RateLimitState(None, None)
  {
    ParseShowRoundTrip(remaining);
    ParseShowRoundTrip(reset);
  }

  /** A reset given in milliseconds, such as `1000000000000`, lies past year 9999: the
      ValueError is caught and the state becomes unknown, whatever `remaining` says. */
  lemma OutOfRangeResetClears(headers: map<string, string>, reset: int)
    requires HeaderInt(headers, RESET_HEADER) == Some(reset)
    requires reset > MAX_TIMESTAMP || reset < MIN_TIMESTAMP
    ensures Tracked(headers) == RateLimitState(None, None)
  {
  }

  /** A non-numeric character in either header clears both fields, whatever the other says. */
  lemma NonNumericHeaderClears(headers: map<string, string>, name: string, k: nat)
    requires name == REMAINING_HEADER || name == RESET_HEADER
    requires name in headers && k < |headers[name]|
    requires var c := headers[name][k]; !IsSpace(c) && !IsDigit(c) && c != '_' && c != '+' && c != '-'
    ensures Tracked(headers) == RateLimitState(None, None)
  {
    NonNumericIsRejected(headers[name], k);
  }

  /** The tracker state after one GET: a response overwrites it, a transport failure
      leaves it alone. */
  function AfterOutcome(st: RateLimitState, outcome: Outcome): (next: RateLimitState) {
    match outcome
    case TransportFailure(_) => st
    case Responded(response) => Tracked(response.headers)
  }

  /** The tracker object: `_rate_limit_remaining` and `_rate_limit_reset`. */
  class RateLimitTracker {
    var remaining: Option<int>
    var reset: Option<Timestamp>

    constructor ()
      ensures remaining == None && reset == None
    {
      remaining := None;
      reset := None;
    }

    function State(): RateLimitState
      reads this
    {
      RateLimitState(remaining, reset)
    }

    /** `_update_rate_limits`: `remaining` is assigned first; a failure to parse the reset
        header, or a reset `fromtimestamp` rejects, clears it again, so no half-updated state
        survives. */
    method Update(headers: map<string, string>)
      modifies this
      ensures State() == Tracked(headers)
    {
      var parsedRemaining := HeaderInt(headers, REMAINING_HEADER);
      if parsedRemaining.None? {
        remaining, reset := None, None;
        return;
      }
      remaining := parsedRemaining;
      var parsedReset := HeaderInt(headers, RESET_HEADER);
      if parsedReset.None? {
        remaining, reset := None, None;
        return;
      }
      if !InDatetimeRange(parsedReset.value) {
        remaining, reset := None, None;
        return;
      }
      reset := Some(FromTimestamp(parsedReset.value));
    }
  }
}

/** The CrossRef backend (`CrossRefTranslator.query_doi`): one bounded retry loop over
    scripted GET outcomes. Only transport-level ClientErrors are retried; every HTTP
    status ends the call on the response that carried it. */
module CrossRef {
  import opened Wrappers
  import opened PyJson
  import opened RateLimits
  import opened Http
  import opened CrossRefMetadata

  const BASE_URL := "https://api.crossref.org/works"
  const DEFAULT_MAILTO := "support@bibli.com"

  /** What `query_doi` returns or raises. */
  datatype QueryResult =
    | Found(metadata: Metadata)                   // the normalised `message`
    | NoneReturned                                // the loop body never ran
    | EmptyDoi                                    // ValueError("DOI cannot be empty")
    | RateLimitExceeded(reset: Option<Timestamp>) // RateLimitError; None is shown as "unknown"
    | DoiNotFound(doi: string)                    // DOINotFoundError
    | ApiError(status: int)                       // CrossRefAPIError("CrossRef API error: ...")
    | NetworkError(reason: string)                // CrossRefAPIError("Network error: ...")
    | Raised(error: PyError)                      // an exception query_doi does not catch

  /** The errors that are a CrossRefAPIError: DOINotFoundError is a subclass of it,
      RateLimitError is not. */
  predicate IsCrossRefApiError(r: QueryResult) {
    r.DoiNotFound? || r.ApiError? || r.NetworkError?
  }

  /** The contact address: `self.mailto or "support@bibli.com"`. */
  function Mailto(mailto: Option<string>): (address: string)
    ensures mailto.Some? && mailto.value != "" ==> address == mailto.value
    ensures mailto.None? || mailto.value == "" ==> address == DEFAULT_MAILTO
    ensures address != ""
  {
    if mailto.Some? && mailto.value != "" then mailto.value else DEFAULT_MAILTO
  }

  /** The one request every attempt sends. */
  function RequestFor(doi: string, mailto: Option<string>): (req: Request) {
    Request(BASE_URL + "/" + doi, map["User-Agent" := "Bibli/1.0 (mailto:" + Mailto(mailto) + ")"])
  }

  /** How one pass through the `try` block ends. */
  datatype Step = Finished(result: QueryResult) | ClientError(reason: string)

  /** One attempt given its GET outcome: the status is classified after the rate-limit
      update, in the order 429, 404, other non-200, and only a 200 reads the body. */
  function Attempt(doi: string, outcome: Outcome): Step {
    match outcome
    case TransportFailure(reason) => ClientError(reason)
    case Responded(response) =>
      if response.status == 429 then Finished(RateLimitExceeded(Tracked(response.headers).reset))
      else if response.status == 404 then Finished(DoiNotFound(doi))
      else if response.status != 200 then Finished(ApiError(response.status))
      else
        match response.body
        case NotJson(reason) => ClientError(reason)
        case Undecodable => Finished(Raised(ValueError))
        case Parsed(data) =>
          match Subscript(data, "message")
          case Err(e) => Finished(Raised(e))
          case Ok(message) =>
            match Normalized(message)
            case Err(e) => Finished(Raised(e))
            case Ok(metadata) => Finished(Found(metadata))
  }

  /** The result of the loop and the number of GETs it issued. */
  datatype Trace = Trace(result: QueryResult, attempts: nat)

  /** `for attempt in range(max_retries)`, from `attempt` on. */
  function Run(doi: string, net: nat -> Outcome, maxRetries: int, attempt: nat): (t: Trace)
    ensures attempt < maxRetries ==> attempt < t.attempts <= maxRetries
    decreases maxRetries - attempt
  {
    if attempt >= maxRetries then Trace(NoneReturned, attempt)
    else
      match Attempt(doi, net(attempt))
      case Finished(result) => Trace(result, attempt + 1)
      case ClientError(reason) =>
        if attempt == maxRetries - 1 then Trace(NetworkError(reason), attempt + 1)
        else Run(doi, net, maxRetries, attempt + 1)
  }

  /** `2 ** n`. */
  function Pow2(n: nat): (p: nat)
    ensures p >= 1
  {
    if n == 0 then 1 else 2 * Pow2(n - 1)
  }

  /** The delays slept after the first `n` attempts: `[2**0, ..., 2**(n-1)]`, so each
      wait is twice the one before. */
  function Backoffs(n: nat): (delays: seq<nat>)
    ensures |delays| == n
    ensures forall i :: 0 <= i < n ==> delays[i] == Pow2(i)
    ensures n > 0 ==> delays[0] == 1
    ensures forall i :: 0 < i < n ==> delays[i] == 2 * delays[i - 1]
  {
    if n == 0 then [] else Backoffs(n - 1) + [Pow2(n - 1)]
  }

  function Repeat<T>(x: T, n: nat): (xs: seq<T>)
    ensures |xs| == n && forall i :: 0 <= i < n ==> xs[i] == x
  {
    if n == 0 then [] else Repeat(x, n - 1) + [x]
  }

  lemma RepeatOneMore<T>(prefix: seq<T>, x: T, n: nat)
    ensures (prefix + Repeat(x, n)) + [x] == prefix + Repeat(x, n + 1)
  {
    assert Repeat(x, n + 1) == Repeat(x, n) + [x];
  }

  lemma BackoffOneMore(prefix: seq<nat>, n: nat)
    ensures (prefix + Backoffs(n)) + [Pow2(n)] == prefix + Backoffs(n + 1)
  {
    assert Backoffs(n + 1) == Backoffs(n) + [Pow2(n)];
  }

  /** The tracker state after the first `n` attempts. */
  function TrackedAfter(initial: RateLimitState, net: nat -> Outcome, n: nat): (st: RateLimitState) {
    if n == 0 then initial else AfterOutcome(TrackedAfter(initial, net, n - 1), net(n - 1))
  }

  lemma RunFinishes(doi: string, net: nat -> Outcome, maxRetries: int, attempt: nat)
    requires attempt < maxRetries && Attempt(doi, net(attempt)).Finished?
    ensures Run(doi, net, maxRetries, attempt) == Trace(Attempt(doi, net(attempt)).result, attempt + 1)
  {
  }

  lemma RunGivesUp(doi: string, net: nat -> Outcome, maxRetries: int, attempt: nat)
    requires attempt == maxRetries - 1 && Attempt(doi, net(attempt)).ClientError?
    ensures Run(doi, net, maxRetries, attempt) == Trace(NetworkError(Attempt(doi, net(attempt)).reason), maxRetries)
  {
  }

  lemma RunRetries(doi: string, net: nat -> Outcome, maxRetries: int, attempt: nat)
    requires attempt < maxRetries - 1 && Attempt(doi, net(attempt)).ClientError?
    ensures Run(doi, net, maxRetries, attempt) == Run(doi, net, maxRetries, attempt + 1)
  {
  }

  // ---------------------------------------------------------------------------
  // Properties of the retry loop
  // ---------------------------------------------------------------------------

  /** With `max_retries <= 0` no request is sent and `query_doi` falls off the end. */
  lemma NoRetriesNoRequest(doi: string, net: nat -> Outcome, maxRetries: int)
    requires maxRetries <= 0
    ensures Run(doi, net, maxRetries, 0) == Trace(NoneReturned, 0)
  {
  }

  lemma {:induction false} DecidedFrom(doi: string, net: nat -> Outcome, maxRetries: int, attempt: nat, j: nat)
    requires attempt <= j < maxRetries
    requires forall k :: attempt <= k < j ==> Attempt(doi, net(k)).ClientError?
    requires Attempt(doi, net(j)).Finished?
    ensures Run(doi, net, maxRetries, attempt) == Trace(Attempt(doi, net(j)).result, j + 1)
    decreases j - attempt
  {
    if attempt < j {
      RunRetries(doi, net, maxRetries, attempt);
      DecidedFrom(doi, net, maxRetries, attempt + 1, j);
    } else {
      RunFinishes(doi, net, maxRetries, attempt);
    }
  }

  /** The first attempt that is not a ClientError decides the result: everything
      before it is retried, nothing after it is sent. */
  lemma FirstDecisiveAttemptWins(doi: string, net: nat -> Outcome, maxRetries: int, j: nat)
    requires j < maxRetries
    requires forall k :: 0 <= k < j ==> Attempt(doi, net(k)).ClientError?
    requires Attempt(doi, net(j)).Finished?
    ensures Run(doi, net, maxRetries, 0) == Trace(Attempt(doi, net(j)).result, j + 1)
  {
    DecidedFrom(doi, net, maxRetries, 0, j);
  }

  lemma {:induction false} ExhaustedFrom(doi: string, net: nat -> Outcome, maxRetries: int, attempt: nat)
    requires attempt < maxRetries
    requires forall k :: attempt <= k < maxRetries ==> Attempt(doi, net(k)).ClientError?
    ensures Run(doi, net, maxRetries, attempt) == Trace(NetworkError(Attempt(doi, net(maxRetries - 1)).reason), maxRetries)
    decreases maxRetries - attempt
  {
    if attempt < maxRetries - 1 {
      RunRetries(doi, net, maxRetries, attempt);
      ExhaustedFrom(doi, net, maxRetries, attempt + 1);
    } else {
      RunGivesUp(doi, net, maxRetries, attempt);
    }
  }

  /** When every attempt is a ClientError, all `max_retries` GETs are sent and the
      last error becomes a CrossRefAPIError("Network error: ..."). */
  lemma ClientErrorsExhaustRetries(doi: string, net: nat -> Outcome, maxRetries: int)
    requires maxRetries > 0
    requires forall k :: 0 <= k < maxRetries ==> Attempt(doi, net(k)).ClientError?
    ensures Run(doi, net, maxRetries, 0) == Trace(NetworkError(Attempt(doi, net(maxRetries - 1)).reason), maxRetries)
    ensures IsCrossRefApiError(Run(doi, net, maxRetries, 0).result)
  {
    ExhaustedFrom(doi, net, maxRetries, 0);
  }

  /** An answered request with a status other than 200 is never retried: 429 raises
      RateLimitError with the reset time just tracked, 404 raises DOINotFoundError, any
      other status CrossRefAPIError; all but the first are CrossRefAPIErrors. */
  lemma StatusErrorsAreFinal(doi: string, net: nat -> Outcome, maxRetries: int, response: Response)
    requires maxRetries > 0 && net(0) == Responded(response) && response.status != 200
    ensures var t := Run(doi, net, maxRetries, 0);
      && t.attempts == 1
      && (response.status == 429 ==> t.result == RateLimitExceeded(Tracked(response.headers).reset))
      && (response.status == 404 ==> t.result == DoiNotFound(doi))
      && (response.status != 429 && response.status != 404 ==> t.result == ApiError(response.status))
      && (IsCrossRefApiError(t.result) <==> response.status != 429)
  {
    RunFinishes(doi, net, maxRetries, 0);
  }

  /** A 200 whose `message` normalises succeeds on that attempt. */
  lemma ParsedMessageIsFound(doi: string, net: nat -> Outcome, maxRetries: int, response: Response, fields: map<string, Json>)
    requires maxRetries > 0 && net(0) == Responded(response) && response.status == 200
    requires response.body == Parsed(JObj(fields)) && "message" in fields
    requires Normalized(fields["message"]).Ok?
    ensures Run(doi, net, maxRetries, 0) == Trace(Found(Normalized(fields["message"]).value), 1)
  {
    RunFinishes(doi, net, maxRetries, 0);
  }

  lemma {:induction false} NeverNoneFrom(doi: string, net: nat -> Outcome, maxRetries: int, attempt: nat)
    requires attempt < maxRetries
    ensures !Run(doi, net, maxRetries, attempt).result.NoneReturned?
    decreases maxRetries - attempt
  {
    match Attempt(doi, net(attempt))
    case Finished(_) =>
      RunFinishes(doi, net, maxRetries, attempt);
    case ClientError(_) =>
      if attempt < maxRetries - 1 {
        RunRetries(doi, net, maxRetries, attempt);
        NeverNoneFrom(doi, net, maxRetries, attempt + 1);
      } else {
        RunGivesUp(doi, net, maxRetries, attempt);
      }
  }

  /** `query_doi` returns None exactly when the loop has no iteration. */
  lemma NoneExactlyWithoutRetries(doi: string, net: nat -> Outcome, maxRetries: int)
    ensures Run(doi, net, maxRetries, 0).result.NoneReturned? <==> maxRetries <= 0
  {
    if maxRetries > 0 {
      NeverNoneFrom(doi, net, maxRetries, 0);
    }
  }

  /** With the default `max_retries = 3`, a DOI that only ever meets ClientErrors is
      requested three times with waits of 1 and 2 seconds between the requests. */
  lemma DefaultSchedule()
    ensures Backoffs(3 - 1) == [1, 2]
  {
    assert Backoffs(1) == [1];
  }

  class CrossRefTranslator {
    /** Whether `self.http_client` is set; a session is created on first use. */
    var hasClient: bool
    const mailto: Option<string>
    const maxRetries: int
    const rateLimits: RateLimitTracker
    /** Every GET issued, and every backoff slept. */
    ghost var requests: seq<Request>
    ghost var sleeps: seq<nat>

    constructor (hasClient: bool, mailto: Option<string>, maxRetries: int)
      ensures this.hasClient == hasClient && this.mailto == mailto && this.maxRetries == maxRetries
      ensures fresh(rateLimits) && rateLimits.State() == RateLimitState(None, None)
      ensures requests == [] && sleeps == []
    {
      this.hasClient := hasClient;
      this.mailto := mailto;
      this.maxRetries := maxRetries;
      rateLimits := new RateLimitTracker();
      requests := [];
      sleeps := [];
    }

    /** One pass through the `try` block: the GET, the rate-limit update on any response,
        and the classification of the response. */
    method TryOnce(doi: string, request: Request, outcome: Outcome) returns (step: Step)
      modifies this, rateLimits
      ensures step == Attempt(doi, outcome)
      ensures requests == old(requests) + [request]
      ensures rateLimits.State() == AfterOutcome(old(rateLimits.State()), outcome)
      ensures hasClient == old(hasClient) && sleeps == old(sleeps)
    {
      requests := requests + [request];
      match outcome {
        case TransportFailure(reason) =>
          return ClientError(reason);
        case Responded(response) =>
          rateLimits.Update(response.headers);
          if response.status == 429 {
            return Finished(RateLimitExceeded(rateLimits.reset));
          }
          if response.status == 404 {
            return Finished(DoiNotFound(doi));
          }
          if response.status != 200 {
            return Finished(ApiError(response.status));
          }
          match response.body {
            case NotJson(reason) =>
              return ClientError(reason);
            case Undecodable =>
              return Finished(Raised(ValueError));
            case Parsed(data) =>
              var message := Subscript(data, "message");
              if message.Err? {
                return Finished(Raised(message.error));
              }
              var metadata := NormalizeMetadata(message.value);
              if metadata.Err? {
                return Finished(Raised(metadata.error));
              }
              return Finished(Found(metadata.value));
          }
      }
    }

    /** `query_doi(doi)`, where the k-th GET gets `net(k)` for an answer. */
    method QueryDoi(doi: string, net: nat -> Outcome) returns (r: QueryResult)
      modifies this, rateLimits
      ensures doi == "" ==> r == EmptyDoi && unchanged(this) && unchanged(rateLimits)
      ensures doi != "" ==>
        var t := Run(doi, net, maxRetries, 0);
        && r == t.result
        && hasClient
        && requests == old(requests) + Repeat(RequestFor(doi, mailto), t.attempts)
        && sleeps == old(sleeps) + Backoffs(if t.attempts == 0 then 0 else t.attempts - 1)
        && rateLimits.State() == TrackedAfter(old(rateLimits.State()), net, t.attempts)
    {
      if doi == "" {
        return EmptyDoi;
      }
      if !hasClient {
        hasClient := true;
      }
      ghost var attempts;
      r, attempts := Retry(doi, RequestFor(doi, mailto), net);
    }

    /** The `for attempt in range(self.max_retries)` loop of `query_doi`. */
    method Retry(doi: string, request: Request, net: nat -> Outcome) returns (r: QueryResult, ghost attempts: nat)
      modifies this, rateLimits
      ensures Run(doi, net, maxRetries, 0) == Trace(r, attempts)
      ensures hasClient == old(hasClient)
      ensures requests == old(requests) + Repeat(request, attempts)
      ensures sleeps == old(sleeps) + Backoffs(if attempts == 0 then 0 else attempts - 1)
      ensures rateLimits.State() == TrackedAfter(old(rateLimits.State()), net, attempts)
    {
      ghost var startRequests := requests;
      ghost var startSleeps := sleeps;
      ghost var startState := rateLimits.State();

      var attempt := 0;
      while attempt < maxRetries
        invariant attempt == 0 || attempt < maxRetries
        invariant hasClient == old(hasClient)
        invariant Run(doi, net, maxRetries, 0) == Run(doi, net, maxRetries, attempt)
        invariant requests == startRequests + Repeat(request, attempt)
        invariant sleeps == startSleeps + Backoffs(attempt)
        invariant rateLimits.State() == TrackedAfter(startState, net, attempt)
        decreases maxRetries - attempt
      {
        RepeatOneMore(startRequests, request, attempt);
        var step := TryOnce(doi, request, net(attempt));
        if step.Finished? {
          RunFinishes(doi, net, maxRetries, attempt);
          return step.result, attempt + 1;
        }
        // except aiohttp.ClientError
        if attempt == maxRetries - 1 {
          RunGivesUp(doi, net, maxRetries, attempt);
          return NetworkError(step.reason), attempt + 1;
        }
        RunRetries(doi, net, maxRetries, attempt);
        BackoffOneMore(startSleeps, attempt);
        sleeps := sleeps + [Pow2(attempt)];
        attempt := attempt + 1;
      }
      return NoneReturned, 0;
    }
  }
}

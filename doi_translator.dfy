/** The DOI.org backend (`DOITranslator.resolve_doi`): syntax check, one content-negotiated
    GET, status classification, and the optional proxy rewriting of `URL` and `link`. */
module DoiTranslator {
  import opened Wrappers
  import opened PyJson
  import opened RateLimits
  import opened Http
  import opened DoiSyntax

  const RESOLVER := "https://doi.org/"
  const HEADERS := map[
    "Accept" := "application/vnd.citationstyles.csl+json",
    "User-Agent" := "Bibli/1.0 (mailto:support@bibli.com)"]
  const PROXIED_URL := "proxied_url"
  const PROXIED_LINK := "proxied_link"

  /** The proxy collaborator: `transform_url`, when a proxy service is configured. */
  type Proxy = Option<string -> string>

  /** What `resolve_doi` returns or raises. */
  datatype ResolveResult =
    | Resolved(record: Json)                      // the parsed CSL-JSON body, maybe augmented
    | InvalidFormat                               // ValueError("Invalid DOI format: ...")
    | RateLimitExceeded(reset: Option<Timestamp>) // RateLimitError; None is shown as "unknown"
    | DoiNotFound(doi: string)                    // DOINotFoundError
    | ResolutionFailed(status: int)               // DOIResolutionError("Failed to resolve DOI: ...")
    | NetworkError(reason: string)                // DOIResolutionError("Network error resolving DOI: ...")
    | Raised(error: PyError)                      // an exception resolve_doi does not catch
    | ProxyOutOfContract                          // transform_url handed a value that is not a str

  /** The errors that are a DOIResolutionError: DOINotFoundError is a subclass of it,
      RateLimitError is not. */
  predicate IsResolutionError(r: ResolveResult) {
    r.DoiNotFound? || r.ResolutionFailed? || r.NetworkError?
  }

  /** `https://doi.org/{doi}`, passed through the proxy when there is one. */
  function DispatchUrl(proxy: Proxy, doi: string): (url: string) {
    var url := RESOLVER + doi;
    if proxy.Some? then proxy.value(url) else url
  }

  /** `if source in metadata: metadata[target] = transform_url(metadata[source])`. */
  function AddProxied(transform: string -> string, metadata: Json, source: string, target: string): (r: Result<Json, ResolveResult>)
    ensures metadata.JObj? && source !in metadata.fields ==> r == Ok(metadata)
    ensures metadata.JObj? && source in metadata.fields && metadata.fields[source].JStr? ==>
      && r.Ok? && r.value.JObj?
      && r.value.fields.Keys == metadata.fields.Keys + {target}
      && r.value.fields[target] == JStr(transform(metadata.fields[source].s))
      && (forall k :: k in metadata.fields && k != target ==> r.value.fields[k] == metadata.fields[k])
    ensures metadata.JObj? && source in metadata.fields && !metadata.fields[source].JStr? ==> r == Err(ProxyOutOfContract)
    ensures metadata.JArr? ==> r == (if JStr(source) in metadata.items then Err(Raised(TypeError)) else Ok(metadata))
    ensures metadata.JStr? ==> r == (if IsSubstring(source, metadata.s) then Err(Raised(TypeError)) else Ok(metadata))
    ensures metadata.JNull? || metadata.JBool? || metadata.JInt? ==> r == Err(Raised(TypeError))
  {
    match Contains(metadata, source)
    case Err(e) => Err(Raised(e))
    case Ok(present) =>
      if !present then Ok(metadata)
      else
        match Subscript(metadata, source)
        case Err(e) => Err(Raised(e))
        case Ok(value) =>
          if !value.JStr? then Err(ProxyOutOfContract)
          else Ok(JObj(metadata.fields[target := JStr(transform(value.s))]))
  }

  /** The proxy step on a parsed body: `URL` first, then `link`. */
  function Augmented(transform: string -> string, metadata: Json): (r: ResolveResult) {
    match AddProxied(transform, metadata, "URL", PROXIED_URL)
    case Err(e) => e
    case Ok(withUrl) =>
      match AddProxied(transform, withUrl, "link", PROXIED_LINK)
      case Err(e) => e
      case Ok(record) => Resolved(record)
  }

  /** What `resolve_doi` does with the outcome of its single GET for a valid DOI. */
  function Resolution(proxy: Proxy, doi: string, outcome: Outcome): (r: ResolveResult) {
    match outcome
    case TransportFailure(reason) => NetworkError(reason)
    case Responded(response) =>
      if response.status == 429 then RateLimitExceeded(Tracked(response.headers).reset)
      else if response.status == 404 then DoiNotFound(doi)
      else if response.status != 200 then ResolutionFailed(response.status)
      else
        match response.body
        case NotJson(reason) => NetworkError(reason)
        case Undecodable => Raised(ValueError)
        case Parsed(metadata) =>
          if proxy.None? then Resolved(metadata) else Augmented(proxy.value, metadata)
  }

  // ---------------------------------------------------------------------------
  // Properties of resolution
  // ---------------------------------------------------------------------------

  /** A status other than 200 is classified in the order 429, 404, other; everything but
      the 429 is a DOIResolutionError. */
  lemma StatusErrorsClassified(proxy: Proxy, doi: string, response: Response)
    requires response.status != 200
    ensures var r := Resolution(proxy, doi, Responded(response));
      && (response.status == 429 ==> r == RateLimitExceeded(Tracked(response.headers).reset))
      && (response.status == 404 ==> r == DoiNotFound(doi))
      && (response.status != 429 && response.status != 404 ==> r == ResolutionFailed(response.status))
      && (IsResolutionError(r) <==> response.status != 429)
  {
  }

  /** A ClientError (a transport failure, or a body that is not JSON) is reported at once
      as a DOIResolutionError: there is no second attempt. */
  lemma ClientErrorsAreResolutionErrors(proxy: Proxy, doi: string, outcome: Outcome)
    requires outcome.TransportFailure? || (outcome.response.status == 200 && outcome.response.body.NotJson?)
    ensures IsResolutionError(Resolution(proxy, doi, outcome))
  {
  }

  /** Without a proxy the parsed body is returned as it is. */
  lemma UnproxiedBodyReturned(doi: string, response: Response, metadata: Json)
    requires response.status == 200 && response.body == Parsed(metadata)
    ensures Resolution(None, doi, Responded(response)) == Resolved(metadata)
  {
  }

  /** With a proxy, a record whose `URL` and `link` (where present) are strings comes back
      with every original entry except `proxied_url`/`proxied_link`, plus `proxied_url`
      exactly when `URL` is a key and `proxied_link` exactly when `link` is a key, each the
      proxy's rewriting of the original value. */
  lemma ProxyAugmentsRecord(transform: string -> string, fields: map<string, Json>)
    requires "URL" in fields ==> fields["URL"].JStr?
    requires "link" in fields ==> fields["link"].JStr?
    ensures var r := Augmented(transform, JObj(fields));
      && r.Resolved? && r.record.JObj?
      && r.record.fields.Keys == fields.Keys
           + (if "URL" in fields then {PROXIED_URL} else {})
           + (if "link" in fields then {PROXIED_LINK} else {})
      && (forall k :: k in fields && k != PROXIED_URL && k != PROXIED_LINK ==> r.record.fields[k] == fields[k])
      && ("URL" in fields ==> r.record.fields[PROXIED_URL] == JStr(transform(fields["URL"].s)))
      && ("link" in fields ==> r.record.fields[PROXIED_LINK] == JStr(transform(fields["link"].s)))
  {
    var first := AddProxied(transform, JObj(fields), "URL", PROXIED_URL);
    assert first.Ok? && first.value.JObj?;
    var withUrl := first.value.fields;
    assert "link" in withUrl <==> "link" in fields;
    assert "link" in fields ==> withUrl["link"] == fields["link"];
  }

  class DoiTranslator {
    /** Whether `self.http_client` is set; a session is created on first use. */
    var hasClient: bool
    const proxy: Proxy
    const rateLimits: RateLimitTracker
    /** Every GET issued. */
    ghost var requests: seq<Request>

    constructor (hasClient: bool, proxy: Proxy)
      ensures this.hasClient == hasClient && this.proxy == proxy
      ensures fresh(rateLimits) && rateLimits.State() == RateLimitState(None, None)
      ensures requests == []
    {
      this.hasClient := hasClient;
      this.proxy := proxy;
      rateLimits := new RateLimitTracker();
      requests := [];
    }

    /** `resolve_doi(doi)`, where the GET is answered by `outcome`. */
    method ResolveDoi(doi: string, outcome: Outcome) returns (r: ResolveResult)
      modifies this, rateLimits
      ensures !ValidateDoi(doi) ==> r == InvalidFormat && unchanged(this) && unchanged(rateLimits)
      ensures ValidateDoi(doi) ==>
        && r == Resolution(proxy, doi, outcome)
        && hasClient
        && requests == old(requests) + [Request(DispatchUrl(proxy, doi), HEADERS)]
        && rateLimits.State() == AfterOutcome(old(rateLimits.State()), outcome)
    {
      if !ValidateDoi(doi) {
        return InvalidFormat;
      }
      if !hasClient {
        hasClient := true;
      }
      var url := RESOLVER + doi;
      if proxy.Some? {
        url := proxy.value(url);
      }
      requests := requests + [Request(url, HEADERS)];
      match outcome {
        case TransportFailure(reason) =>
          return NetworkError(reason);
        case Responded(response) =>
          rateLimits.Update(response.headers);
          if response.status == 429 {
            return RateLimitExceeded(rateLimits.reset);
          }
          if response.status == 404 {
            return DoiNotFound(doi);
          }
          if response.status != 200 {
            return ResolutionFailed(response.status);
          }
          match response.body {
            case NotJson(reason) =>
              return NetworkError(reason);
            case Undecodable =>
              return Raised(ValueError);
            case Parsed(body) =>
              var metadata := body;
              if proxy.Some? {
                var withUrl := AddProxied(proxy.value, metadata, "URL", PROXIED_URL);
                if withUrl.Err? {
                  return withUrl.error;
                }
                metadata := withUrl.value;
                var withLink := AddProxied(proxy.value, metadata, "link", PROXIED_LINK);
                if withLink.Err? {
                  return withLink.error;
                }
                metadata := withLink.value;
              }
              return Resolved(metadata);
          }
      }
    }
  }
}

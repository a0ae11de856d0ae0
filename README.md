# DOI metadata resolution: a Dafny model

This project models the resolution core of a bibliography tool. Given a Digital Object
Identifier (DOI), it fetches the work's metadata in one of two ways:

- **CrossRef backend** (`CrossRefTranslator`). It queries `https://api.crossref.org/works/{doi}`
  and retries transport failures with exponential backoff. It normalises the `message`
  object of the answer into a fixed twelve-field record: title, authors, DOI, URL, journal,
  ISSN, issue, volume, year, publisher, type and language.
- **DOI.org backend** (`DOITranslator`). It checks the DOI's syntax and sends one
  content-negotiated GET to `https://doi.org/{doi}`. It returns the CSL-JSON record as it is.
  When an institutional proxy is configured, it adds `proxied_url` and `proxied_link`.

Both backends keep the rate-limit state taken from the `X-Rate-Limit-*` response headers.
Both map the response status to the same kinds of error: rate limited, not found, other
API error, network error.

## Modules

- `Wrappers`: `Option` and `Result`.
- `PyJson`: parsed JSON as Python sees it, with `None` written as `JNull`. It also holds the
  Python operations the code applies to such values: truthiness, `v[0]`, `v[key]`,
  `key in v` and `dict.get`. Each returns a `PyError` (`TypeError`, `AttributeError`, ...)
  where Python would raise one.
- `PyInt`: Python's `int()` on a `str`. It strips ASCII whitespace (tab, line feed, vertical
  tab, form feed, carriage return, space), takes an optional sign, then
  ASCII digits with single underscores between groups.
- `Http`: the transport seen from the code: an `Outcome` is either a transport failure (an
  `aiohttp.ClientError`) or a response with a status, headers and a body. The body either
  parsed as JSON, failed on its content type (`ContentTypeError`, itself a `ClientError`),
  or failed to decode (`JSONDecodeError`, a `ValueError`).
- `RateLimits`: `_update_rate_limits`. `Tracked` is the pure specification function and the
  `RateLimitTracker` class is the two mutable fields; both translators share it.
- `CrossRefMetadata`: `_normalize_metadata` and `get_first`. `Normalized` is the
  specification and `NormalizeMetadata` is the imperative method built from the source's two
  loops.
- `CrossRef`: `query_doi`. Transport outcomes are scripted as `net(k)`, the answer to the
  k-th GET. `Run` specifies the retry loop. The class `CrossRefTranslator` performs it and
  records every request and every backoff in ghost logs.
- `DoiSyntax`: `validate_doi` and `DOI_PATTERN`. There is a recogniser (`ValidateDoi`) and
  a declarative grammar (`IsDoi`), with a proof that they agree.
- `DoiTranslator`: `resolve_doi`. `Resolution` and `Augmented` specify it and the class
  `DoiTranslator` performs it.

Behaviour of the code that a reader might not expect, which the model follows:

- With `max_retries = 3` and only failures, the code sleeps 1 s and 2 s, once between each
  two of the three attempts, and not after the last (`CrossRef.DefaultSchedule`).
- A missing rate-limit header reads as `0`, so a response without them sets remaining 0 and
  a reset at the epoch (`RateLimits.MissingHeadersReadAsZero`).
- The DOI.org backend makes exactly one attempt, without retry or backoff.
- The CrossRef backend never calls the proxy.
- The CrossRef backend also retries a 200 whose body has the wrong content type, because
  `ContentTypeError` is a `ClientError` raised inside the `try`.

## Model

| member | source | states |
|---|---|---|
| PyJson.SubstringAt | python/doi_translator.py:91-94 | a str that occurs at some position of another str is `in` it |
| PyJson.SubstringOccurs | python/doi_translator.py:91-94 | conversely, a str that is `in` another occurs in it at some position |
| PyJson.SubstringIffOccurs | python/doi_translator.py:91-94 | `t in s` on two strs holds exactly when `t` occurs in `s` at some position |
| PyJson.MembershipGuardsLookup | python/doi_translator.py:91-94 | after `key in v`, the lookup `v[key]` succeeds exactly when `v` is a dict and `in` found the key; a list or str that passes the `in` test makes the lookup raise TypeError |
| PyInt.StripLeft | python/crossref_translator.py:137-138 | removing leading whitespace (tab, line feed, vertical tab, form feed, carriage return, space) leaves a suffix, removes only whitespace, and stops at a non-space |
| PyInt.StripRight | python/crossref_translator.py:137-138 | removing trailing whitespace (the same six characters) leaves a prefix, removes only whitespace, and stops at a non-space |
| PyInt.DropUnderscores | python/crossref_translator.py:137-138 | removing the group separators from digits and underscores leaves only digits, and leaves a string without underscores unchanged |
| PyInt.ParseInt | python/crossref_translator.py:137-138 | `int()` rejects a blank string |
| PyInt.ParseShowRoundTrip | python/crossref_translator.py:137-138 | `int(str(n)) == n` for every integer n, including negative ones; Python itself raises ValueError once `str(n)` exceeds its digit limit (see Left out) |
| PyInt.ShowNatValue | python/crossref_translator.py:137-138 | the reference spelling `ShowNat` used by the round trip is correct: its digits denote the number spelled |
| PyInt.ShowInt | python/crossref_translator.py:137-138 | the reference spelling of an integer (Python's `str(n)`, used by the round trip) is non-empty and neither starts nor ends with whitespace, so `int()` strips nothing from it |
| PyInt.ShowNat | python/crossref_translator.py:137-138 | the reference spelling of a natural number, used by the round trip, is a non-empty digit run |
| PyInt.DigitChar | python/crossref_translator.py:137-138 | the reference spelling's digits: each value below ten has a digit character of that value |
| PyInt.StripKeepsTrimmed | python/crossref_translator.py:137-138 | stripping a string with no surrounding whitespace changes nothing |
| PyInt.DigitsHaveNoUnderscore | python/crossref_translator.py:137-138 | a digit run never contains a double underscore |
| PyInt.ParseDigitRun | python/crossref_translator.py:137-138 | a non-empty digit run parses to its decimal value |
| PyInt.ParseUnsignedRun | python/crossref_translator.py:137-138 | `int()` of an unsigned digit run is its decimal value |
| PyInt.ParseNegativeRun | python/crossref_translator.py:137-138 | `int()` of `-` followed by a digit run is the negated value |
| PyInt.NonNumericIsRejected | python/crossref_translator.py:137-142 | a character that is not whitespace, a digit, `_` or a sign makes `int()` fail |
| PyInt.DropUnderscoresAppend | python/crossref_translator.py:137-138 | separator removal distributes over concatenation |
| PyInt.SingleUnderscoreBetweenRuns | python/crossref_translator.py:137-138 | two digit runs joined by one underscore have no double underscore |
| PyInt.GroupedAroundUnderscore | python/crossref_translator.py:137-138 | two digit runs joined by one underscore are a well-grouped literal |
| PyInt.DropAroundUnderscore | python/crossref_translator.py:137-138 | removing the separator between two digit runs concatenates them |
| PyInt.UnderscoreBetweenDigitRuns | python/crossref_translator.py:137-138 | `int("12_345") == int("12345")`: one separator between digit groups does not change the value |
| PyInt.SurroundingWhitespaceIgnored | python/crossref_translator.py:137-138 | ASCII whitespace (tab, line feed, vertical tab, form feed, carriage return, space) around a literal does not change what `int()` gives |
| PyInt.StripLeftPrefix | python/crossref_translator.py:137-138 | stripping removes exactly a leading whitespace prefix |
| PyInt.StripRightSuffix | python/crossref_translator.py:137-138 | stripping removes exactly a trailing whitespace suffix |
| RateLimits.Tracked | python/crossref_translator.py:134-142 | after an update both fields are set or both are None. They are set exactly when both headers parse with `int()` (a missing header counting as 0) and the reset lies in `datetime`'s range, years 1 through 9999; they then hold the two parsed values. Outside that range the caught ValueError clears both |
| RateLimits.MissingHeadersReadAsZero | python/crossref_translator.py:137-139 | with neither header, the state is remaining 0 with a reset at timestamp 0 |
| RateLimits.NumericHeadersTracked | python/doi_translator.py:101-106 | headers spelling two integers are tracked as exactly those integers when the reset is within `datetime`'s range, and clear both fields otherwise |
| RateLimits.OutOfRangeResetClears | python/crossref_translator.py:137-142 | a reset past year 9999 or before year 1, such as `1000000000000` given in milliseconds, clears both fields whatever `remaining` says |
| RateLimits.NonNumericHeaderClears | python/doi_translator.py:107-109 | a non-numeric character in either header clears both fields |
| RateLimits.RateLimitTracker.Update | python/crossref_translator.py:134-142 | the tracker's new state is `Tracked(headers)`: `remaining` is not left half-updated when the reset fails to parse or lies outside `datetime`'s range |
| RateLimits.RateLimitTracker.constructor | python/crossref_translator.py:30-31 | a fresh tracker has both fields None |
| CrossRefMetadata.GetFirst | python/crossref_translator.py:98-99 | `get_first` is the first element of a non-empty list, None on any falsy value, and raises exactly on a truthy value that is neither a list nor a str |
| CrossRefMetadata.FirstOf | python/crossref_translator.py:102-107 | `get_first(data.get(key, []))` is None without raising when the key is absent or its value falsy (None, `[]`, `""`, `0`, `false`, `{}`), and the first element of a non-empty array |
| CrossRefMetadata.AuthorsInOrder | python/crossref_translator.py:117-121 | the author loop succeeds exactly when every entry is a dict, otherwise fails with AttributeError, and yields the entries' `given`/`family` in order |
| CrossRefMetadata.YearOf | python/crossref_translator.py:127-129 | a year read from a date field is truthy |
| CrossRefMetadata.FindYear | python/crossref_translator.py:124-130 | the year search yields None or a truthy value |
| CrossRefMetadata.Normalized | python/crossref_translator.py:88-132 | normalising a non-dict raises AttributeError, and a record's title, journal and ISSN are the first elements of their arrays |
| CrossRefMetadata.NormalizeMetadata | python/crossref_translator.py:101-132 | the method built from the dict-building loops returns exactly `Normalized(data)`, errors included |
| CrossRefMetadata.YearOfFirstYieldingField | python/crossref_translator.py:124-130 | the year is a non-null value exactly when some field yields it as its first truthy date-part and every earlier field is absent or yields nothing |
| CrossRefMetadata.NoYieldingFieldNoYear | python/crossref_translator.py:124-130 | the year is None exactly when no date field yields one |
| CrossRefMetadata.PrintYearWins | python/crossref_translator.py:124-130 | whenever `published-print` yields a year, that year is the record's, whatever `published-online` and `created` hold |
| CrossRefMetadata.RecordAuthors | python/crossref_translator.py:103-121 | the record's authors have the length and order of `author`, element i built from entry i, and are empty when `author` is absent |
| CrossRefMetadata.RecordPassThrough | python/crossref_translator.py:104-113 | DOI, URL, issue, volume, publisher, type and language pass through unchanged, or None when absent |
| CrossRefMetadata.ShapedDatesFindYear | python/crossref_translator.py:124-130 | date fields shaped as CrossRef sends them never make the year search raise |
| CrossRefMetadata.ShapedRecordNormalizes | python/crossref_translator.py:88-132 | a `message` shaped as CrossRef documents it always normalises without an exception |
| CrossRefMetadata.EmptyDatePartsStopSearch | python/crossref_translator.py:124-130 | when the search reaches a date object whose `date-parts` is `[]`, every earlier field having been passed over, the search raises IndexError |
| CrossRefMetadata.EmptyDatePartsRaise | python/crossref_translator.py:124-130 | an explicit `date-parts: []` in the first date field the search reaches makes normalisation raise IndexError, whatever other keys that date object carries |
| CrossRefMetadata.EmptyArraysAreSafe | python/crossref_translator.py:99-117 | empty or missing title, author and container-title arrays give None, no authors and None |
| CrossRefMetadata.SingleAuthor | python/crossref_translator.py:117-121 | one author entry gives exactly one author built from it |
| CrossRefMetadata.StudyParts | python/crossref_translator.py:117-130 | in the worked example, the author and year parts come out as `A Smith` and 2020 |
| CrossRefMetadata.StudyAbsentKeys | python/crossref_translator.py:104-113 | proof step for `StudyExample`: the worked example has none of the pass-through keys it leaves out |
| CrossRefMetadata.NormalizedFromParts | python/crossref_translator.py:101-132 | proof step: once every part succeeds, the record is assembled from title, journal, ISSN, authors, year and the pass-through keys |
| CrossRefMetadata.StudyExample | python/crossref_translator.py:88-132 | the worked example `{"title": ["A Study"], "author": [{"given": "A", "family": "Smith"}], "DOI": ..., "published-print": {"date-parts": [[2020, 5]]}}` normalises to title "A Study", one author, its DOI, year 2020 and every other field None |
| CrossRef.Mailto | python/crossref_translator.py:56 | the User-Agent's contact address is never empty: it is `mailto` when that is a non-empty string and `support@bibli.com` when it is None or empty |
| CrossRef.Run | python/crossref_translator.py:61-86 | a loop with at least one iteration issues between one and `max_retries` GETs |
| CrossRef.Pow2 | python/crossref_translator.py:86 | a backoff is at least one second |
| CrossRef.Backoffs | python/crossref_translator.py:84-86 | after n failed attempts the sleeps are `2**0, ..., 2**(n-1)`: the first is 1 s and each doubles the one before |
| CrossRef.Repeat | python/crossref_translator.py:59-63 | every attempt sends the same request |
| CrossRef.RepeatOneMore | python/crossref_translator.py:63 | proof step for `Retry`: each attempt appends one request to the log |
| CrossRef.BackoffOneMore | python/crossref_translator.py:86 | proof step for `Retry`: each retried attempt appends the next backoff to the log |
| CrossRef.RunFinishes | python/crossref_translator.py:63-81 | an attempt that ends other than in a ClientError ends the loop with its result |
| CrossRef.RunGivesUp | python/crossref_translator.py:83-85 | a ClientError on the last attempt becomes a network CrossRefAPIError |
| CrossRef.RunRetries | python/crossref_translator.py:83-86 | a ClientError on an earlier attempt moves on to the next attempt |
| CrossRef.NoRetriesNoRequest | python/crossref_translator.py:61 | with `max_retries <= 0` no GET is issued and the result is None |
| CrossRef.DecidedFrom | python/crossref_translator.py:61-86 | from any attempt on, the first one that does not raise a ClientError decides the result |
| CrossRef.FirstDecisiveAttemptWins | python/crossref_translator.py:61-86 | if attempt j is the first whose outcome is not a ClientError, exactly j+1 GETs are issued and attempt j's result is returned: HTTP statuses, success and uncaught exceptions are never retried |
| CrossRef.ExhaustedFrom | python/crossref_translator.py:83-86 | from any attempt on, ClientErrors on all the remaining attempts run the loop to its end |
| CrossRef.ClientErrorsExhaustRetries | python/crossref_translator.py:61-86 | if every attempt is a ClientError, exactly `max_retries` GETs are issued and the result is the network CrossRefAPIError carrying the last error |
| CrossRef.StatusErrorsAreFinal | python/crossref_translator.py:66-78 | a non-200 first response ends the call after one GET: 429 gives the rate-limit error with the reset just tracked, 404 DOINotFoundError, any other status CrossRefAPIError; all but 429 are CrossRefAPIErrors |
| CrossRef.ParsedMessageIsFound | python/crossref_translator.py:80-81 | a 200 whose `message` normalises returns that record after one GET |
| CrossRef.NeverNoneFrom | python/crossref_translator.py:61-86 | a loop that runs at least once never falls off its end |
| CrossRef.NoneExactlyWithoutRetries | python/crossref_translator.py:61-86 | `query_doi` returns None exactly when `max_retries <= 0` |
| CrossRef.DefaultSchedule | python/crossref_translator.py:84-86 | with the default three retries the waits are exactly 1 s and 2 s |
| CrossRef.CrossRefTranslator.constructor | python/crossref_translator.py:14-31 | a new translator keeps its client, mailto and retry bound, with empty rate-limit state |
| CrossRef.CrossRefTranslator.TryOnce | python/crossref_translator.py:62-81 | one pass through the `try` block sends the request, sets the tracker from any response, and ends as `Attempt` classifies the outcome |
| CrossRef.CrossRefTranslator.Retry | python/crossref_translator.py:61-86 | the loop returns `Run`'s result, and its request log, backoff log and tracker state are those of `Run`'s attempts |
| CrossRef.CrossRefTranslator.QueryDoi | python/crossref_translator.py:49-86 | an empty DOI raises ValueError with no request and no state change. Otherwise the client is set, the result is `Run`'s, one identical request per attempt is logged (its User-Agent carries `mailto`, or `support@bibli.com` when that is unset or empty), the sleeps are the backoffs between attempts, and the tracker reflects the last response |
| DoiSyntax.Span | python/doi_translator.py:13 | a greedy character-class run is a maximal run of class characters |
| DoiSyntax.SpanIsMaximalRun | python/doi_translator.py:13 | any maximal run of class characters is what the greedy run measures |
| DoiSyntax.ValidateDoi | python/doi_translator.py:13-36 | an accepted DOI starts with `10.` and has at least nine characters; the empty string is rejected |
| DoiSyntax.AcceptedSplits | python/doi_translator.py:13-36 | an accepted string splits as `10.`, four or more digits, `/`, one or more suffix characters and an end |
| DoiSyntax.SplitIsAccepted | python/doi_translator.py:13-36 | every string of that shape is accepted |
| DoiSyntax.ValidateDoiMatchesGrammar | python/doi_translator.py:13-36 | `validate_doi` accepts exactly the strings matching `^10\.\d{4,}/[-._;()/:\w]+$` as the grammar states it |
| DoiSyntax.TrailingNewlineAccepted | python/doi_translator.py:13 | `$` lets `"10.1234/x\n"` validate |
| DoiSyntax.ThreeDigitPrefixRejected | python/doi_translator.py:13 | a DOI with three registrant digits is rejected, whatever follows |
| DoiSyntax.AcceptedCharacters | python/doi_translator.py:13 | every character of an accepted DOI is in the suffix class, except a final newline |
| DoiTranslator.AddProxied | python/doi_translator.py:91-94 | for a dict, a string value at the source key is added rewritten under the target key and every other entry is kept; without the key the record is unchanged. A list or str containing the key raises TypeError, otherwise it passes unchanged; None, bool and int raise TypeError |
| DoiTranslator.StatusErrorsClassified | python/doi_translator.py:72-85 | 429 gives the rate-limit error with the tracked reset, 404 DOINotFoundError, other non-200 a DOIResolutionError carrying the status; all but 429 are DOIResolutionErrors |
| DoiTranslator.ClientErrorsAreResolutionErrors | python/doi_translator.py:98-99 | a transport failure or a wrong content type becomes a DOIResolutionError at once, with no retry |
| DoiTranslator.UnproxiedBodyReturned | python/doi_translator.py:87-96 | without a proxy the parsed body is returned as it is |
| DoiTranslator.ProxyAugmentsRecord | python/doi_translator.py:89-96 | with a proxy, and with `URL` and `link` holding strs where present, the record keeps every original entry except `proxied_url`/`proxied_link` and gains `proxied_url` exactly when `URL` is a key and `proxied_link` exactly when `link` is, each the rewriting of the original value |
| DoiTranslator.DoiTranslator.constructor | python/doi_translator.py:15-25 | a new translator keeps its client and proxy, with empty rate-limit state |
| DoiTranslator.DoiTranslator.ResolveDoi | python/doi_translator.py:38-99 | an invalid DOI raises ValueError before the proxy or the network is used, and nothing changes. Otherwise exactly one GET goes to the (proxied) `https://doi.org/{doi}` with the CSL-JSON `Accept` header, the tracker is set from the response, and the result is `Resolution` |

## Left out

- The `@sleep_and_retry @limits(calls=50, period=1)` rate limiter on `query_doi`
  (python/crossref_translator.py:33-34): wall-clock, lock-based library behaviour outside the
  code's own logic.
- Constructing `aiohttp.ClientSession`: the model keeps only the flag saying a client exists.
  Real `get`/`json()` calls are replaced by scripted outcomes.
- `asyncio.sleep` timing, concurrency and cancellation: the delays are recorded in a ghost
  log only.
- `datetime.fromtimestamp` becomes the injection `FromTimestamp`, guarded by
  `InDatetimeRange`, the years 1 to 9999 in UTC. The model leaves out the conversion to local
  time. In a zone other than UTC, the boundaries of the caught ValueError shift by the zone's
  offset, at most about a day.
- RateLimits.Tracked: a reset too large for the platform's `time_t` or `localtime` (glibc
  fails once the year no longer fits an `int`, about 6.7e16 seconds) raises OverflowError or
  OSError, and `_update_rate_limits` does not catch either. In Python, `_rate_limit_remaining`
  has then already been updated while `_rate_limit_reset` keeps its old value, and the
  exception leaves `query_doi`/`resolve_doi`. The model treats these resets like any other
  out-of-range one, clearing both fields, so it has neither the half-updated state nor the
  escaping exception.
- `ProxyService` and `with_institutional_access`/`ProxyService.for_ut()`
  (python/doi_translator.py:7, 27-30): their code is not part of this model. The proxy is an
  abstract `string -> string` function. A `URL` or `link` value that is not a str is handed
  to it outside its contract, and the model stops at `ProxyOutOfContract`.
- DoiSyntax.IsWordChar: `\w` and `\d` are read as their ASCII classes, not Python's Unicode
  classes.
- PyInt.ParseInt: only ASCII input is modelled. The whitespace stripped is tab, line feed,
  vertical tab, form feed, carriage return and space, and the digits are `0` to `9`. Python's
  `int()` also strips other Unicode whitespace and accepts other Unicode decimal digits.
- PyInt.ParseInt: Python's limit on the number of digits `int()` accepts
  (`sys.int_max_str_digits`, 4300 by default and configurable) is not modelled. Longer digit
  strings parse here but raise ValueError in Python, so `ParseShowRoundTrip` holds in Python
  only for integers within the limit.
- Header names are looked up exactly: `aiohttp`'s case-insensitive header map is not
  modelled.
- Exception message text: results carry only the exception's kind and its structured fields
  (status, reset time or "unknown", DOI, transport reason).
- Non-string DOI arguments (for example `None`): `doi` is a string throughout.
- JSON floats: the JSON value type has no floating-point numbers.
- The insertion order of dict keys: records are unordered maps, so the position of
  `proxied_url`/`proxied_link` in the returned dict is not modelled.

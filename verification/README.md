# Spotify DJ monitor — a Dafny model

The system is a mitmproxy addon, `SpotifyDJMonitor`. It watches the traffic passing through
the proxy and picks out flows that go to Spotify hosts. For each such flow it decides whether
the flow looks related to Spotify's DJ feature, using keywords and endpoint fragments in the URL
or keywords in the request body. It then prints a short report to the console:

- a tag line;
- the method and URL;
- the allow-listed request headers that are present, with an authorization value over 20
  characters cut to its first 20 plus `...`;
- for DJ-related flows, the request body, the response status and the response body; a body
  over its limit is cut and marked with an ellipsis.

This project models that decision and reporting logic as pure functions over plain values and
proves its properties.

- `wrappers.dfy` (`Wrappers`): `Option`, used for a decode or parse step that may fail.
- `text.dfy` (`Text`): the string operations the addon relies on:
  - ASCII `str.lower` and `str.title`;
  - Python's substring test `needle in hay`;
  - `any(...)` over a list of needles;
  - cutting with an ellipsis marker;
  - `str(n)` for a non-negative integer.
- `flows.dfy` (`Flows`): the request and response data the addon reads, handed over as values.
  - A body is a `Payload`: the length of its `content` and the result of decoding it as text.
    `None` means decoding raised.
  - Headers are a map keyed by lower-case name.
- `classifier.dfy` (`Classifier`): the three configured lists, `is_spotify_request` and
  `is_dj_related`.
- `reporter.dfy` (`Reporter`): `log_request` and the `request` and `response` hooks. Each
  returns one element per `print` call, as a `seq<string>`. The tag line's element starts with
  a line break, as the printed text does.

Three details of the code that the model keeps:

- The response hook also requires a Spotify host before it tests for DJ relevance
  (spotify_dj_monitor.py:112).
- The 200-character limit also applies when the content type is JSON but the decoded text is
  empty (spotify_dj_monitor.py:122, 130-131).
- `log_request` prints no body line when the decoded request text is empty
  (spotify_dj_monitor.py:97).

## Model

| member | source | states |
|---|---|---|
| Text.Lower | spotify_dj_monitor.py:49 | lower-casing keeps the length, maps each upper-case ASCII letter to its lower-case form, and keeps every other character |
| Text.LowerIgnoresCase | spotify_dj_monitor.py:49 | two strings that differ only in the case of ASCII letters lower-case to the same string |
| Text.Title | spotify_dj_monitor.py:91 | `title()` keeps the length and the letters up to case, and upper-cases exactly the letters that start a run of letters |
| Text.ContainsIffOccurs | spotify_dj_monitor.py:49 | the substring test holds exactly when the needle occurs at some index of the string (so the empty needle is in every string) |
| Text.ContainsInSuperstring | spotify_dj_monitor.py:49 | a substring of a string is a substring of every string that embeds it |
| Text.AnyContainsIff | spotify_dj_monitor.py:49 | `any(n in s for n in list)` holds exactly when some listed needle is a substring of `s` |
| Text.AnyContainsMonotone | spotify_dj_monitor.py:55-66 | adding needles to a list never turns a match into a miss |
| Text.Ellipsize | spotify_dj_monitor.py:98 | the cut text is at most N+3 long, starts with `s[:min(N,len(s))]`, equals `s` when `len(s) <= N`, and otherwise is exactly N characters of `s` followed by `...` |
| Text.NatToDecimal | spotify_dj_monitor.py:100 | a formatted count is a non-empty string of decimal digits with no leading zero |
| Text.DecimalRoundTrip | spotify_dj_monitor.py:100 | reading a formatted count back as decimal gives the count |
| Classifier.MonitorConfigLists | spotify_dj_monitor.py:15-45 | the configured lists hold 11 hosts, 15 keywords and 8 endpoint fragments, none with an upper-case letter; a request to any configured host is a Spotify request |
| Classifier.IsSpotifyRequestIff | spotify_dj_monitor.py:47-49 | a flow is a Spotify request exactly when some configured host is a substring of the lower-cased request host |
| Classifier.HostSuperstringMatches | spotify_dj_monitor.py:49 | a host that embeds a matching host (a subdomain or prefixed name) also matches |
| Classifier.HostCaseInsensitive | spotify_dj_monitor.py:49 | hosts that differ only in ASCII case are classified the same |
| Classifier.UpperCaseHostNeverMatches | spotify_dj_monitor.py:15-27 | a configured host with an upper-case letter can never match, because it is compared with a lower-cased host |
| Classifier.IsDjRelatedIff | spotify_dj_monitor.py:51-71 | DJ-related exactly when a keyword or endpoint is in the lower-cased URL, or a keyword is in the lower-cased text of a non-empty body that decodes |
| Classifier.UrlMatchIgnoresBody | spotify_dj_monitor.py:54-60 | a keyword or endpoint in the URL makes the flow DJ-related whatever its body |
| Classifier.UnusableBodyFallsBackToUrl | spotify_dj_monitor.py:62-71 | with an empty body or one that fails to decode, the result is the URL-only test, with no error |
| Classifier.ClassificationMonotone | spotify_dj_monitor.py:47-71 | extending the host, keyword or endpoint lists never turns either classification from true to false |
| Classifier.QueueUrlIsDjRelated | spotify_dj_monitor.py:29-34 | with the configured keywords, the URL `https://api.example.com/v1/queue/next` is DJ-related |
| Reporter.EllipsizeElides | spotify_dj_monitor.py:98 | a cut text is the original or a proper prefix of it followed by `...`, never altered text |
| Reporter.TagLine | spotify_dj_monitor.py:79-80 | the tag line is exactly the bracketed timestamp, a space and the tag: it starts with the bracketed timestamp, has the combined length, and ends in `DJ RELATED` exactly when the flow is DJ-related, and in `Spotify` exactly when it is not |
| Reporter.ShownHeaderValue | spotify_dj_monitor.py:88-90 | an authorization value over 20 characters becomes its first 20 characters plus `...` (length 23); shorter values and other headers are unchanged |
| Reporter.HeaderLinesLayout | spotify_dj_monitor.py:84-91 | header lines: one per allow-listed header that is present and none for an absent one; each header's line follows those of the present headers listed before it |
| Reporter.AllowedHeaderTitles | spotify_dj_monitor.py:84-91 | the allow-listed names are shown as `Authorization`, `X-Spotify-Token` and `User-Agent` |
| Reporter.AuthorizationRedacted | spotify_dj_monitor.py:88-90 | two long credentials that share their first 20 characters give the same report line, so the rest of the credential never appears |
| Reporter.ThirtyCharacterAuthorization | spotify_dj_monitor.py:90 | a 30-character credential is shown as its first 20 characters followed by `...` |
| Reporter.BinaryPlaceholder | spotify_dj_monitor.py:100 | the placeholder for an undecodable body is `<binary data, N bytes>`, where the digits between the fixed parts read back as the length of `content` |
| Reporter.HeaderLine | spotify_dj_monitor.py:91 | a header line is two spaces, then `Title(name)` (the name as `str.title()` spells it), then `: `, then the value as shown |
| Reporter.RequestBodyLines | spotify_dj_monitor.py:93-100 | there is at most one body line, present exactly for a DJ-related flow with a non-empty body whose text is not empty; it holds the placeholder on a decode failure, otherwise the text cut at 200 |
| Reporter.LogRequest | spotify_dj_monitor.py:73-100 | the report holds, in order: the tag line, the method-and-URL line, the header lines, then the body lines |
| Reporter.RequestHook | spotify_dj_monitor.py:102-108 | nothing is printed for a non-Spotify host; otherwise the output is exactly the request report for the flow's DJ classification, so the tag says DJ RELATED exactly when the flow is DJ-related, and a body line appears only in that case |
| Reporter.RequestHookRedactsCredential | spotify_dj_monitor.py:84-108 | when the hook reports a request with an authorization value over 20 characters, the first header line shows only `Authorization: ` plus its first 20 characters and `...` |
| Reporter.AuthorizationLine | spotify_dj_monitor.py:88-91 | the header line for an authorization value over 20 characters is exactly `  Authorization: ` followed by its first 20 characters and `...` |
| Flows.HeaderOr | spotify_dj_monitor.py:122 | `headers.get(name, default)` gives the header's value when present and the default otherwise |
| Reporter.IsJsonContentType | spotify_dj_monitor.py:122 | the body counts as JSON exactly when a content-type header is present and starts with `application/json`, compared case-sensitively |
| Reporter.ResponseBodyText | spotify_dj_monitor.py:119-133 | body limits: 500 for JSON that re-serialises, 300 when JSON parsing fails, 200 for non-JSON or empty text; the byte-count placeholder on a decode failure |
| Reporter.ResponseBodyBounded | spotify_dj_monitor.py:119-133 | a decoded response body is shown at no more than 503 characters, as a cut of its own text or of its pretty-printed form |
| Reporter.LongJsonBodyLimits | spotify_dj_monitor.py:122-131 | a 1000-character JSON body whose pretty-printed form is over 500 characters shows 500 of those characters plus `...` under a JSON content type, and 200 raw characters plus `...` under any other |
| Reporter.ResponseHook | spotify_dj_monitor.py:110-133 | the response hook prints nothing unless the flow is Spotify and DJ-related; then it prints the status line, and a body line exactly when the response has content |

## Left out

- The proxy's flow object: `pretty_host`, `pretty_url`, the method and the headers arrive as
  plain values. How the proxy derives them is not modelled.
- Case-insensitive header lookup: headers are a map keyed by lower-case name.
- Body decoding (`get_text`): it is the `text` field of a `Payload`, with `None` for a decode
  that raises. Byte decoding itself is not modelled.
- JSON handling: `json.loads` followed by `json.dumps(indent=2)` is a parameter
  `pretty: string -> Option<string>`, with `None` for a parse failure. JSON parsing belongs to a
  library outside this code.
- Text.Lower: models Python's `str.lower` on ASCII letters only. Full Unicode case mapping is
  library behaviour.
- Text.Title: models `str.title` on ASCII letters only.
- Console output: each `print` call becomes one element of a returned sequence.
- Timestamps: `datetime.now()` becomes a `timestamp` parameter.
- Emoji: the emoji in the tag lines are left out. The tags are `DJ RELATED` and `Spotify`.
- Registration: the module-level `addons` list is host plumbing and is not modelled.
- Status codes: a status code is a natural number.
- Concurrency: the addon has none of its own.

/** What the monitor reports for a flow. The text of every `print` call
    becomes one element of the returned sequence (so an element may start
    with a line break); the wall-clock timestamp is a parameter. */
module Reporter {
  import opened Wrappers
  import opened Text
  import opened Flows
  import opened Classifier

  /** Tags that open a request report. */
  const DjTag: string := "DJ RELATED"
  const ServiceTag: string := "Spotify"

  /** The request headers a report shows, in the order it shows them. */
  const AuthorizationHeader: string := "authorization"
  const AllowedHeaders: seq<string> := [AuthorizationHeader, "x-spotify-token", "user-agent"]

  /** How many characters of a credential or a body a report keeps. */
  const AuthorizationLimit: nat := 20
  const RequestBodyLimit: nat := 200
  const JsonBodyLimit: nat := 500
  const RawJsonBodyLimit: nat := 300
  const PlainBodyLimit: nat := 200

  const RequestBodyLabel: string := "  Request Body: "
  const ResponseBodyLabel: string := "  Response Body: "
  const StatusLabel: string := "  Response: "
  const JsonMediaType: string := "application/json"

  predicate EndsWith(s: string, t: string)
  {
    |t| <= |s| && s[|s| - |t|..] == t
  }

  /** `r` is `s` itself, or a proper prefix of `s` followed by the ellipsis:
      text that was shortened but never altered or invented. */
  predicate ElidedFrom(r: string, s: string)
  {
    || r == s
    || (|Ellipsis| <= |r| && |r| - |Ellipsis| < |s|
        && EndsWith(r, Ellipsis) && IsPrefix(r[..|r| - |Ellipsis|], s))
  }

  lemma EllipsizeElides(s: string, n: nat)
    ensures ElidedFrom(Ellipsize(s, n), s)
  {
  }

  /* ---------------------------------------------------------------------- */
  /* Request report                                                          */
  /* ---------------------------------------------------------------------- */

  /** The opening line of a request report: timestamp, then the tag. */
  function TagLine(timestamp: string, isDj: bool): (r: string)
    ensures |r| == 4 + |timestamp| + |if isDj then DjTag else ServiceTag|
    ensures IsPrefix("\n[" + timestamp + "] ", r)
    ensures EndsWith(r, DjTag) <==> isDj
    ensures EndsWith(r, ServiceTag) <==> !isDj
  {
    var r := "\n[" + timestamp + "] " + (if isDj then DjTag else ServiceTag);
    assert r[|r| - 1] == (if isDj then 'D' else 'y');
    r
  }

  /** The value a report shows for an allow-listed header that is present:
      an authorization value over 20 characters is cut to its first 20 plus
      the ellipsis; every other value is shown whole. */
  function ShownHeaderValue(name: string, value: string): (r: string)
    ensures name != AuthorizationHeader ==> r == value
    ensures name == AuthorizationHeader && |value| <= AuthorizationLimit ==> r == value
    ensures name == AuthorizationHeader && |value| > AuthorizationLimit ==>
      && |r| == AuthorizationLimit + |Ellipsis|
      && r[..AuthorizationLimit] == value[..AuthorizationLimit]
      && r[AuthorizationLimit..] == Ellipsis
  {
    if name == AuthorizationHeader && value != "" then Ellipsize(value, AuthorizationLimit) else value
  }

  /** The four parts of a concatenation are its slices at the running sums
      of their lengths. */
  lemma ConcatSlices(a: string, b: string, c: string, d: string)
    ensures var r := a + b + c + d;
      && r[..|a|] == a
      && r[|a|..|a| + |b|] == b
      && r[|a| + |b|..|a| + |b| + |c|] == c
      && r[|a| + |b| + |c|..] == d
  {
  }

  /** `f"  {header.title()}: {value}"`: two spaces, the title-cased name,
      a colon and a space, then the value as shown. */
  function HeaderLine(name: string, value: string): (r: string)
    ensures |r| == 4 + |name| + |ShownHeaderValue(name, value)|
    ensures r[..2] == "  " && r[2 + |name|..4 + |name|] == ": "
    ensures r[2..2 + |name|] == Title(name)
    // Implied by the clause above and `Title`'s contract; stated so that
    // callers see directly that the shown name is the name up to case.
    ensures Lower(r[2..2 + |name|]) == Lower(name)
    ensures r[4 + |name|..] == ShownHeaderValue(name, value)
  {
    var title := Title(name);
    var shown := ShownHeaderValue(name, value);
    var r := "  " + title + ": " + shown;
    ConcatSlices("  ", title, ": ", shown);
    r
  }

  /** One line per listed header that is present, in list order. */
  function HeaderLines(names: seq<string>, headers: Headers): seq<string>
    decreases |names|
  {
    if |names| == 0 then []
    else
      (if names[0] in headers then [HeaderLine(names[0], headers[names[0]])] else [])
      + HeaderLines(names[1..], headers)
  }

  /** How many of `names` are present in `headers`, counted from the back. */
  function CountPresent(names: seq<string>, headers: Headers): nat
    decreases |names|
  {
    if |names| == 0 then 0
    else CountPresent(names[..|names| - 1], headers) + (if names[|names| - 1] in headers then 1 else 0)
  }

  lemma {:induction false} CountPresentCons(names: seq<string>, headers: Headers)
    requires |names| > 0
    ensures CountPresent(names, headers) ==
      (if names[0] in headers then 1 else 0) + CountPresent(names[1..], headers)
    decreases |names|
  {
    if |names| > 1 {
      var init := names[..|names| - 1];
      CountPresentCons(init, headers);
      assert init[1..] == names[1..][..|names[1..]| - 1];
    } else {
      assert names[..|names| - 1] == [];
      assert names[1..] == [];
    }
  }

  /** The header lines hold exactly one line per present header, and the
      line of the j-th listed header comes after those of the present
      headers listed before it. */
  lemma {:induction false} HeaderLinesLayout(names: seq<string>, headers: Headers)
    ensures |HeaderLines(names, headers)| == CountPresent(names, headers)
    ensures forall j :: 0 <= j < |names| && names[j] in headers ==>
      && CountPresent(names[..j], headers) < |HeaderLines(names, headers)|
      && HeaderLines(names, headers)[CountPresent(names[..j], headers)] == HeaderLine(names[j], headers[names[j]])
    decreases |names|
  {
    if |names| > 0 {
      var rest := names[1..];
      HeaderLinesLayout(rest, headers);
      CountPresentCons(names, headers);
      var lines := HeaderLines(names, headers);
      var first: seq<string> := if names[0] in headers then [HeaderLine(names[0], headers[names[0]])] else [];
      assert lines == first + HeaderLines(rest, headers);
      forall j | 0 <= j < |names| && names[j] in headers
        ensures CountPresent(names[..j], headers) < |lines|
        ensures lines[CountPresent(names[..j], headers)] == HeaderLine(names[j], headers[names[j]])
      {
        if j == 0 {
          assert names[..0] == [];
        } else {
          CountPresentCons(names[..j], headers);
          assert names[..j][1..] == rest[..j - 1];
          assert rest[j - 1] == names[j];
        }
      }
    }
  }

  /** The allow-listed names are shown as `str.title()` spells them. */
  lemma AllowedHeaderTitles()
    ensures Title(AllowedHeaders[0]) == "Authorization"
    ensures Title(AllowedHeaders[1]) == "X-Spotify-Token"
    ensures Title(AllowedHeaders[2]) == "User-Agent"
  {
    TitleOfName("authorization", "Authorization");
    TitleOfName("x-spotify-token", "X-Spotify-Token");
    TitleOfName("user-agent", "User-Agent");
  }

  /** `Title(name)` is `expected` when the two agree character by character. */
  lemma TitleOfName(name: string, expected: string)
    requires |name| == |expected|
    requires forall i :: 0 <= i < |name| ==>
      expected[i] == if StartsWord(name, i) then UpperChar(name[i]) else LowerChar(name[i])
    ensures Title(name) == expected
  {
  }

  /** Two authorization values longer than the limit that share their first
      20 characters produce the same header line: the rest of the credential
      never reaches the report. */
  lemma AuthorizationRedacted(a: string, b: string)
    requires |a| > AuthorizationLimit && |b| > AuthorizationLimit
    requires a[..AuthorizationLimit] == b[..AuthorizationLimit]
    ensures HeaderLine(AuthorizationHeader, a) == HeaderLine(AuthorizationHeader, b)
  {
  }

  /** A 30-character credential is shown as its first 20 characters and the
      ellipsis. */
  lemma ThirtyCharacterAuthorization(value: string)
    requires |value| == 30
    ensures ShownHeaderValue(AuthorizationHeader, value) == value[..20] + Ellipsis
  {
  }

  /** `<binary data, N bytes>` for a body that does not decode, N being the
      length of its content. */
  function BinaryPlaceholder(size: nat): (r: string)
    ensures IsPrefix("<binary data, ", r) && EndsWith(r, " bytes>")
    ensures 14 + 7 < |r|
    ensures r[14..|r| - 7] == NatToDecimal(size)
    ensures AllDigits(r[14..|r| - 7]) && DecimalValue(r[14..|r| - 7]) == size
  {
    var digits := NatToDecimal(size);
    var r := "<binary data, " + digits + " bytes>";
    assert r[..14] == "<binary data, ";
    assert r[14..|r| - 7] == digits;
    DecimalRoundTrip(size);
    r
  }

  /** The request-body line, present only for a DJ-related flow with a
      non-empty body whose text is not empty. */
  function RequestBodyLines(body: Payload, isDj: bool): (r: seq<string>)
    ensures |r| <= 1
    ensures |r| == 1 <==> isDj && body.size > 0 && body.text != Some("")
    ensures |r| == 1 && body.text.None? ==> r[0] == RequestBodyLabel + BinaryPlaceholder(body.size)
    ensures |r| == 1 && body.text.Some? ==>
      && r[0] == RequestBodyLabel + Ellipsize(body.text.value, RequestBodyLimit)
      && IsPrefix(RequestBodyLabel, r[0])
      && ElidedFrom(r[0][|RequestBodyLabel|..], body.text.value)
      && |r[0]| <= |RequestBodyLabel| + RequestBodyLimit + |Ellipsis|
  {
    if isDj && body.size > 0 then
      match body.text
      case Some(content) =>
        if content != "" then
          var line := RequestBodyLabel + Ellipsize(content, RequestBodyLimit);
          assert line[|RequestBodyLabel|..] == Ellipsize(content, RequestBodyLimit);
          EllipsizeElides(content, RequestBodyLimit);
          [line]
        else []
      case None => [RequestBodyLabel + BinaryPlaceholder(body.size)]
    else []
  }

  /** `log_request`: tag line, method and URL, allow-listed headers, and
      for a DJ-related flow the request body. */
  function LogRequest(req: Request, isDj: bool, timestamp: string): (r: seq<string>)
    ensures |r| == 2 + CountPresent(AllowedHeaders, req.headers) + |RequestBodyLines(req.body, isDj)|
    ensures r[0] == TagLine(timestamp, isDj)
    ensures r[1] == "  " + req.verb + " " + req.url
    ensures r[2..2 + CountPresent(AllowedHeaders, req.headers)] == HeaderLines(AllowedHeaders, req.headers)
    ensures r[2 + CountPresent(AllowedHeaders, req.headers)..] == RequestBodyLines(req.body, isDj)
  {
    HeaderLinesLayout(AllowedHeaders, req.headers);
    [TagLine(timestamp, isDj), "  " + req.verb + " " + req.url]
      + HeaderLines(AllowedHeaders, req.headers)
      + RequestBodyLines(req.body, isDj)
  }

  /** The `request` hook: nothing for a flow to another host; otherwise the
      request report, tagged DJ RELATED exactly when the flow is DJ-related,
      with the body shown only then. */
  function RequestHook(cfg: MatchConfig, req: Request, timestamp: string): (r: seq<string>)
    ensures !IsSpotifyRequest(cfg, req) ==> r == []
    ensures IsSpotifyRequest(cfg, req) ==> r == LogRequest(req, IsDjRelated(cfg, req), timestamp)
    ensures IsSpotifyRequest(cfg, req) ==>
      && 2 <= |r|
      && (EndsWith(r[0], DjTag) <==> IsDjRelated(cfg, req))
      && (EndsWith(r[0], ServiceTag) <==> !IsDjRelated(cfg, req))
      && r[1] == "  " + req.verb + " " + req.url
    ensures |r| > 2 + CountPresent(AllowedHeaders, req.headers) ==> IsDjRelated(cfg, req)
    ensures IsSpotifyRequest(cfg, req) && IsDjRelated(cfg, req) && req.body.size > 0 && req.body.text != Some("") ==>
      |r| == 3 + CountPresent(AllowedHeaders, req.headers) && IsPrefix(RequestBodyLabel, r[|r| - 1])
  {
    if !IsSpotifyRequest(cfg, req) then []
    else LogRequest(req, IsDjRelated(cfg, req), timestamp)
  }

  /** A long authorization value reaches the request hook's output only as
      its first 20 characters and the ellipsis: it is the first header line,
      right after the method line. */
  lemma RequestHookRedactsCredential(cfg: MatchConfig, req: Request, timestamp: string)
    requires IsSpotifyRequest(cfg, req)
    requires AuthorizationHeader in req.headers
    requires |req.headers[AuthorizationHeader]| > AuthorizationLimit
    ensures var r := RequestHook(cfg, req, timestamp);
      && 2 < |r|
      && r[2] == "  Authorization: " + req.headers[AuthorizationHeader][..AuthorizationLimit] + Ellipsis
  {
    var r := RequestHook(cfg, req, timestamp);
    var value := req.headers[AuthorizationHeader];
    var lines := HeaderLines(AllowedHeaders, req.headers);
    var count := CountPresent(AllowedHeaders, req.headers);
    HeaderLinesLayout(AllowedHeaders, req.headers);
    assert AllowedHeaders[..0] == [];
    assert 0 < count && lines[0] == HeaderLine(AuthorizationHeader, value);
    assert r[2..2 + count] == lines;
    AuthorizationLine(value);
  }

  /** The header line of an authorization value over 20 characters. */
  lemma AuthorizationLine(value: string)
    requires |value| > AuthorizationLimit
    ensures HeaderLine(AuthorizationHeader, value) == "  Authorization: " + value[..AuthorizationLimit] + Ellipsis
  {
    AllowedHeaderTitles();
    var title := Title(AuthorizationHeader);
    var shown := ShownHeaderValue(AuthorizationHeader, value);
    assert title == "Authorization";
    assert shown == value[..AuthorizationLimit] + Ellipsis;
    assert HeaderLine(AuthorizationHeader, value) == "  " + title + ": " + shown;
    AuthorizationPrefix();
    var prefix := "  Authorization: ";
    assert prefix + shown == prefix + value[..AuthorizationLimit] + Ellipsis;
  }

  /** The fixed text in front of a shown authorization value. */
  lemma AuthorizationPrefix()
    ensures "  " + "Authorization" + ": " == "  Authorization: "
  {
  }

  /* ---------------------------------------------------------------------- */
  /* Response report                                                         */
  /* ---------------------------------------------------------------------- */

  /** `headers.get("content-type", "").startswith("application/json")`: a
      missing content type is not JSON, and the media type is compared with
      its case as written. */
  function IsJsonContentType(headers: Headers): (b: bool)
    ensures b <==> "content-type" in headers && IsPrefix(JsonMediaType, headers["content-type"])
  {
    IsPrefix(JsonMediaType, HeaderOr(headers, "content-type", ""))
  }

  /** The text shown after the response-body label. `pretty` stands for
      parsing the text as JSON and re-serialising it with indentation; None
      means the text did not parse. */
  function ResponseBodyText(body: Payload, headers: Headers, pretty: string -> Option<string>): (r: string)
    ensures body.text.None? ==> r == BinaryPlaceholder(body.size)
    ensures body.text.Some? && body.text.value != "" && IsJsonContentType(headers) && pretty(body.text.value).Some? ==>
      r == Ellipsize(pretty(body.text.value).value, JsonBodyLimit)
    ensures body.text.Some? && body.text.value != "" && IsJsonContentType(headers) && pretty(body.text.value).None? ==>
      r == Ellipsize(body.text.value, RawJsonBodyLimit)
    ensures body.text.Some? && (body.text.value == "" || !IsJsonContentType(headers)) ==>
      r == Ellipsize(body.text.value, PlainBodyLimit)
  {
    match body.text
    case None => BinaryPlaceholder(body.size)
    case Some(content) =>
      if content != "" && IsJsonContentType(headers) then
        match pretty(content)
        case Some(json) => Ellipsize(json, JsonBodyLimit)
        case None => Ellipsize(content, RawJsonBodyLimit)
      else Ellipsize(content, PlainBodyLimit)
  }

  /** A decoded response body is shown shortened but never altered: as a
      piece of its own text or of its pretty-printed form, and never longer
      than the JSON limit plus the ellipsis. */
  lemma ResponseBodyBounded(body: Payload, headers: Headers, pretty: string -> Option<string>)
    requires body.text.Some?
    ensures |ResponseBodyText(body, headers, pretty)| <= JsonBodyLimit + |Ellipsis|
    ensures var r := ResponseBodyText(body, headers, pretty);
      || ElidedFrom(r, body.text.value)
      || (pretty(body.text.value).Some? && ElidedFrom(r, pretty(body.text.value).value))
  {
    var content := body.text.value;
    EllipsizeElides(content, RawJsonBodyLimit);
    EllipsizeElides(content, PlainBodyLimit);
    if pretty(content).Some? {
      EllipsizeElides(pretty(content).value, JsonBodyLimit);
    }
  }

  /** A long JSON body is shown as 500 characters of its pretty form plus
      the ellipsis under a JSON content type, and as 200 characters of its
      raw text plus the ellipsis under any other. */
  lemma LongJsonBodyLimits(text: string, headers: Headers, pretty: string -> Option<string>, size: nat)
    requires |text| == 1000
    requires pretty(text).Some? && |pretty(text).value| > JsonBodyLimit
    ensures IsJsonContentType(headers) ==>
      ResponseBodyText(Payload(size, Some(text)), headers, pretty) == pretty(text).value[..500] + Ellipsis
    ensures !IsJsonContentType(headers) ==>
      ResponseBodyText(Payload(size, Some(text)), headers, pretty) == text[..200] + Ellipsis
  {
  }

  /** The `response` hook: nothing unless the flow goes to a Spotify host
      and is DJ-related; then the status line and, when the response has a
      body, one body line. */
  function ResponseHook(cfg: MatchConfig, req: Request, resp: Response, pretty: string -> Option<string>): (r: seq<string>)
    ensures r == [] <==> !(IsSpotifyRequest(cfg, req) && IsDjRelated(cfg, req))
    ensures r != [] ==> r[0] == StatusLabel + NatToDecimal(resp.status)
    ensures r != [] ==> (|r| == 2 <==> resp.body.size > 0) && |r| <= 2
    ensures |r| == 2 ==> r[1] == ResponseBodyLabel + ResponseBodyText(resp.body, resp.headers, pretty)
  {
    if !IsSpotifyRequest(cfg, req) then []
    else if IsDjRelated(cfg, req) then
      [StatusLabel + NatToDecimal(resp.status)]
        + (if resp.body.size > 0 then [ResponseBodyLabel + ResponseBodyText(resp.body, resp.headers, pretty)] else [])
    else []
  }
}

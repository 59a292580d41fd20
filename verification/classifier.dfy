/** The two decisions the monitor takes about every flow: does it go to a
    Spotify host, and does it look related to the DJ feature. */
module Classifier {
  import opened Wrappers
  import opened Text
  import opened Flows

  /** The static lists the monitor matches against. */
  datatype MatchConfig = MatchConfig(
    hosts: seq<string>,
    keywords: seq<string>,
    endpoints: seq<string>)

  /** The lists the monitor is constructed with. */
  const MonitorConfig: MatchConfig := MatchConfig(
    [ "api.spotify.com",
      "spclient.wg.spotify.com",
      "gew1-spclient.spotify.com",
      "guc3-spclient.spotify.com",
      "gae2-spclient.spotify.com",
      "open.spotify.com",
      "accounts.spotify.com",
      "audio-fa.scdn.co",
      "audio-fad.scdn.co",
      "dealer.spotify.com",
      "apresolve.spotify.com" ],
    [ "dj", "queue", "mix", "playlist", "radio",
      "shuffle", "crossfade", "transition", "fade",
      "autoplay", "smart_shuffle", "enhance",
      "recommendations", "seed", "blend" ],
    [ "/v1/me/player",
      "/connect-state",
      "/queue",
      "/recommendations",
      "/radio",
      "/enhance",
      "/dj",
      "/smart-shuffle" ])

  /** A string without upper-case letters is its own lower-cased form. */
  lemma LowerOfUncased(s: string)
    requires forall i :: 0 <= i < |s| ==> !IsUpper(s[i])
    ensures Lower(s) == s
  {
  }

  /** Every entry of `list` is written without upper-case letters. */
  predicate Uncased(list: seq<string>)
  {
    forall s :: s in list ==> Lower(s) == s
  }

  /** No configured host has an upper-case letter. The hosts are checked in
      three blocks, each a proof of its own, to keep every step small. */
  lemma HostsUncased()
    ensures Uncased(MonitorConfig.hosts)
  {
    FirstHostsUncased();
    MiddleHostsUncased();
    LastHostsUncased();
  }

  lemma FirstHostsUncased()
    ensures forall i :: 0 <= i < 4 ==> Lower(MonitorConfig.hosts[i]) == MonitorConfig.hosts[i]
  {
    forall i | 0 <= i < 4 { LowerOfUncased(MonitorConfig.hosts[i]); }
  }

  lemma MiddleHostsUncased()
    ensures forall i :: 4 <= i < 8 ==> Lower(MonitorConfig.hosts[i]) == MonitorConfig.hosts[i]
  {
    forall i | 4 <= i < 8 { LowerOfUncased(MonitorConfig.hosts[i]); }
  }

  lemma LastHostsUncased()
    ensures forall i :: 8 <= i < 11 ==> Lower(MonitorConfig.hosts[i]) == MonitorConfig.hosts[i]
  {
    forall i | 8 <= i < 11 { LowerOfUncased(MonitorConfig.hosts[i]); }
  }

  lemma KeywordsUncased()
    ensures Uncased(MonitorConfig.keywords)
  {
    var list := MonitorConfig.keywords;
    forall i | 0 <= i < |list| { LowerOfUncased(list[i]); }
  }

  lemma EndpointsUncased()
    ensures Uncased(MonitorConfig.endpoints)
  {
    var list := MonitorConfig.endpoints;
    forall i | 0 <= i < |list| { LowerOfUncased(list[i]); }
  }

  /** The configured lists have 11 hosts, 15 keywords and 8 endpoint
      fragments, all written without upper-case letters, so that each can
      match the lower-cased host, URL or body it is compared with; in
      particular a request to any configured host is a Spotify request. */
  lemma MonitorConfigLists(req: Request)
    ensures |MonitorConfig.hosts| == 11
    ensures |MonitorConfig.keywords| == 15
    ensures |MonitorConfig.endpoints| == 8
    ensures Uncased(MonitorConfig.hosts) && Uncased(MonitorConfig.keywords) && Uncased(MonitorConfig.endpoints)
    ensures req.host in MonitorConfig.hosts ==> IsSpotifyRequest(MonitorConfig, req)
  {
    HostsUncased();
    KeywordsUncased();
    EndpointsUncased();
    if req.host in MonitorConfig.hosts {
      var h := req.host;
      assert Lower(h) == h;
      assert IsPrefix(h, Lower(h));
      AnyContainsIff(Lower(h), MonitorConfig.hosts);
    }
  }

  /** `cfg'` lists at least every entry `cfg` lists. */
  predicate Extends(cfg: MatchConfig, cfg': MatchConfig)
  {
    && (forall h :: h in cfg.hosts ==> h in cfg'.hosts)
    && (forall k :: k in cfg.keywords ==> k in cfg'.keywords)
    && (forall e :: e in cfg.endpoints ==> e in cfg'.endpoints)
  }

  /* ---------------------------------------------------------------------- */
  /* Host classifier                                                         */
  /* ---------------------------------------------------------------------- */

  /** Some configured host is a substring of the lower-cased request host. */
  predicate IsSpotifyRequest(cfg: MatchConfig, req: Request)
  {
    AnyContains(Lower(req.host), cfg.hosts)
  }

  lemma IsSpotifyRequestIff(cfg: MatchConfig, req: Request)
    ensures IsSpotifyRequest(cfg, req) <==> exists h :: h in cfg.hosts && Contains(Lower(req.host), h)
  {
    AnyContainsIff(Lower(req.host), cfg.hosts);
  }

  /** Substring semantics: a host that embeds a matching host matches too
      (a subdomain, a region-sharded name, ...). */
  lemma HostSuperstringMatches(cfg: MatchConfig, req: Request, pre: string, post: string)
    requires IsSpotifyRequest(cfg, req)
    ensures IsSpotifyRequest(cfg, req.(host := pre + req.host + post))
  {
    LowerConcat(pre, req.host);
    LowerConcat(pre + req.host, post);
    AnyContainsInSuperstring(Lower(req.host), cfg.hosts, Lower(pre), Lower(post));
  }

  /** The host classification ignores the case of ASCII letters in the host. */
  lemma HostCaseInsensitive(cfg: MatchConfig, a: Request, b: Request)
    requires SameIgnoringCase(a.host, b.host)
    ensures IsSpotifyRequest(cfg, a) <==> IsSpotifyRequest(cfg, b)
  {
    LowerIgnoresCase(a.host, b.host);
  }

  /** A configured host written with an upper-case letter can never match,
      since it is compared with the lower-cased host. */
  lemma UpperCaseHostNeverMatches(hay: string, h: string)
    requires exists i :: 0 <= i < |h| && IsUpper(h[i])
    ensures !Contains(Lower(hay), h)
  {
    var i :| 0 <= i < |h| && IsUpper(h[i]);
    forall j | OccursAt(Lower(hay), h, j)
      ensures false
    {
    }
    ContainsIffOccurs(Lower(hay), h);
  }

  /* ---------------------------------------------------------------------- */
  /* Interest classifier                                                     */
  /* ---------------------------------------------------------------------- */

  /** The URL part of the interest check: a keyword or an endpoint fragment
      in the lower-cased URL. */
  predicate UrlMatches(cfg: MatchConfig, url: string)
  {
    AnyContains(Lower(url), cfg.keywords) || AnyContains(Lower(url), cfg.endpoints)
  }

  /** The interest check in the order the monitor runs it: keywords in the
      URL, endpoints in the URL, then keywords in the decoded body when there
      is a body. A body that fails to decode is a miss, never an error. */
  predicate IsDjRelated(cfg: MatchConfig, req: Request)
  {
    if UrlMatches(cfg, req.url) then true
    else if req.body.size > 0 then
      match req.body.text
      case Some(content) => AnyContains(Lower(content), cfg.keywords)
      case None => false
    else false
  }

  /** The interest check holds exactly when some keyword or endpoint is in
      the lower-cased URL, or some keyword is in the lower-cased text of a
      non-empty body that decodes. */
  lemma IsDjRelatedIff(cfg: MatchConfig, req: Request)
    ensures IsDjRelated(cfg, req) <==>
      || (exists k :: k in cfg.keywords && Contains(Lower(req.url), k))
      || (exists e :: e in cfg.endpoints && Contains(Lower(req.url), e))
      || (req.body.size > 0 && req.body.text.Some? &&
          exists k :: k in cfg.keywords && Contains(Lower(req.body.text.value), k))
  {
    AnyContainsIff(Lower(req.url), cfg.keywords);
    AnyContainsIff(Lower(req.url), cfg.endpoints);
    if req.body.text.Some? {
      AnyContainsIff(Lower(req.body.text.value), cfg.keywords);
    }
  }

  /** A URL match decides the flow DJ-related whatever the body is. */
  lemma UrlMatchIgnoresBody(cfg: MatchConfig, req: Request, body: Payload)
    requires UrlMatches(cfg, req.url)
    ensures IsDjRelated(cfg, req)
    ensures IsDjRelated(cfg, req.(body := body))
  {
  }

  /** With an empty body, or one that does not decode, only the URL counts. */
  lemma UnusableBodyFallsBackToUrl(cfg: MatchConfig, req: Request)
    requires req.body.size == 0 || req.body.text.None?
    ensures IsDjRelated(cfg, req) <==> UrlMatches(cfg, req.url)
  {
  }

  /** Adding entries to the lists never turns a positive classification
      into a negative one. */
  lemma ClassificationMonotone(cfg: MatchConfig, cfg': MatchConfig, req: Request)
    requires Extends(cfg, cfg')
    ensures IsSpotifyRequest(cfg, req) ==> IsSpotifyRequest(cfg', req)
    ensures IsDjRelated(cfg, req) ==> IsDjRelated(cfg', req)
  {
    IsSpotifyRequestIff(cfg, req);
    IsSpotifyRequestIff(cfg', req);
    IsDjRelatedIff(cfg, req);
    IsDjRelatedIff(cfg', req);
  }

  /** A queue URL on any host is DJ-related under the monitor's lists. */
  lemma QueueUrlIsDjRelated(req: Request)
    requires req.url == "https://api.example.com/v1/queue/next"
    ensures IsDjRelated(MonitorConfig, req)
  {
    var url := Lower(req.url);
    assert url[27..32] == "queue";
    assert OccursAt(url, "queue", 27);
    ContainsIffOccurs(url, "queue");
    AnyContainsIff(url, MonitorConfig.keywords);
  }
}

/**
 * The write path around the serialiser: `NewConfig`, `WriteLP` and
 * `WriteLPString`. The HTTP client, `http.NewRequest` and `os.Hostname` are
 * not part of this model: what they answer is passed in.
 */
module Writer {
  import opened Wrappers
  import opened GoFmt
  import opened LineProtocol
  import LineParse

  /** `Config`. The timeout is a `time.Duration`, a count of nanoseconds. */
  datatype Config = Config(
    bucket: string,
    host: string,
    path: string,
    org: string,
    token: string,
    userAgent: string,
    timeout: int)

  const WritePath := "/api/v2/write"
  const Second := 1_000_000_000
  const AgentPrefix := "influx2lp-"

  /**
   * `NewConfig`, given what `os.Hostname` answered: `None` when it failed,
   * otherwise the host name.
   */
  function NewConfig(hostname: Option<string>): (c: Config)
    ensures c.bucket == "" && c.host == "" && c.org == "" && c.token == ""
    ensures c.path == WritePath && c.timeout == 3 * Second
    ensures |AgentPrefix| <= |c.userAgent| && c.userAgent[..|AgentPrefix|] == AgentPrefix
    ensures c.userAgent[|AgentPrefix|..] == if hostname.Some? then hostname.value else "unknown-host"
  {
    var agent := match hostname
      case None => "influx2lp-unknown-host"
      case Some(host) => "influx2lp-" + host;
    Config("", "", WritePath, "", "", agent, 3 * Second)
  }

  /** An HTTP request as the client is handed it. */
  datatype Request = Request(verb: string, uri: string, headers: map<string, string>, body: string)

  /** What `cli.Do` gives back: an error, or a status code and the response body. */
  datatype ClientResult = TransportFailure(err: string) | Response(status: int, body: string)

  /**
   * The outside world of `WriteLPString`: `urlError` is the error
   * `http.NewRequest` reports for a URI it cannot parse, `exchange` what the
   * client answers to a request.
   */
  datatype Transport = Transport(urlError: string -> Option<string>, exchange: Request -> ClientResult)

  /** The errors the write path returns. */
  datatype Error =
    | NoBucket
    | NoOrg
    | BadRequest(reason: string)
    | TransportError(reason: string)
    | UnexpectedStatus(status: int, uri: string)

  const StatusPrefix := "expected status 204, got status "

  /** `err.Error()`; the URI in a status error is written with `%q`. */
  function Message(e: Error, widePrint: char -> bool): (r: string)
    ensures e.NoBucket? ==> r == "no bucket configured"
    ensures e.NoOrg? ==> r == "no org configured"
    ensures e.BadRequest? || e.TransportError? ==> r == e.reason
    ensures e.UnexpectedStatus? ==>
      |StatusPrefix| < |r| && r[..|StatusPrefix|] == StatusPrefix && r[|r| - 1] == ')'
  {
    match e
    case NoBucket => "no bucket configured"
    case NoOrg => "no org configured"
    case BadRequest(reason) => reason
    case TransportError(reason) => reason
    case UnexpectedStatus(status, uri) => StatusPrefix + Decimal(status) + " (uri=" + Quote(uri, widePrint) + ")"
  }

  /** The three results of `WriteLP` and `WriteLPString`: status, body and error. */
  datatype Outcome = Outcome(status: int, body: string, err: Option<Error>)

  /** The URI written to: host, path and a query naming org and bucket, nothing escaped. */
  function Uri(c: Config): (u: string)
    ensures |u| == |c.host| + |c.path| + |c.org| + |c.bucket| + 14
    ensures u[..|c.host| + |c.path|] == c.host + c.path
    ensures u[|u| - |c.bucket|..] == c.bucket
  {
    c.host + c.path + "?&org=" + c.org + "&bucket=" + c.bucket
  }

  /** The headers `WriteLPString` sets; `User-Agent` only when one is configured. */
  function Headers(c: Config): (h: map<string, string>)
    ensures h.Keys == if c.userAgent == "" then {"Authorization", "Content-Type", "Accept"}
                      else {"Authorization", "Content-Type", "Accept", "User-Agent"}
    ensures h["Authorization"] == "Token " + c.token
    ensures h["Content-Type"] == "text/plain; charset=utf-8"
    ensures h["Accept"] == "application/json"
    ensures "User-Agent" in h ==> h["User-Agent"] == c.userAgent
  {
    var fixed := map["Authorization" := "Token " + c.token,
                     "Content-Type" := "text/plain; charset=utf-8",
                     "Accept" := "application/json"];
    if c.userAgent == "" then fixed else fixed["User-Agent" := c.userAgent]
  }

  /** The request `WriteLPString` hands the client for the text `line`. */
  function Post(c: Config, line: string): (r: Request)
    ensures r.verb == "POST" && r.uri == Uri(c) && r.body == line
    ensures "Authorization" in r.headers && "Content-Type" in r.headers
    ensures TokenOf(r.headers["Authorization"]) == Some(c.token)
    ensures r.headers["Content-Type"] == "text/plain; charset=utf-8"
    ensures "User-Agent" in r.headers <==> c.userAgent != ""
  {
    TokenReadsBack(c);
    Request("POST", Uri(c), Headers(c), line)
  }

  /** The one answer that counts as a successful write: 204 No Content. */
  predicate Accepted(res: ClientResult)
  {
    res.Response? && res.status == 204
  }

  /** How the client's answer becomes the three results. */
  function Classify(uri: string, res: ClientResult): (r: Outcome)
    ensures r.err.None? <==> Accepted(res)
    ensures r.err.None? ==> r.status == 204 && r.body == ""
    ensures res.TransportFailure? ==> r == Outcome(0, "failed to write", Some(TransportError(res.err)))
    ensures res.Response? ==> r.status == res.status
    ensures res.Response? && res.status != 204 ==> r.body == res.body && r.err == Some(UnexpectedStatus(res.status, uri))
  {
    match res
    case TransportFailure(e) => Outcome(0, "failed to write", Some(TransportError(e)))
    case Response(status, body) =>
      if status != 204 then Outcome(status, body, Some(UnexpectedStatus(status, uri)))
      else Outcome(status, "", None)
  }

  /** `WriteLPString`: one POST of `line`, its answer classified. */
  function WriteLPString(t: Transport, c: Config, line: string): (r: Outcome)
    ensures t.urlError(Uri(c)).Some? ==> r == Outcome(0, "", Some(BadRequest(t.urlError(Uri(c)).value)))
    ensures r.err.None? <==> t.urlError(Uri(c)).None? && Accepted(t.exchange(Post(c, line)))
    ensures r.err.None? ==> r.status == 204 && r.body == ""
    ensures r.err.Some? && r.err.value.UnexpectedStatus? ==> r.err.value.uri == Uri(c)
    ensures t.urlError(Uri(c)).None? ==> r == Classify(Uri(c), t.exchange(Post(c, line)))
  {
    var uri := Uri(c);
    match t.urlError(uri)
    case Some(e) => Outcome(0, "", Some(BadRequest(e)))
    case None => Classify(uri, t.exchange(Post(c, line)))
  }

  /** `WriteLP`: bucket, then org, must be set; only then is the metric formatted and sent. */
  function WriteLP(t: Transport, c: Config, m: Metric, p: Printer): (r: Outcome)
    ensures c.bucket == "" ==> r == Outcome(0, "", Some(NoBucket))
    ensures c.bucket != "" && c.org == "" ==> r == Outcome(0, "", Some(NoOrg))
    ensures c.bucket != "" && c.org != "" ==> r == WriteLPString(t, c, Line(m, p))
  {
    if c.bucket == "" then Outcome(0, "", Some(NoBucket))
    else if c.org == "" then Outcome(0, "", Some(NoOrg))
    else WriteLPString(t, c, Line(m, p))
  }

  // ---------------------------------------------------------------------------
  // Properties of the write path
  // ---------------------------------------------------------------------------

  /**
   * `WriteLPString` sends exactly one request, `Post(c, line)`: two worlds
   * that agree on that URI and on the answer to that request give the same
   * results.
   */
  lemma OneRequest(t1: Transport, t2: Transport, c: Config, line: string)
    requires t1.urlError(Uri(c)) == t2.urlError(Uri(c))
    requires t1.exchange(Post(c, line)) == t2.exchange(Post(c, line))
    ensures WriteLPString(t1, c, line) == WriteLPString(t2, c, line)
  {
  }

  /** A failed check makes no request: the result is the same whatever the world answers and whatever the metric. */
  lemma ChecksSendNothing(t1: Transport, t2: Transport, c: Config, m1: Metric, m2: Metric, p1: Printer, p2: Printer)
    requires c.bucket == "" || c.org == ""
    ensures WriteLP(t1, c, m1, p1) == WriteLP(t2, c, m2, p2)
    ensures WriteLP(t1, c, m1, p1).status == 0 && WriteLP(t1, c, m1, p1).body == ""
    ensures Message(WriteLP(t1, c, m1, p1).err.value, p1.widePrint)
            == if c.bucket == "" then "no bucket configured" else "no org configured"
  {
  }

  /**
   * The status error reads back: after its fixed prefix come the status in
   * decimal and the URI quoted, each of which decodes to what was returned.
   */
  lemma StatusMessageReadsBack(status: int, uri: string, w: char -> bool)
    ensures var d := Decimal(status);
            var q := Quote(uri, w);
            Message(UnexpectedStatus(status, uri), w) == StatusPrefix + d + " (uri=" + q + ")"
            && ParseDecimal(d) == Some(status)
            && Unquote(q) == Some(uri)
  {
    DecimalRoundTrip(status);
    UnquoteQuote(uri, w);
  }

  /** The prefix of a status error names the expected status. */
  lemma StatusPrefixNames204()
    ensures StatusPrefix[16..19] == "204"
  {
  }

  /** A fresh `Config` names no bucket, so writing with it fails at the first check. */
  lemma FreshConfigNeedsBucket(hostname: Option<string>, t: Transport, m: Metric, p: Printer)
    ensures WriteLP(t, NewConfig(hostname), m, p) == Outcome(0, "", Some(NoBucket))
  {
  }

  /** A fresh `Config` always sends a `User-Agent` starting `influx2lp-`. */
  lemma FreshConfigSendsAgent(hostname: Option<string>)
    ensures var h := Headers(NewConfig(hostname));
            "User-Agent" in h && h["User-Agent"][..10] == "influx2lp-"
  {
    var c := NewConfig(hostname);
    assert c.userAgent != "";
  }

  /** The token as the server reads it from an `Authorization: Token ...` header. */
  function TokenOf(auth: string): Option<string>
  {
    if 6 <= |auth| && auth[..6] == "Token " then Some(auth[6..]) else None
  }

  lemma TokenReadsBack(c: Config)
    ensures TokenOf(Headers(c)["Authorization"]) == Some(c.token)
  {
    var auth := "Token " + c.token;
    assert auth[..6] == "Token ";
    assert auth[6..] == c.token;
  }

  // ---------------------------------------------------------------------------
  // Reading org and bucket back out of the URI
  // ---------------------------------------------------------------------------

  predicate IsAmp(c: char) { c == '&' }

  predicate IsEquals(c: char) { c == '=' }

  predicate IsQuestion(c: char) { c == '?' }

  predicate IsHash(c: char) { c == '#' }

  /** The query of a URI: after the first `?`, before the fragment's `#`. */
  function QueryOf(uri: string): string
  {
    var h := uri[..LineParse.Span(uri, IsHash)];
    var n := LineParse.Span(h, IsQuestion);
    if n < |h| then h[n + 1..] else ""
  }

  /** The value a single parameter gives `key`: its text after the first `=`, or empty without one. */
  function Lookup(field: string, key: string): Option<string>
  {
    var e := LineParse.Span(field, IsEquals);
    if key != "" && field[..e] == key then Some(if e < |field| then field[e + 1..] else "")
    else None
  }

  /**
   * The first value a query gives `key` (`url.Values.Get`), without
   * percent-decoding: parameters are separated by `&`.
   */
  function Param(query: string, key: string): Option<string>
    decreases |query|
  {
    var n := LineParse.Span(query, IsAmp);
    var found := Lookup(query[..n], key);
    if found.Some? then found
    else if n == |query| then None
    else Param(query[n + 1..], key)
  }

  /** No character of `s` is `c`. */
  predicate Lacks(s: string, c: char)
  {
    forall i :: 0 <= i < |s| ==> s[i] != c
  }

  /** Text a query carries as it is: no separator, no fragment, nothing percent-decoding would change. */
  predicate QuerySafe(s: string)
  {
    Lacks(s, '&') && Lacks(s, '#') && Lacks(s, '%') && Lacks(s, '+') && Lacks(s, ';')
  }

  /**
   * With a host and path holding no `?` or `#`, and org and bucket nothing a
   * query would cut or decode, the URI's query gives back the configured org
   * and bucket.
   */
  lemma UriNamesOrgAndBucket(c: Config)
    requires Lacks(c.host + c.path, '?') && Lacks(c.host + c.path, '#')
    requires QuerySafe(c.org) && QuerySafe(c.bucket)
    ensures Param(QueryOf(Uri(c)), "org") == Some(c.org)
    ensures Param(QueryOf(Uri(c)), "bucket") == Some(c.bucket)
  {
    var bucketPart := "&" + ("bucket=" + c.bucket);
    var params := "org=" + c.org + bucketPart;
    UriQuery(c, bucketPart, params);
    OrgParam(c.org, bucketPart, params);
    BucketParam(c.org, c.bucket, bucketPart, params);
  }

  lemma UriRegroup(base: string, org: string, bucket: string)
    ensures base + "?&org=" + org + "&bucket=" + bucket
            == base + ("?" + ("&" + ("org=" + org + ("&" + ("bucket=" + bucket)))))
  {
  }

  lemma UriQuery(c: Config, bucketPart: string, params: string)
    requires Lacks(c.host + c.path, '?') && Lacks(c.host + c.path, '#')
    requires QuerySafe(c.org) && QuerySafe(c.bucket)
    requires bucketPart == "&" + ("bucket=" + c.bucket)
    requires params == "org=" + c.org + bucketPart
    ensures QueryOf(Uri(c)) == "&" + params
  {
    var base := c.host + c.path;
    var query := "&" + params;
    UriRegroup(base, c.org, c.bucket);
    assert Uri(c) == base + ("?" + query);
    assert Lacks(query, '#') by {
      assert query == "&org=" + c.org + "&bucket=" + c.bucket;
      Concat4Lacks("&org=", c.org, "&bucket=", c.bucket, '#');
    }
    QueryAfter(base, query);
  }

  /** The two parameter names hold no separator. */
  lemma PlainKeys()
    ensures Lacks("org", '&') && Lacks("org", '=') && Lacks("bucket", '&') && Lacks("bucket", '=')
  {
  }

  lemma Concat4Lacks(a: string, b: string, d: string, e: string, c: char)
    requires Lacks(a, c) && Lacks(b, c) && Lacks(d, c) && Lacks(e, c)
    ensures Lacks(a + b + d + e, c)
  {
  }

  lemma OrgParam(org: string, bucketPart: string, params: string)
    requires QuerySafe(org) && 0 < |bucketPart| && bucketPart[0] == '&'
    requires params == "org=" + org + bucketPart
    ensures Param("&" + params, "org") == Some(org)
  {
    assert Param("&" + params, "org") == Param(params, "org") by {
      EmptyField(params, "org");
    }
    assert params == "org" + "=" + org + bucketPart;
    PlainKeys();
    ParamOf("org", org, bucketPart, "org");
  }

  lemma BucketParam(org: string, bucket: string, bucketPart: string, params: string)
    requires QuerySafe(org) && QuerySafe(bucket)
    requires bucketPart == "&" + ("bucket=" + bucket)
    requires params == "org=" + org + bucketPart
    ensures Param("&" + params, "bucket") == Some(bucket)
  {
    SkipOrg(org, "bucket=" + bucket, "bucket");
    PlainKeys();
    OnlyParam("bucket", bucket);
    assert "bucket=" + bucket == "bucket" + "=" + bucket;
  }

  /** The `org` parameter is passed over when looking for another key. */
  lemma SkipOrg(org: string, rest: string, key: string)
    requires QuerySafe(org) && key != "" && key != "org"
    ensures Param("&" + ("org=" + org + ("&" + rest)), key) == Param(rest, key)
  {
    var params := "org=" + org + ("&" + rest);
    EmptyField(params, key);
    PlainKeys();
    assert params == "org" + "=" + org + ("&" + rest);
    ParamOf("org", org, "&" + rest, key);
    assert ("&" + rest)[1..] == rest;
  }

  /** A query of one parameter `k=v` gives `v` for `k`. */
  lemma OnlyParam(k: string, v: string)
    requires Lacks(k, '&') && Lacks(k, '=') && Lacks(v, '&') && k != ""
    ensures Param(k + "=" + v, k) == Some(v)
  {
    var field := k + "=" + v;
    assert Lacks(field, '&') by {
      Concat4Lacks(k, "=", v, "", '&');
      assert field == k + "=" + v + "";
    }
    LookupOf(k, v, k);
    ParamFirst(field, "", k);
    assert field + "" == field;
  }

  /** The query of `base?query`, when neither holds a `#` and `base` holds no `?`. */
  lemma QueryAfter(base: string, query: string)
    requires Lacks(base, '?') && Lacks(base, '#') && Lacks(query, '#')
    ensures QueryOf(base + ("?" + query)) == query
  {
    var uri := base + ("?" + query);
    assert Lacks(uri, '#') by {
      Concat4Lacks(base, "?", query, "", '#');
      assert uri == base + "?" + query + "";
    }
    LineParse.SpanPrefix(uri, [], IsHash);
    assert uri + [] == uri;
    assert uri[..|uri|] == uri;
    LineParse.SpanPrefix(base, "?" + query, IsQuestion);
    assert uri[|base| + 1..] == query;
  }

  /** A leading `&` opens an empty parameter, which matches no key. */
  lemma EmptyField(rest: string, key: string)
    requires key != ""
    ensures Param("&" + rest, key) == Param(rest, key)
  {
    assert ("&" + rest)[1..] == rest;
  }

  /** A parameter `k=v` followed by `more`, which is empty or starts the next one. */
  lemma ParamOf(k: string, v: string, more: string, key: string)
    requires Lacks(k, '&') && Lacks(k, '=') && Lacks(v, '&') && key != ""
    requires more == [] || more[0] == '&'
    ensures Param(k + "=" + v + more, key)
            == if k == key then Some(v) else if more == [] then None else Param(more[1..], key)
  {
    var field := k + "=" + v;
    assert Lacks(field, '&') by {
      Concat4Lacks(k, "=", v, "", '&');
      assert field == k + "=" + v + "";
    }
    LookupOf(k, v, key);
    ParamFirst(field, more, key);
  }

  lemma LookupOf(k: string, v: string, key: string)
    requires Lacks(k, '=') && key != ""
    ensures Lookup(k + "=" + v, key) == if k == key then Some(v) else None
  {
    var field := k + "=" + v;
    assert field == k + ("=" + v);
    LineParse.SpanPrefix(k, "=" + v, IsEquals);
    assert field[..|k|] == k && field[|k| + 1..] == v;
  }

  lemma ParamFirst(field: string, more: string, key: string)
    requires Lacks(field, '&')
    requires more == [] || more[0] == '&'
    ensures Param(field + more, key)
            == if Lookup(field, key).Some? then Lookup(field, key)
               else if more == [] then None else Param(more[1..], key)
  {
    var query := field + more;
    LineParse.SpanPrefix(field, more, IsAmp);
    assert query[..|field|] == field;
    if more != [] {
      assert query[|field| + 1..] == more[1..];
    }
  }

  /**
   * Nothing is escaped: an org holding `&bucket=` puts a second bucket into
   * the query, and with one of that name ahead of the configured one the
   * server reads the org's.
   */
  lemma OrgNamesBucket()
    ensures Param(QueryOf(Uri(OrgWithBucket())), "bucket") == Some("x")
  {
    OrgWithBucketQueryOf();
    SkipToBucket();
    FirstBucket();
  }

  lemma OrgWithBucketQueryOf()
    ensures QueryOf(Uri(OrgWithBucket())) == "&org=o&bucket=x&bucket=b"
  {
    OrgWithBucketUri();
    OrgWithBucketBase();
    OrgWithBucketChars();
    QueryAfter("http://h/api/v2/write", "&org=o&bucket=x&bucket=b");
  }

  lemma SkipToBucket()
    ensures Param("&org=o&bucket=x&bucket=b", "bucket") == Param("bucket=x&bucket=b", "bucket")
  {
    OrgWithBucketQuery();
    OrgWithBucketChars();
    SkipOrg("o", "bucket=x&bucket=b", "bucket");
  }

  lemma FirstBucket()
    ensures Param("bucket=x&bucket=b", "bucket") == Some("x")
  {
    OrgWithBucketQuery();
    PlainKeys();
    ParamOf("bucket", "x", "&bucket=b", "bucket");
  }

  /** A config whose org is `o&bucket=x` and whose bucket is `b`. */
  function OrgWithBucket(): Config
  {
    Config("b", "http://h", WritePath, "o&bucket=x", "", "", 3 * Second)
  }

  lemma OrgWithBucketUri()
    ensures Uri(OrgWithBucket()) == "http://h/api/v2/write" + ("?" + "&org=o&bucket=x&bucket=b")
  {
  }

  lemma OrgWithBucketBase()
    ensures Lacks("http://h/api/v2/write", '?') && Lacks("http://h/api/v2/write", '#')
  {
  }

  lemma OrgWithBucketChars()
    ensures Lacks("&org=o&bucket=x&bucket=b", '#') && QuerySafe("o")
  {
  }

  lemma OrgWithBucketQuery()
    ensures "&org=o&bucket=x&bucket=b" == "&" + ("org=" + "o" + ("&" + "bucket=x&bucket=b"))
    ensures "bucket=x&bucket=b" == "bucket" + "=" + "x" + "&bucket=b"
    ensures "&bucket=b"[1..] == "bucket=b"
  {
  }

  // ---------------------------------------------------------------------------
  // The write-path scenarios of influxwrite_test.go
  // ---------------------------------------------------------------------------

  /** A fresh config with a host and a bucket but no org fails with "no org configured". */
  lemma MissingOrg(hostname: Option<string>, url: string, t: Transport, m: Metric, p: Printer)
    ensures var c := NewConfig(hostname).(host := url, bucket := "testbucket");
            var r := WriteLP(t, c, m, p);
            r.err.Some? && Message(r.err.value, p.widePrint) == "no org configured"
  {
  }

  /** A fresh config with a host and an org but no bucket fails with "no bucket configured". */
  lemma MissingBucket(hostname: Option<string>, url: string, t: Transport, m: Metric, p: Printer)
    ensures var c := NewConfig(hostname).(host := url, org := "testorg");
            var r := WriteLP(t, c, m, p);
            r.err.Some? && Message(r.err.value, p.widePrint) == "no bucket configured"
  {
  }

  /** Against a server that answers every request with 204, a complete config succeeds with an empty body. */
  lemma GoodConfig(hostname: Option<string>, url: string, t: Transport, m: Metric, p: Printer)
    requires forall u :: t.urlError(u) == None
    requires forall r :: t.exchange(r) == Response(204, "")
    ensures var c := NewConfig(hostname).(host := url, bucket := "testbucket", org := "testorg");
            WriteLP(t, c, m, p) == Outcome(204, "", None)
  {
  }
}

/** The request layer of yahoogroupsapi.py: the endpoint registry, the
    dispatch of endpoint names, URI construction, the 200-only success check
    of `get_json`, the retry loop of `download_file`, and the object state set
    by `__init__` and `set_warc_writer`. The network is a parameter: a
    function from the request sent to the response received. */
module GroupsApi {
  import opened Wrappers
  import opened Text

  type Bytes = seq<bv8>

  const BaseUri: string := "https://groups.yahoo.com/api"

  /** The endpoint registry: logical endpoint name to API version. */
  const ApiVersions: map<string, string> := map[
    "HackGroupInfo" := "v1",
    "messages" := "v1",
    "files" := "v2",
    "albums" := "v2",
    "database" := "v1",
    "links" := "v1",
    "statistics" := "v1",
    "polls" := "v1",
    "attachments" := "v1",
    "members" := "v1",
    "topics" := "v1"
  ]

  /** The endpoint that stands for the group root; its name is left out of the URI. */
  const GroupInfo: string := "HackGroupInfo"

  /** Retries `download_file` allows after the first GET. */
  const MaxRetries: nat := 5

  /** Seconds slept before each retry. */
  const RetryDelay: nat := 5

  /** Seconds `get_json` waits for the server. */
  const JsonTimeout: nat := 15

  /** The exceptions the request layer raises or lets through. Kept apart from
      `PhotoUtils.PyError`, which holds the two the photo selector raises:
      each module's error type lists exactly its own file's failures, so a
      `match` on either stays exhaustive without impossible cases. */
  datatype ApiError =
    | AttributeError          // endpoint name unknown to `__getattr__`
    | KeyError(key: string)   // missing key: unknown target in `get_json`, or no `ygData`
    | HttpError(status: int)  // `raise_for_status`, or a non-200 status in `get_json`
    | JsonError               // the body is not a JSON object
    | ImportError             // warcio could not be imported
    | NameError(name: string) // `capture_http` is not defined
    | TypeError               // a keyword argument given twice, or one the callee does not take

  /** A positional path part of an endpoint call, as passed to `str()`. */
  datatype PathPart = IntPart(i: int) | StrPart(s: string)

  /** One GET as handed to the session. `options` are the query parameters of
      `get_json` or the keyword arguments passed through by `download_file`. */
  datatype Request = Request(
    url: string,
    options: map<string, string>,
    stream: bool,
    allowRedirects: bool,
    timeout: Option<nat>)

  /** What the server answers: a status, the raw body, and the body parsed
      as a JSON object (`None` when it is not one). */
  datatype Response = Response(status: int, content: Bytes, json: Option<map<string, string>>)

  /** What a successful `download_file` produces. */
  datatype Delivery =
    | Content(body: Bytes)       // no file given: the body is returned
    | WrittenToFile(body: Bytes) // a file given: the body is written to it, nothing returned

  /** An open file a download can be written to. */
  datatype FileSink = FileSink(name: string)

  /** `functools.partial(self.get_json, name)`: an endpoint call with its target bound. */
  datatype EndpointCall = EndpointCall(target: string)

  datatype CookieJar = CookieJar(cookies: map<string, string>)

  /** The HTTP session: the cookie store and the default headers. */
  datatype Session = Session(cookies: CookieJar, headers: map<string, string>)

  /** A fresh `requests.Session()`: no cookies, and the library's default
      headers (the User-Agent version number is left out). `__init__`
      replaces these headers wholesale. */
  const NewSession: Session := Session(CookieJar(map[]), map[
    "User-Agent" := "python-requests",
    "Accept-Encoding" := "gzip, deflate",
    "Accept" := "*/*",
    "Connection" := "keep-alive"
  ])

  /** The writer WARC records go to. */
  datatype WarcWriter = WarcWriter(id: nat)

  /** The context manager each request runs under. */
  datatype HttpContext = DummyContext | CaptureHttp

  /** `response.raise_for_status()`: raises for client (4xx) and server (5xx) errors. */
  predicate RaisesForStatus(status: int)
  {
    400 <= status < 600
  }

  /** The keyword parameters of `requests.Session.request`, which
      `session.get(url, **kwargs)` forwards its keywords to. */
  const RequestKeywords: set<string> :=
    {"params", "data", "headers", "cookies", "files", "auth", "timeout", "allow_redirects",
     "proxies", "hooks", "stream", "verify", "cert", "json"}

  /** The keyword arguments `download_file(url, f=None, **args)` rejects with
      `TypeError` before any request: `self` or `url` a second time (binding the
      call, or `session.get`), `stream` or `verify`, which it passes to
      `session.get` itself, `method`, which `session.get` passes on itself, and
      any keyword `Session.request` does not take. (`args` never holds `f`,
      which binds to the parameter of that name.) */
  predicate RejectedDownloadKeyword(args: map<string, string>)
  {
    || "self" in args || "url" in args || "stream" in args || "verify" in args
    || (exists k :: k in args && k !in RequestKeywords)
  }

  /** The keyword arguments `get_json(self, target, *parts, **opts)` rejects
      with `TypeError` before its body runs: a second value for `self` or
      `target` (the endpoint stub binds `target` by position as well). */
  predicate ClashesWithGetJson(opts: map<string, string>)
  {
    "self" in opts || "target" in opts
  }

  /** `str(part)` */
  function Str(part: PathPart): (s: string)
    ensures part.IntPart? ==> Sep !in s
  {
    match part
    case StrPart(s) => s
    case IntPart(i) => if i < 0 then "-" + Decimal(-i) else Decimal(i)
  }

  /** `map(str, parts)`, a list under Python 2. */
  function Strs(parts: seq<PathPart>): (r: seq<string>)
    ensures |r| == |parts|
    ensures forall i :: 0 <= i < |parts| ==> r[i] == Str(parts[i])
  {
    if |parts| == 0 then [] else [Str(parts[0])] + Strs(parts[1..])
  }

  /** The URI `get_json` requests for `target` and the path parts. */
  function EndpointUri(group: string, target: string, parts: seq<PathPart>): string
    requires target in ApiVersions
  {
    var name := if target == GroupInfo then "" else target;
    Join([BaseUri, ApiVersions[target], "groups", group, name] + Strs(parts))
  }

  /** Every registered version is a single path segment. */
  lemma VersionsArePlain(target: string)
    requires target in ApiVersions
    ensures ApiVersions[target] in {"v1", "v2"}
  {
  }

  /** Every registered endpoint name is a single, non-empty path segment. */
  lemma NamesArePlain(target: string)
    requires target in ApiVersions
    ensures |target| > 0 && Sep !in target
  {
  }

  /** Joining a head onto separator-free parts gives the head, a separator,
      and a rest that splits back into exactly those parts. */
  lemma {:induction false} JoinedSegments(head: string, tail: seq<string>)
    requires |tail| > 0
    requires forall i :: 0 <= i < |tail| ==> Sep !in tail[i]
    ensures var joined := Join([head] + tail);
            && |head| < |joined|
            && joined[..|head| + 1] == head + [Sep]
            && Split(joined[|head| + 1..]) == tail
  {
    JoinHead(head, tail);
    SplitJoin(tail);
    var joined := Join([head] + tail);
    assert joined == head + [Sep] + Join(tail);
    assert joined[|head| + 1..] == Join(tail);
  }

  /** The layout of `base/version/groups/group/name/parts...` when no
      segment contains a separator. */
  lemma PathSegments(base: string, version: string, group: string, name: string, parts: seq<PathPart>)
    requires Sep !in version && Sep !in group && Sep !in name
    requires forall i :: 0 <= i < |parts| ==> Sep !in Str(parts[i])
    ensures var uri := Join([base, version, "groups", group, name] + Strs(parts));
            && |base| < |uri|
            && uri[..|base| + 1] == base + [Sep]
            && Split(uri[|base| + 1..]) == [version, "groups", group, name] + Strs(parts)
  {
    var strs := Strs(parts);
    var tail := [version, "groups", group, name] + strs;
    forall i | 0 <= i < |tail| ensures Sep !in tail[i] {
      if i >= 4 {
        assert tail[i] == Str(parts[i - 4]);
      }
    }
    assert [base, version, "groups", group, name] + strs == [base] + tail;
    JoinedSegments(base, tail);
  }

  /** The URI is the base followed by the version, `groups`, the group, the
      endpoint name (empty for the group-root endpoint) and each path part,
      one segment each, whenever no segment contains a slash itself. */
  lemma EndpointUriSegments(group: string, target: string, parts: seq<PathPart>)
    requires target in ApiVersions
    requires Sep !in group
    requires forall i :: 0 <= i < |parts| ==> Sep !in Str(parts[i])
    ensures var uri := EndpointUri(group, target, parts);
            && |BaseUri| < |uri|
            && uri[..|BaseUri| + 1] == BaseUri + [Sep]
            && var segs := Split(uri[|BaseUri| + 1..]);
               && |segs| == 4 + |parts|
               && segs[0] == ApiVersions[target]
               && segs[1] == "groups"
               && segs[2] == group
               && (segs[3] == "" <==> target == GroupInfo)
               && (target != GroupInfo ==> segs[3] == target)
               && forall i :: 0 <= i < |parts| ==> segs[4 + i] == Str(parts[i])
  {
    var version := ApiVersions[target];
    VersionsArePlain(target);
    NamesArePlain(target);
    var name := if target == GroupInfo then "" else target;
    PathSegments(BaseUri, version, group, name, parts);
  }

  /** What `get_json` makes of the response: the `ygData` payload when the
      status is exactly 200, an `HTTPError` for every other status (a 3xx
      that `raise_for_status` lets through included). */
  function JsonOutcome(resp: Response): (r: Result<string, ApiError>)
    ensures r.Success? <==> resp.status == 200 && resp.json.Some? && "ygData" in resp.json.value
    ensures r.Success? ==> r.value == resp.json.value["ygData"]
    ensures resp.status != 200 ==> r == Failure(HttpError(resp.status))
    ensures (resp.status == 200 && resp.json.Some? && "ygData" !in resp.json.value)
            ==> r == Failure(KeyError("ygData"))
  {
    if RaisesForStatus(resp.status) then Failure(HttpError(resp.status))
    else if resp.status != 200 then Failure(HttpError(resp.status))
    else match resp.json
      case None => Failure(JsonError)
      case Some(envelope) =>
        if "ygData" in envelope then Success(envelope["ygData"]) else Failure(KeyError("ygData"))
  }

  /** Redirects are errors for the JSON endpoints even though
      `raise_for_status` accepts them. */
  lemma RedirectIsError(resp: Response)
    requires 300 <= resp.status < 400
    ensures !RaisesForStatus(resp.status)
    ensures JsonOutcome(resp) == Failure(HttpError(resp.status))
  {
  }

  /** `__getattr__(name)`: a bound endpoint call for a registered name,
      `AttributeError` otherwise. */
  function GetAttr(name: string): (r: Result<EndpointCall, ApiError>)
    ensures r.Success? <==> name in ApiVersions
    ensures r.Success? ==> r.value.target == name
    ensures r.Failure? ==> r.error == AttributeError
  {
    if name !in ApiVersions then Failure(AttributeError) else Success(EndpointCall(name))
  }

  class YahooGroupsApi {
    var s: Session
    var group: string
    var ww: Option<WarcWriter>
    var httpContext: HttpContext

    /** `__init__(group, cookie_jar)`: the jar replaces the session's cookies
        only when it is given and not empty (an empty jar is falsy); the
        headers are replaced by a single `Referer`. */
    constructor (group: string, cookieJar: Option<CookieJar>)
      ensures this.group == group
      ensures s.headers == map["Referer" := BaseUri]
      ensures s.cookies == if cookieJar.Some? && |cookieJar.value.cookies| > 0
                           then cookieJar.value else NewSession.cookies
      ensures ww == None && httpContext == DummyContext
    {
      var session := NewSession;
      this.group := group;
      if cookieJar.Some? && |cookieJar.value.cookies| > 0 {
        session := session.(cookies := cookieJar.value);
      }
      session := session.(headers := map["Referer" := BaseUri]);
      s := session;
      ww := None;
      httpContext := DummyContext;
    }

    /** `set_warc_writer(ww)`. `warcioFailed` is whether the warcio import
        failed when the module was loaded. A writer with warcio missing raises
        `ImportError` and changes nothing; `None` with warcio missing clears
        `ww` and then raises `NameError` on `capture_http`; otherwise the
        writer is stored and requests run under `capture_http`. */
    method SetWarcWriter(w: Option<WarcWriter>, warcioFailed: bool) returns (err: Option<ApiError>)
      modifies this`ww, this`httpContext
      ensures w.Some? && warcioFailed ==>
                err == Some(ImportError) && ww == old(ww) && httpContext == old(httpContext)
      ensures w.None? && warcioFailed ==>
                err == Some(NameError("capture_http")) && ww == None && httpContext == old(httpContext)
      ensures !warcioFailed ==> err == None && ww == w && httpContext == CaptureHttp
    {
      if w.Some? && warcioFailed {
        return Some(ImportError);
      }
      ww := w;
      if warcioFailed {
        return Some(NameError("capture_http"));
      }
      httpContext := CaptureHttp;
      err := None;
    }

    /** `get_json(target, *parts, **opts)`: one GET of the endpoint URI, or
        `KeyError` with no request for a target missing from the registry.
        `server` gives the response to a request. */
    method GetJson(target: string, parts: seq<PathPart>, opts: map<string, string>, server: Request -> Response)
      returns (r: Result<string, ApiError>, sent: seq<Request>)
      ensures ClashesWithGetJson(opts) ==> r == Failure(TypeError) && sent == []
      ensures !ClashesWithGetJson(opts) && target !in ApiVersions ==> r == Failure(KeyError(target)) && sent == []
      ensures !ClashesWithGetJson(opts) && target in ApiVersions ==>
                && sent == [Request(EndpointUri(group, target, parts), opts, false, false, Some(JsonTimeout))]
                && r == JsonOutcome(server(sent[0]))
    {
      if ClashesWithGetJson(opts) {
        return Failure(TypeError), [];
      }
      if target !in ApiVersions {
        return Failure(KeyError(target)), [];
      }
      var version := ApiVersions[target];
      var uriParts := [BaseUri, version, "groups", group, target];
      var strs := Strs(parts);
      uriParts := uriParts + strs;
      if target == GroupInfo {
        uriParts := uriParts[4 := ""];
      }
      ghost var name := if target == GroupInfo then "" else target;
      assert uriParts == [BaseUri, version, "groups", group, name] + strs;
      var uri := Join(uriParts);
      assert uri == EndpointUri(group, target, parts);
      var req := Request(uri, opts, false, false, Some(JsonTimeout));
      sent := [req];
      var resp := server(req);
      if RaisesForStatus(resp.status) || resp.status != 200 {
        return Failure(HttpError(resp.status)), sent;
      }
      if resp.json.None? {
        return Failure(JsonError), sent;
      }
      if "ygData" !in resp.json.value {
        return Failure(KeyError("ygData")), sent;
      }
      r := Success(resp.json.value["ygData"]);
    }

    /** `yga.<name>(*parts, **opts)`: `__getattr__` then the bound call. An
        unregistered name raises `AttributeError` before any request. */
    method CallEndpoint(name: string, parts: seq<PathPart>, opts: map<string, string>, server: Request -> Response)
      returns (r: Result<string, ApiError>, sent: seq<Request>)
      ensures name !in ApiVersions ==> r == Failure(AttributeError) && sent == []
      ensures name in ApiVersions && ClashesWithGetJson(opts) ==> r == Failure(TypeError) && sent == []
      ensures name in ApiVersions && !ClashesWithGetJson(opts) ==>
                && |sent| == 1
                && sent[0].url == EndpointUri(group, name, parts)
                && sent[0].options == opts
                && r == JsonOutcome(server(sent[0]))
    {
      var call := GetAttr(name);
      if call.Failure? {
        return Failure(call.error), [];
      }
      r, sent := GetJson(call.value.target, parts, opts, server);
    }

    /** `download_file(url, f, **args)`: a keyword in `args` that the GET
        already passes raises `TypeError` before any request. Otherwise GET `url`, retrying while the status
        is 400 and retries remain, then `raise_for_status` on the last
        response. `server(n)` is the response to the n-th GET (from 0); the
        sleeps are counted in `slept` seconds. */
    method DownloadFile(url: string, f: Option<FileSink>, args: map<string, string>, server: nat -> Response)
      returns (r: Result<Delivery, ApiError>, sent: seq<Request>, slept: nat)
      ensures RejectedDownloadKeyword(args) ==> r == Failure(TypeError) && sent == [] && slept == 0
      ensures !RejectedDownloadKeyword(args) ==>
                && 1 <= |sent| <= MaxRetries + 1
                && (forall i :: 0 <= i < |sent| ==> sent[i] == Request(url, args, true, true, None))
                && (forall i :: 0 <= i < |sent| - 1 ==> server(i).status == 400)
                && (server(|sent| - 1).status != 400 || |sent| == MaxRetries + 1)
                && slept == RetryDelay * (|sent| - 1)
                && var last := server(|sent| - 1);
                   && (RaisesForStatus(last.status) ==> r == Failure(HttpError(last.status)))
                   && (!RaisesForStatus(last.status) && f.None? ==> r == Success(Content(last.content)))
                   && (!RaisesForStatus(last.status) && f.Some? ==> r == Success(WrittenToFile(last.content)))
      ensures r == Failure(HttpError(400)) ==> |sent| == MaxRetries + 1
    {
      if RejectedDownloadKeyword(args) {
        return Failure(TypeError), [], 0;
      }
      var req := Request(url, args, true, true, None);
      var retries := MaxRetries;
      var resp := server(0);
      sent, slept := [req], 0;
      while resp.status == 400 && retries > 0
        invariant 0 <= retries <= MaxRetries
        invariant |sent| == MaxRetries - retries + 1
        invariant forall i :: 0 <= i < |sent| ==> sent[i] == req
        invariant forall i :: 0 <= i < |sent| - 1 ==> server(i).status == 400
        invariant resp == server(|sent| - 1)
        invariant slept == RetryDelay * (|sent| - 1)
      {
        retries := retries - 1;
        slept := slept + RetryDelay;
        resp := server(|sent|);
        sent := sent + [req];
      }
      if RaisesForStatus(resp.status) {
        return Failure(HttpError(resp.status)), sent, slept;
      }
      if f.None? {
        r := Success(Content(resp.content));
      } else {
        r := Success(WrittenToFile(resp.content));
      }
    }
  }
}

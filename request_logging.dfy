/** The request-logging interceptor: the decisions it takes about one
    request (bypass for health checks, the metadata it records, the rounded
    duration, the status of a failure) and the ordered log entries it emits
    around the handler's outcome. */
module RequestLogging {
  import opened Common

  // ---- duration ----

  /** The exact milliseconds of an hrtime difference: whole seconds count a
      thousand each, and the nanoseconds, always under a second, add less
      than one more second. */
  function ElapsedMs(diff: HrTime): (ms: real)
    ensures 0 <= diff.nanos < 1000000000 ==>
              diff.seconds as real * 1000.0 <= ms < diff.seconds as real * 1000.0 + 1000.0
    ensures diff.nanos % 1000000 == 0 ==> ms == (diff.seconds * 1000 + diff.nanos / 1000000) as real
  {
    diff.seconds as real * 1000.0 + diff.nanos as real / 1000000.0
  }

  /** `Math.round`: the nearest integer, a half rounded up. */
  function Round(x: real): (k: int)
    ensures k as real - 0.5 <= x < k as real + 0.5
  {
    (x + 0.5).Floor
  }

  /** Exactly one integer lies within a half below and strictly less than a
      half above `x`, so the contract of `Round` fixes its result. */
  lemma RoundIsUnique(x: real, k: int)
    requires k as real - 0.5 <= x < k as real + 0.5
    ensures Round(x) == k
  {
  }

  /** getDurationMs: nothing without a start reading, otherwise the elapsed
      time rounded to whole milliseconds. `diff` is what `process.hrtime`
      measures against the start reading. */
  function DurationMs(startAt: Option<HrTime>, diff: HrTime): (d: Option<int>)
    ensures d.None? <==> startAt.None?
    ensures d.Some? ==> d.value as real - 0.5 <= ElapsedMs(diff) < d.value as real + 0.5
  {
    if startAt.None? then None else Some(Round(ElapsedMs(diff)))
  }

  /** Zero seconds and 5,000,000 nanoseconds are 5 milliseconds. */
  lemma DurationExample()
    ensures DurationMs(Some(HrTime(1, 2)), HrTime(0, 5000000)) == Some(5)
    ensures DurationMs(None, HrTime(0, 5000000)) == None
  {
    assert ElapsedMs(HrTime(0, 5000000)) == 5.0;
    RoundIsUnique(5.0, 5);
  }

  // ---- the path and the health-check bypass ----

  /** A JavaScript value that is neither undefined nor the empty string. */
  predicate Truthy(s: Option<string>) {
    s.Some? && s.value != ""
  }

  /** `req.originalUrl || req.url || ''`. */
  function PathOf(originalUrl: Option<string>, url: Option<string>): (p: string)
    ensures p == "" <==> !Truthy(originalUrl) && !Truthy(url)
    ensures Truthy(originalUrl) ==> p == originalUrl.value
    ensures !Truthy(originalUrl) && Truthy(url) ==> p == url.value
  {
    if Truthy(originalUrl) then originalUrl.value
    else if Truthy(url) then url.value
    else ""
  }

  const HealthPath := "/health"

  /** `path.startsWith(prefix)`. */
  predicate StartsWith(path: string, prefix: string) {
    |prefix| <= |path| && path[..|prefix|] == prefix
  }

  /** The bypass test: the path is `/health` or starts with it. It is
      exactly "the path begins with /health": the equality test adds
      nothing, and `/healthz` or `/health/db` are bypassed too. */
  predicate IsHealthPath(path: string)
    ensures IsHealthPath(path) <==> HealthPath <= path
  {
    path == HealthPath || StartsWith(path, HealthPath)
  }

  lemma HealthPathExamples()
    ensures IsHealthPath("/health") && IsHealthPath("/healthz") && IsHealthPath("/health/db")
    ensures !IsHealthPath("/api/health") && !IsHealthPath("/Health") && !IsHealthPath("")
    ensures !IsHealthPath("/api/things")
  {
    assert "/healthz"[..7] == HealthPath;
    assert "/health/db"[..7] == HealthPath;
    assert "/api/health"[..7][1] != HealthPath[1];
    assert "/Health"[..7][1] != HealthPath[1];
    assert "/api/things"[..7][1] != HealthPath[1];
  }

  // ---- String.prototype.trim ----

  /** The white space and line terminators `trim` removes that lie in the
      ASCII range, plus no-break space, the byte order mark and the two
      Unicode line terminators. */
  predicate IsSpace(c: char) {
    c == ' ' || c == '\t' || c == '\n' || c == '\r' || c == '\U{000B}' || c == '\U{000C}'
    || c == '\U{00A0}' || c == '\U{FEFF}' || c == '\U{2028}' || c == '\U{2029}'
  }

  /** `s` without its leading white space. */
  function TrimStart(s: string): (r: string)
    ensures |r| <= |s| && r == s[|s| - |r|..]
    ensures forall k :: 0 <= k < |s| - |r| ==> IsSpace(s[k])
    ensures r == [] || !IsSpace(r[0])
  {
    if s != [] && IsSpace(s[0]) then
      var r := TrimStart(s[1..]);
      assert s[1..][|s| - 1 - |r|..] == s[|s| - |r|..];
      assert forall k :: 1 <= k < |s| - |r| ==> s[1..][k - 1] == s[k];
      r
    else s
  }

  /** `s` without its trailing white space. */
  function TrimEnd(s: string): (r: string)
    ensures |r| <= |s| && r == s[..|r|]
    ensures forall k :: |r| <= k < |s| ==> IsSpace(s[k])
    ensures r == [] || !IsSpace(r[|r| - 1])
  {
    if s != [] && IsSpace(s[|s| - 1]) then
      var r := TrimEnd(s[..|s| - 1]);
      assert s[..|s| - 1][..|r|] == s[..|r|];
      assert forall k :: |r| <= k < |s| - 1 ==> s[..|s| - 1][k] == s[k];
      r
    else s
  }

  /** `s.trim()`: the longest slice of `s` that neither begins nor ends with
      white space, everything around it being white space. */
  function Trim(s: string): (r: string)
    ensures |r| <= |s|
    ensures r == [] || (!IsSpace(r[0]) && !IsSpace(r[|r| - 1]))
  {
    TrimEnd(TrimStart(s))
  }

  /** Trimming removes only white space from the two ends: what is left is
      a slice of the input with white space on either side of it. */
  lemma {:induction false} TrimIsSlice(s: string)
    ensures var lead := |s| - |TrimStart(s)|;
            && lead + |Trim(s)| <= |s|
            && Trim(s) == s[lead..lead + |Trim(s)|]
            && (forall k :: 0 <= k < lead ==> IsSpace(s[k]))
            && (forall k :: lead + |Trim(s)| <= k < |s| ==> IsSpace(s[k]))
  {
    var t := TrimStart(s);
    var lead := |s| - |t|;
    var r := TrimEnd(t);
    assert t == s[lead..];
    assert r == t[..|r|];
    assert t[..|r|] == s[lead..lead + |r|];
    TrailingSpaceOfSuffix(s, t, lead, |r|);
  }

  /** White space at the end of a suffix is white space of the whole. */
  lemma TrailingSpaceOfSuffix(s: string, t: string, lead: nat, n: nat)
    requires lead + n <= |s| && t == s[lead..]
    requires forall k :: n <= k < |t| ==> IsSpace(t[k])
    ensures forall k :: lead + n <= k < |s| ==> IsSpace(s[k])
  {
    forall k | lead + n <= k < |s| ensures IsSpace(s[k]) {
      assert s[k] == t[k - lead];
    }
  }

  /** Trimming twice is trimming once. */
  lemma TrimIdempotent(s: string)
    ensures Trim(Trim(s)) == Trim(s)
  {
    var r := Trim(s);
    assert TrimStart(r) == r;
    assert TrimEnd(r) == r;
  }

  // ---- the request metadata ----

  /** The authenticated user attached to the request by the auth guard. */
  datatype AuthUser = AuthUser(userId: Option<string>)

  /** What the interceptor reads from the request. */
  datatype IncomingRequest = IncomingRequest(
    id: Option<string>,
    httpMethod: string,
    originalUrl: Option<string>,
    url: Option<string>,
    forwardedFor: Option<string>,
    remoteAddress: Option<string>,
    user: Option<AuthUser>,
    userAgent: Option<string>,
    startAt: Option<HrTime>)

  /** What the interceptor reads from the response once the handler ran. */
  datatype OutgoingResponse = OutgoingResponse(statusCode: Option<int>, contentLength: Option<string>)

  /** `header.split(',')[0]?.trim()`: the first comma-separated entry of
      the header, trimmed. */
  function FirstEntry(header: string): (e: string)
    ensures |e| <= |header|
    ensures e == [] || (!IsSpace(e[0]) && !IsSpace(e[|e| - 1]))
  {
    Trim(Split(header, ',')[0])
  }

  /** The first entry is what the header holds before its first comma,
      without surrounding white space, and holds no comma itself. */
  lemma {:induction false} FirstEntryShape(header: string)
    ensures FirstEntry(header) == Trim(header[..IndexOf(header, ',')])
    ensures ',' !in FirstEntry(header)
  {
    SplitFirstPiece(header, ',');
    var first := header[..IndexOf(header, ',')];
    assert forall k :: 0 <= k < |first| ==> first[k] == header[k];
    TrimKeepsOut(first, ',');
  }

  /** Trimming adds no character: what a string lacks, its trimmed form
      lacks too. */
  lemma {:induction false} TrimKeepsOut(s: string, c: char)
    requires c !in s
    ensures c !in Trim(s)
  {
    TrimIsSlice(s);
    var lead := |s| - |TrimStart(s)|;
    SliceKeepsOut(s, lead, lead + |Trim(s)|, c);
  }

  /** A slice holds no character its string lacks. */
  lemma SliceKeepsOut(s: string, lo: nat, hi: nat, c: char)
    requires lo <= hi <= |s| && c !in s
    ensures c !in s[lo..hi]
  {
    var t := s[lo..hi];
    forall k | 0 <= k < |t| ensures t[k] != c {
      assert t[k] == s[lo + k];
    }
  }

  /** The client address: the first entry of `x-forwarded-for` when that is
      not empty; the socket's remote address otherwise. */
  function ClientIp(forwardedFor: Option<string>, remoteAddress: Option<string>): (ip: Option<string>)
    ensures forwardedFor.Some? && FirstEntry(forwardedFor.value) != "" ==>
              ip == Some(FirstEntry(forwardedFor.value))
    ensures forwardedFor.None? || FirstEntry(forwardedFor.value) == "" ==> ip == remoteAddress
  {
    if forwardedFor.Some? && FirstEntry(forwardedFor.value) != "" then Some(FirstEntry(forwardedFor.value))
    else remoteAddress
  }

  /** An address without padding is left as it is. */
  lemma TrimPlainAddress()
    ensures Trim("1.2.3.4") == "1.2.3.4"
  {
    var a := "1.2.3.4";
    assert !IsSpace(a[0]);
    assert TrimStart(a) == a;
    assert !IsSpace(a[|a| - 1]);
    assert TrimEnd(a) == a;
  }

  /** One blank on either side of an address is removed. */
  lemma TrimPaddedAddress()
    ensures Trim(" 10.0.0.1 ") == "10.0.0.1"
  {
    var a := " 10.0.0.1 ";
    var b := "10.0.0.1 ";
    var c := "10.0.0.1";
    assert a[1..] == b;
    assert !IsSpace(b[0]);
    assert TrimStart(b) == b;
    assert TrimStart(a) == b;
    assert b[..|b| - 1] == c;
    assert !IsSpace(c[|c| - 1]);
    assert TrimEnd(c) == c;
    assert TrimEnd(b) == c;
  }

  lemma TrimAddress()
    ensures Trim("1.2.3.4") == "1.2.3.4"
    ensures Trim(" 10.0.0.1 ") == "10.0.0.1"
  {
    TrimPlainAddress();
    TrimPaddedAddress();
  }

  /** A single address is taken as it is. */
  lemma ClientIpSingle()
    ensures ClientIp(Some("1.2.3.4"), Some("127.0.0.1")) == Some("1.2.3.4")
  {
    var a := "1.2.3.4";
    assert ',' !in a;
    SplitWithoutSeparator(a, ',');
    TrimPlainAddress();
    assert FirstEntry(a) == a;
  }

  /** Of a list, the first entry is taken, without its padding. */
  lemma ClientIpList()
    ensures ClientIp(Some(" 10.0.0.1 , 10.0.0.2"), Some("127.0.0.1")) == Some("10.0.0.1")
  {
    var first := " 10.0.0.1 ";
    assert ',' !in first;
    assert " 10.0.0.1 , 10.0.0.2" == first + [','] + " 10.0.0.2";
    SplitBeforeSeparator(first, ',', " 10.0.0.2");
    TrimPaddedAddress();
    assert FirstEntry(" 10.0.0.1 , 10.0.0.2") == "10.0.0.1";
  }

  /** An empty header falls back to the socket's address. */
  lemma EmptyHeaderFallback(remoteAddress: Option<string>)
    ensures ClientIp(Some(""), remoteAddress) == remoteAddress
  {
    SplitWithoutSeparator("", ',');
    assert TrimStart("") == "" && TrimEnd("") == "";
    assert FirstEntry("") == "";
  }

  /** A header whose first entry is blank falls back to the socket's
      address. */
  lemma BlankEntryFallback(remoteAddress: Option<string>)
    ensures ClientIp(Some(" , 10.0.0.2"), remoteAddress) == remoteAddress
  {
    assert " , 10.0.0.2" == " " + [','] + " 10.0.0.2";
    SplitBeforeSeparator(" ", ',', " 10.0.0.2");
    assert TrimStart(" ") == "" by {
      assert " "[1..] == "";
    }
    assert TrimEnd("") == "";
    assert FirstEntry(" , 10.0.0.2") == "";
  }

  /** No header, an empty header, or a blank first entry fall back to the
      socket's address. */
  lemma ClientIpFallback()
    ensures ClientIp(None, Some("127.0.0.1")) == Some("127.0.0.1")
    ensures ClientIp(Some(""), Some("127.0.0.1")) == Some("127.0.0.1")
    ensures ClientIp(Some(" , 10.0.0.2"), Some("127.0.0.1")) == Some("127.0.0.1")
  {
    EmptyHeaderFallback(Some("127.0.0.1"));
    BlankEntryFallback(Some("127.0.0.1"));
  }

  /** `req.user?.userId ?? null`. */
  function UserIdOf(user: Option<AuthUser>): (id: Option<string>)
    ensures id.Some? <==> user.Some? && user.value.userId.Some?
    ensures id.Some? ==> id.value == user.value.userId.value
  {
    if user.Some? then user.value.userId else None
  }

  /** The metadata every entry about a request carries. */
  datatype RequestMeta = RequestMeta(
    reqId: Option<string>,
    httpMethod: string,
    path: string,
    ip: Option<string>,
    userId: Option<string>,
    ua: Option<string>)

  function MetaOf(req: IncomingRequest): (m: RequestMeta)
    ensures m.reqId == req.id && m.httpMethod == req.httpMethod && m.ua == req.userAgent
    ensures m.path == PathOf(req.originalUrl, req.url)
    ensures m.ip == ClientIp(req.forwardedFor, req.remoteAddress)
    ensures m.userId == UserIdOf(req.user)
  {
    RequestMeta(req.id, req.httpMethod, PathOf(req.originalUrl, req.url),
                ClientIp(req.forwardedFor, req.remoteAddress), UserIdOf(req.user), req.userAgent)
  }

  // ---- the status of a failure ----

  /** `err?.status ?? res.statusCode ?? 500`: the first of the two that is
      defined, 500 when neither is. */
  function ErrorStatus(errStatus: Option<int>, statusCode: Option<int>): (s: int)
    ensures errStatus.Some? ==> s == errStatus.value
    ensures errStatus.None? && statusCode.Some? ==> s == statusCode.value
    ensures errStatus.None? && statusCode.None? ==> s == 500
  {
    match errStatus
    case Some(v) => v
    case None =>
      match statusCode
      case Some(v) => v
      case None => 500
  }

  /** The fallback picks one of the candidates, never invents a status when
      one is defined, and keeps a defined status of 0. */
  lemma ErrorStatusExamples()
    ensures ErrorStatus(Some(418), Some(200)) == 418
    ensures ErrorStatus(None, Some(200)) == 200
    ensures ErrorStatus(None, None) == 500
    ensures ErrorStatus(Some(0), Some(200)) == 0
  {
  }

  // ---- the interception ----

  /** What the handler produced: a value, or a thrown error. */
  datatype HandlerError = HandlerError(status: Option<int>, stack: Option<string>)

  datatype Outcome<T> = Emitted(value: T) | Raised(error: HandlerError)

  /** One logger call. */
  datatype LogEvent =
    | RequestLogged(meta: RequestMeta)
    | ResponseLogged(meta: RequestMeta, status: Option<int>, durationMs: Option<int>, contentLength: Option<string>)
    | ErrorLogged(stack: Option<string>, meta: RequestMeta, errorStatus: int, durationMs: Option<int>)

  /** The log entries emitted, in order, and what the caller receives. */
  datatype Intercepted<T> = Intercepted(events: seq<LogEvent>, outcome: Outcome<T>)

  /** intercept: a health-check path passes straight through with nothing
      logged; any other request logs its entry before the handler runs, then
      a response entry on success or an error entry on failure, and the
      handler's value or error reaches the caller unchanged. `diff` is the
      hrtime difference measured when the handler finished. */
  function Intercept<T>(req: IncomingRequest, res: OutgoingResponse, handled: Outcome<T>, diff: HrTime)
    : (r: Intercepted<T>)
    ensures r.outcome == handled
    ensures r.events == [] <==> IsHealthPath(PathOf(req.originalUrl, req.url))
    ensures r.events != [] ==> |r.events| == 2 && r.events[0] == RequestLogged(MetaOf(req))
    ensures r.events != [] && handled.Emitted? ==>
              r.events[1] == ResponseLogged(MetaOf(req), res.statusCode, DurationMs(req.startAt, diff), res.contentLength)
    ensures r.events != [] && handled.Raised? ==>
              r.events[1] == ErrorLogged(handled.error.stack, MetaOf(req),
                                         ErrorStatus(handled.error.status, res.statusCode),
                                         DurationMs(req.startAt, diff))
  {
    var path := PathOf(req.originalUrl, req.url);
    if IsHealthPath(path) then Intercepted([], handled)
    else
      var meta := MetaOf(req);
      var duration := DurationMs(req.startAt, diff);
      var last := match handled
        case Emitted(_) => ResponseLogged(meta, res.statusCode, duration, res.contentLength)
        case Raised(err) => ErrorLogged(err.stack, meta, ErrorStatus(err.status, res.statusCode), duration);
      Intercepted([RequestLogged(meta), last], handled)
  }

  /** The entries of one request are exclusive: a success never logs an
      error and a failure never logs a response; every entry carries the
      same request metadata. */
  lemma OneOutcomeLogged<T>(req: IncomingRequest, res: OutgoingResponse, handled: Outcome<T>, diff: HrTime)
    ensures var events := Intercept(req, res, handled, diff).events;
            && (handled.Emitted? ==> forall e :: e in events ==> !e.ErrorLogged?)
            && (handled.Raised? ==> forall e :: e in events ==> !e.ResponseLogged?)
            && (forall e :: e in events ==> e.meta == MetaOf(req))
            && (forall k :: 0 < k < |events| ==> !events[k].RequestLogged?)
  {
  }

  /** The request of the interceptor's examples. */
  function ExampleRequest(url: string): IncomingRequest {
    IncomingRequest(Some("req-123"), "GET", None, Some(url), Some("1.2.3.4"), Some("127.0.0.1"),
                    Some(AuthUser(Some("user-abc"))), Some("JestTest"), Some(HrTime(1, 2)))
  }

  /** The metadata of the example request. */
  lemma ExampleMeta()
    ensures MetaOf(ExampleRequest("/api/things"))
            == RequestMeta(Some("req-123"), "GET", "/api/things", Some("1.2.3.4"),
                           Some("user-abc"), Some("JestTest"))
  {
    ClientIpSingle();
  }

  /** A health check passes the handler's value through and logs nothing. */
  lemma InterceptHealthExample()
    ensures Intercept(ExampleRequest("/health"), OutgoingResponse(Some(200), Some("123")),
                      Emitted("ok"), HrTime(0, 5000000))
            == Intercepted([], Emitted("ok"))
  {
  }

  /** A success logs the request, then the response with status 200, a
      duration of 5 ms and the content length. */
  lemma InterceptSuccessExample()
    ensures var meta := RequestMeta(Some("req-123"), "GET", "/api/things", Some("1.2.3.4"),
                                    Some("user-abc"), Some("JestTest"));
            Intercept(ExampleRequest("/api/things"), OutgoingResponse(Some(200), Some("123")),
                      Emitted(true), HrTime(0, 5000000))
            == Intercepted([RequestLogged(meta), ResponseLogged(meta, Some(200), Some(5), Some("123"))],
                           Emitted(true))
  {
    DurationExample();
    ExampleMeta();
    HealthPathExamples();
  }

  /** A failure with status 418 logs the request, then the error with its
      stack, status 418 and a duration of 5 ms, and the error reaches the
      caller. */
  lemma InterceptFailureExample()
    ensures var meta := RequestMeta(Some("req-123"), "GET", "/api/things", Some("1.2.3.4"),
                                    Some("user-abc"), Some("JestTest"));
            var failed: Outcome<bool> := Raised(HandlerError(Some(418), Some("stack-trace")));
            Intercept(ExampleRequest("/api/things"), OutgoingResponse(Some(200), Some("123")),
                      failed, HrTime(0, 5000000))
            == Intercepted([RequestLogged(meta), ErrorLogged(Some("stack-trace"), meta, 418, Some(5))], failed)
  {
    DurationExample();
    ExampleMeta();
    HealthPathExamples();
  }
}

/** The request-context middleware: it gives each request an id (the
    caller's `x-request-id` or a fresh UUID), echoes it on the response,
    stamps the start time and passes control on. */
module RequestContext {
  import opened Common

  const RequestIdHeader := "x-request-id"

  /** `headerId || randomUUID()`: a non-empty header wins, otherwise the
      generated id. */
  function SelectRequestId(headerId: Option<string>, generated: string): (id: string)
    ensures headerId.Some? && headerId.value != "" ==> id == headerId.value
    ensures headerId.None? || headerId.value == "" ==> id == generated
  {
    if headerId.Some? && headerId.value != "" then headerId.value else generated
  }

  /** Whenever the generator never hands out an empty id, every request id
      is non-empty, whether it came from the header or the generator. */
  lemma RequestIdNeverEmpty(headerId: Option<string>, generated: string)
    requires generated != ""
    ensures SelectRequestId(headerId, generated) != ""
  {
  }

  /** The header lookup of the request: the value under a (lower-case) name,
      if the request carries it. */
  function Header(headers: map<string, string>, name: string): (v: Option<string>)
    ensures v.Some? <==> name in headers
    ensures v.Some? ==> v.value == headers[name]
  {
    if name in headers then Some(headers[name]) else None
  }

  /** The request fields the middleware reads and assigns. */
  class HttpRequest {
    const headers: map<string, string>
    var id: Option<string>
    var startAt: Option<HrTime>

    constructor (headers: map<string, string>)
      ensures this.headers == headers && id == None && startAt == None
    {
      this.headers := headers;
      id := None;
      startAt := None;
    }
  }

  /** The response headers set so far. */
  class HttpResponse {
    var headers: map<string, string>

    constructor ()
      ensures headers == map[]
    {
      headers := map[];
    }

    method SetHeader(name: string, value: string)
      modifies this
      ensures headers == old(headers)[name := value]
    {
      headers := headers[name := value];
    }
  }

  /** `randomUUID`: the `k`-th call returns `generate(k)`. */
  class UuidSource {
    const generate: nat -> string
    var calls: nat

    constructor (generate: nat -> string)
      ensures this.generate == generate && calls == 0
    {
      this.generate := generate;
      calls := 0;
    }

    method RandomUuid() returns (uuid: string)
      modifies this
      ensures uuid == generate(old(calls))
      ensures calls == old(calls) + 1
    {
      uuid := generate(calls);
      calls := calls + 1;
    }
  }

  /** `next`: counts its calls and records the request id, start time and
      echoed header that it finds when called. */
  class NextFunction {
    var calls: nat
    var seenId: Option<string>
    var seenStartAt: Option<HrTime>
    var seenResponseId: Option<string>

    constructor ()
      ensures calls == 0 && seenId == None && seenStartAt == None && seenResponseId == None
    {
      calls := 0;
      seenId := None;
      seenStartAt := None;
      seenResponseId := None;
    }

    method Call(req: HttpRequest, res: HttpResponse)
      modifies this
      ensures calls == old(calls) + 1
      ensures seenId == req.id && seenStartAt == req.startAt
      ensures seenResponseId == Header(res.headers, RequestIdHeader)
    {
      calls := calls + 1;
      seenId := req.id;
      seenStartAt := req.startAt;
      seenResponseId := Header(res.headers, RequestIdHeader);
    }
  }

  /** use: the request id is the caller's non-empty `x-request-id`, with no
      UUID generated, or else exactly one freshly generated UUID; the
      response echoes that id; the start time is the clock reading `now`;
      and `next` runs once, after all of these are in place. */
  method Use(req: HttpRequest, res: HttpResponse, next: NextFunction, uuids: UuidSource, now: HrTime)
    modifies req, res, next, uuids
    ensures var headerId := Header(req.headers, RequestIdHeader);
            && (headerId.Some? && headerId.value != "" ==>
                  req.id == headerId && uuids.calls == old(uuids.calls))
            && (headerId.None? || headerId.value == "" ==>
                  req.id == Some(uuids.generate(old(uuids.calls))) && uuids.calls == old(uuids.calls) + 1)
    ensures req.id == Some(SelectRequestId(Header(req.headers, RequestIdHeader), uuids.generate(old(uuids.calls))))
    ensures res.headers == old(res.headers)[RequestIdHeader := req.id.value]
    ensures req.startAt == Some(now)
    ensures next.calls == old(next.calls) + 1
    ensures next.seenId == req.id && next.seenStartAt == Some(now)
    ensures next.seenResponseId == req.id
  {
    var headerId := Header(req.headers, RequestIdHeader);
    var id: string;
    if headerId.Some? && headerId.value != "" {
      id := headerId.value;
    } else {
      id := uuids.RandomUuid();
    }
    req.id := Some(id);
    res.SetHeader(RequestIdHeader, id);
    req.startAt := Some(now);
    next.Call(req, res);
  }

  /** The two middleware examples: a caller-supplied id is kept, echoed
      and no UUID is generated; without one, the first generated UUID is
      used and echoed, and the generator has been called once in all. */
  method UseExamples(generate: nat -> string)
    returns (kept: Option<string>, keptEcho: Option<string>,
             generated: Option<string>, generatedEcho: Option<string>, uuidCalls: nat)
    requires generate(0) == "11111111-1111-1111-1111-111111111111"
    ensures kept == keptEcho == Some("abcd1234-1111-2222-3333-444455556666")
    ensures generated == generatedEcho == Some("11111111-1111-1111-1111-111111111111")
    ensures uuidCalls == 1
  {
    var given := "abcd1234-1111-2222-3333-444455556666";
    var req := new HttpRequest(map[RequestIdHeader := given]);
    var res := new HttpResponse();
    var next := new NextFunction();
    var uuids := new UuidSource(generate);
    Use(req, res, next, uuids, HrTime(1, 2));
    assert req.id == Some(given) && uuids.calls == 0;
    kept := req.id;
    keptEcho := Header(res.headers, RequestIdHeader);

    var bare := new HttpRequest(map[]);
    var res2 := new HttpResponse();
    var next2 := new NextFunction();
    Use(bare, res2, next2, uuids, HrTime(1, 2));
    generated := bare.id;
    generatedEcho := Header(res2.headers, RequestIdHeader);
    uuidCalls := uuids.calls;
  }
}

/**
 * Requests reaching the local server once its router block has run: what
 * `handle` does with the runtime's own calls (`/next`, the response post,
 * the two error posts) and with an API call for the proxy, under the
 * registration as written and under the corrected one.
 */
module Serving {
  import opened Wrappers
  import opened Router
  import opened LocalRoutes
  import CustomRuntime
  import Gateway

  /**
   * What the server's `handle` does with a request of method `methodName`
   * on `path` when its tables are those of the router block: the first
   * route that is the catch-all or the route `findMatched` chose, run with
   * the parameters `findMatched` left behind.
   */
  function Served(fixed: bool, methodName: string, path: string, re: (string, string) -> bool): Outcome<Endpoint> {
    match ValueOf(methodName)
    case None => Respond(ErrorResponse(500, methodName))
    case Some(m) =>
      var t := Table(fixed, m);
      var req := RequestParts(path);
      var bucket := KeysWithCount(t, |req|);
      match Select(t, LastMatch(bucket, req, re))
      case None => Respond(NotFound())
      case Some(i) =>
        Dispatch(t[i].key, t[i].handler, if i == 0 && t[0].key == "*" then map[] else LastCaptures(bucket, req, re, map[]))
  }

  /** The local server answering one request: the router block, then `handle`. */
  method Serve(fixed: bool, methodName: string, path: string, re: (string, string) -> bool) returns (out: Outcome<Endpoint>)
    ensures out == Served(fixed, methodName, path, re)
  {
    var server := Wire(fixed);
    out := server.Handle(methodName, path, re);
  }

  // ---------------------------------------------------------------------------
  // Request paths and route parts
  // ---------------------------------------------------------------------------

  /** A request path of four separator-free pieces, behind one leading slash. */
  lemma PartsOfFourPath(a: string, b: string, c: string, d: string)
    requires '/' !in a && '/' !in b && '/' !in c && '/' !in d && a != "" && d != ""
    ensures RequestParts("/" + a + "/" + b + "/" + c + "/" + d) == [a, b, c, d]
  {
    var x := a + "/" + b + "/" + c + "/" + d;
    assert "/" + a + "/" + b + "/" + c + "/" + d == "/" + x;
    assert x[0] == a[0] && x[|x| - 1] == d[|d| - 1];
    StripSlashesAround(x);
    PiecesOfFour(a, b, c, d);
  }

  /** A request path of five separator-free pieces, behind one leading slash. */
  lemma PartsOfFivePath(a: string, b: string, c: string, d: string, e: string)
    requires '/' !in a && '/' !in b && '/' !in c && '/' !in d && '/' !in e && a != "" && e != ""
    ensures RequestParts("/" + a + "/" + b + "/" + c + "/" + d + "/" + e) == [a, b, c, d, e]
  {
    var x := a + "/" + b + "/" + c + "/" + d + "/" + e;
    assert "/" + a + "/" + b + "/" + c + "/" + d + "/" + e == "/" + x;
    assert x[0] == a[0] && x[|x| - 1] == e[|e| - 1];
    StripSlashesAround(x);
    PiecesOfFive(a, b, c, d, e);
  }

  /** The error report URL under `base`, its literal pieces passed in as `gs == g + "/"` and `se == "/" + e`. */
  lemma ErrorShape(base: string, a: string, b: string, g: string, gs: string, id: string, e: string, se: string)
    requires base == "/" + a + "/" + b && gs == g + "/" && se == "/" + e
    ensures base + "/" + (gs + id) + se == "/" + a + "/" + b + "/" + g + "/" + id + "/" + e
  {
  }

  /** The init error URL under `base`, its literal piece passed in as `se == "/" + e`. */
  lemma InitShape(base: string, a: string, b: string, g: string, e: string, se: string)
    requires base == "/" + a + "/" + b && se == "/" + e
    ensures base + "/" + g + se == "/" + a + "/" + b + "/" + g + "/" + e
  {
  }

  /** The result post URL under `base`, its literal pieces passed in as `sgs == "/" + g + "/"` and `se == "/" + e`. */
  lemma ResponseShape(base: string, a: string, b: string, g: string, sgs: string, id: string, e: string, se: string)
    requires base == "/" + a + "/" + b && sgs == "/" + g + "/" && se == "/" + e
    ensures base + sgs + id + se == "/" + a + "/" + b + "/" + g + "/" + id + "/" + e
  {
  }

  /** The poll URL under `base`, its literal piece passed in as `sgn == "/" + g + "/" + n`. */
  lemma NextShape(base: string, a: string, b: string, g: string, n: string, sgn: string)
    requires base == "/" + a + "/" + b && sgn == "/" + g + "/" + n
    ensures base + sgn == "/" + a + "/" + b + "/" + g + "/" + n
  {
  }

  /** The path part of the runtime's base URL. */
  lemma RuntimePathPieces()
    ensures RuntimePath == "/" + Date + "/" + "runtime"
    ensures '/' !in Date && Date != ""
  {
    assert RuntimePath == "/" + (Date + "/" + "runtime");
  }

  /** The runtime's error report for invocation `id`, as the server splits it. */
  lemma ErrorUrlParts(id: string)
    requires '/' !in id
    ensures RequestParts(CustomRuntime.ErrorUrl(RuntimePath, Some(id))) == [Date, "runtime", "invocation", id, "error"]
  {
    RuntimePathPieces();
    ErrorShape(RuntimePath, Date, "runtime", "invocation", "invocation/", id, "error", "/error");
    PartsOfFivePath(Date, "runtime", "invocation", id, "error");
  }

  /** The runtime's initialisation error report, as the server splits it. */
  lemma InitUrlParts()
    ensures RequestParts(CustomRuntime.ErrorUrl(RuntimePath, None)) == [Date, "runtime", "init", "error"]
  {
    RuntimePathPieces();
    InitShape(RuntimePath, Date, "runtime", "init", "error", "/error");
    PartsOfFourPath(Date, "runtime", "init", "error");
  }

  /** The runtime's result post for invocation `id`, as the server splits it. */
  lemma ResponseUrlParts(id: string)
    requires '/' !in id
    ensures RequestParts(CustomRuntime.ResponseUrl(RuntimePath, id)) == [Date, "runtime", "invocation", id, "response"]
  {
    RuntimePathPieces();
    ResponseShape(RuntimePath, Date, "runtime", "invocation", "/invocation/", id, "response", "/response");
    PartsOfFivePath(Date, "runtime", "invocation", id, "response");
  }

  /** The runtime's poll for the next event, as the server splits it. */
  lemma NextUrlParts()
    ensures RequestParts(CustomRuntime.NextUrl(RuntimePath)) == [Date, "runtime", "invocation", "next"]
  {
    RuntimePathPieces();
    NextShape(RuntimePath, Date, "runtime", "invocation", "next", "/invocation/next");
    PartsOfFourPath(Date, "runtime", "invocation", "next");
  }

  /** The parts `RoutePart` builds for the pieces of the runtime keys. */
  lemma PieceParts()
    ensures PartOf(Date) == LiteralPart(Date)
    ensures PartOf("runtime") == LiteralPart("runtime")
    ensures PartOf("invocation") == LiteralPart("invocation")
    ensures PartOf("init") == LiteralPart("init")
    ensures PartOf("next") == LiteralPart("next")
    ensures PartOf("error") == LiteralPart("error")
    ensures PartOf("response") == LiteralPart("response")
    ensures PartOf(":requestId") == ParamPart("requestId")
    ensures PartOf("*") == LiteralPart("*")
  {
    assert ":requestId"[1..] == "requestId";
  }

  /** The parts of the key whose pieces are `a, b, c, d`. */
  lemma PartsOfFourPieces(k: string, a: string, b: string, c: string, d: string)
    requires Pieces(k) == [a, b, c, d]
    ensures PartsOf(k) == [PartOf(a), PartOf(b), PartOf(c), PartOf(d)]
  {
  }

  /** The parts of the key whose pieces are `a, b, c, d, e`. */
  lemma PartsOfFivePieces(k: string, a: string, b: string, c: string, d: string, e: string)
    requires Pieces(k) == [a, b, c, d, e]
    ensures PartsOf(k) == [PartOf(a), PartOf(b), PartOf(c), PartOf(d), PartOf(e)]
  {
  }

  /** The parts of every key of the router block. */
  lemma KeyParts()
    ensures PartsOf(NextKey(InvocationPrefix)) == [LiteralPart(Date), LiteralPart("runtime"), LiteralPart("invocation"), LiteralPart("next")]
    ensures PartsOf(ErrorKey(InvocationPrefix)) ==
      [LiteralPart(Date), LiteralPart("runtime"), LiteralPart("invocation"), ParamPart("requestId"), LiteralPart("error")]
    ensures PartsOf(ResponseKey(InvocationPrefix)) ==
      [LiteralPart(Date), LiteralPart("runtime"), LiteralPart("invocation"), ParamPart("requestId"), LiteralPart("response")]
    ensures PartsOf(InitKey(RuntimePrefix)) == [LiteralPart(Date), LiteralPart("runtime"), LiteralPart("init"), LiteralPart("error")]
    ensures PartsOf("*") == [LiteralPart("*")]
  {
    KeyPieces();
    PieceParts();
    PartsOfFourPieces(NextKey(InvocationPrefix), Date, "runtime", "invocation", "next");
    PartsOfFivePieces(ErrorKey(InvocationPrefix), Date, "runtime", "invocation", ":requestId", "error");
    PartsOfFivePieces(ResponseKey(InvocationPrefix), Date, "runtime", "invocation", ":requestId", "response");
    PartsOfFourPieces(InitKey(RuntimePrefix), Date, "runtime", "init", "error");
  }

  // ---------------------------------------------------------------------------
  // Matching a request against one candidate
  // ---------------------------------------------------------------------------

  /** A candidate whose parts match below `r` and stop at `r` is examined up to `r`. */
  lemma StopsAt(ps: seq<RoutePart>, req: seq<string>, re: (string, string) -> bool, r: nat)
    requires r <= |req| && r <= |ps|
    requires forall k :: 0 <= k < r ==> Matches(ps[k], req[k], re).ok
    requires r < |req| ==> r == |ps| || !Matches(ps[r], req[r], re).ok
    ensures FirstFail(ps, req, re, 0) == r
  {
  }

  // ---------------------------------------------------------------------------
  // The tables and buckets the runtime's calls meet
  // ---------------------------------------------------------------------------

  /** The runtime keys, as merged into the server. */
  predicate RuntimeKey(k: string) {
    k == NextKey(InvocationPrefix) || k == ErrorKey(InvocationPrefix) || k == ResponseKey(InvocationPrefix) || k == InitKey(RuntimePrefix)
  }

  /** The runtime routes hold runtime keys only, none of them the proxy. */
  lemma RuntimeRoutesAreRuntimeKeys(fixed: bool, m: RequestMethod)
    ensures forall e :: e in RuntimeRoutesOf(fixed, m) ==> RuntimeKey(e.key) && e.handler != Proxy
  {
  }

  /** The key of `k`'s bucket entry when it has `n` pieces. */
  function Only(k: string, n: nat): seq<string> {
    if |Pieces(k)| == n then [k] else []
  }

  lemma KeysWithCountOfOne<H>(a: Entry<H>, n: nat)
    ensures KeysWithCount([a], n) == Only(a.key, n)
  {
    assert [a][..0] == [];
    assert [] + Only(a.key, n) == Only(a.key, n);
  }

  lemma KeysWithCountOfTwo<H>(a: Entry<H>, b: Entry<H>, n: nat)
    ensures KeysWithCount([a, b], n) == Only(a.key, n) + Only(b.key, n)
  {
    assert [a, b][..1] == [a];
    KeysWithCountOfOne(a, n);
  }

  lemma KeysWithCountOfFour<H>(a: Entry<H>, b: Entry<H>, c: Entry<H>, d: Entry<H>, n: nat)
    ensures KeysWithCount([a, b, c, d], n) == Only(a.key, n) + Only(b.key, n) + Only(c.key, n) + Only(d.key, n)
  {
    assert [a, b, c, d][..3] == [a, b, c];
    assert [a, b, c][..2] == [a, b];
    KeysWithCountOfTwo(a, b, n);
  }

  /** The POST tables, as written and corrected. */
  lemma PostTables()
    ensures Table(false, POST) == [Entry(ResponseKey(InvocationPrefix), InvocationResponse)]
    ensures Table(true, POST) == [Entry(ErrorKey(InvocationPrefix), InvocationError), Entry(ResponseKey(InvocationPrefix), InvocationResponse),
                                  Entry(InitKey(RuntimePrefix), InitError), Entry("*", Proxy)]
  {
  }

  /** The GET tables, as written and corrected. */
  lemma GetTables()
    ensures Table(false, GET) == [Entry(NextKey(InvocationPrefix), NextEvent), Entry(ErrorKey(InvocationPrefix), InvocationError),
                                  Entry(InitKey(RuntimePrefix), InitError), Entry("*", Proxy)]
    ensures Table(true, GET) == [Entry(NextKey(InvocationPrefix), NextEvent), Entry("*", Proxy)]
  {
  }

  /** The POST buckets of four and five pieces. */
  lemma PostBuckets()
    ensures KeysWithCount(Table(false, POST), 4) == []
    ensures KeysWithCount(Table(false, POST), 5) == [ResponseKey(InvocationPrefix)]
    ensures KeysWithCount(Table(true, POST), 4) == [InitKey(RuntimePrefix)]
    ensures KeysWithCount(Table(true, POST), 5) == [ErrorKey(InvocationPrefix), ResponseKey(InvocationPrefix)]
  {
    PostTables();
    KeyPieces();
    var ek := Entry(ErrorKey(InvocationPrefix), InvocationError);
    var rk := Entry(ResponseKey(InvocationPrefix), InvocationResponse);
    var ik := Entry(InitKey(RuntimePrefix), InitError);
    var star := Entry("*", Proxy);
    KeysWithCountOfOne(rk, 4);
    KeysWithCountOfOne(rk, 5);
    KeysWithCountOfFour(ek, rk, ik, star, 4);
    KeysWithCountOfFour(ek, rk, ik, star, 5);
  }

  /** The GET buckets of four pieces. */
  lemma GetBuckets()
    ensures KeysWithCount(Table(false, GET), 4) == [NextKey(InvocationPrefix), InitKey(RuntimePrefix)]
    ensures KeysWithCount(Table(true, GET), 4) == [NextKey(InvocationPrefix)]
  {
    GetTables();
    KeyPieces();
    var nk := Entry(NextKey(InvocationPrefix), NextEvent);
    var ek := Entry(ErrorKey(InvocationPrefix), InvocationError);
    var ik := Entry(InitKey(RuntimePrefix), InitError);
    var star := Entry("*", Proxy);
    KeysWithCountOfFour(nk, ek, ik, star, 4);
    KeysWithCountOfTwo(nk, star, 4);
  }

  // ---------------------------------------------------------------------------
  // The runtime's calls
  // ---------------------------------------------------------------------------

  /** `valueOf` of the two methods the runtime uses. */
  lemma RuntimeMethods()
    ensures ValueOf("GET") == Some(GET) && ValueOf("POST") == Some(POST)
  {
    ValueOfMethodName(GET);
    ValueOfMethodName(POST);
  }

  /**
   * As written, the error route is registered for GET but the runtime posts
   * its error report: the POST bucket of five pieces holds only the result
   * route, whose last piece is "response", so the report is answered 404 and
   * its result never reaches the waiting request.
   */
  lemma ErrorReportNotFound(id: string, re: (string, string) -> bool)
    requires '/' !in id
    ensures Served(false, "POST", CustomRuntime.ErrorUrl(RuntimePath, Some(id)), re) == Respond(NotFound())
  {
    RuntimeMethods();
    ErrorUrlParts(id);
    KeyParts();
    PostBuckets();
    KeyLengths(InvocationPrefix);
    var req := [Date, "runtime", "invocation", id, "error"];
    var rk := ResponseKey(InvocationPrefix);
    assert !Matches(PartsOf(rk)[4], req[4], re).ok;
    assert LastMatch([rk], req, re) == None;
  }

  /** The error key matches the error report in full and captures the id. */
  lemma ErrorKeyOnErrorReport(id: string, re: (string, string) -> bool)
    ensures var req := [Date, "runtime", "invocation", id, "error"];
      FullMatch(PartsOf(ErrorKey(InvocationPrefix)), req, re) &&
      Captures(PartsOf(ErrorKey(InvocationPrefix)), req, re) == map["requestId" := id]
  {
    KeyParts();
    var req := [Date, "runtime", "invocation", id, "error"];
    var ps := PartsOf(ErrorKey(InvocationPrefix));
    StopsAt(ps, req, re, 5);
    CapturesOfFive(ps, req, 5);
  }

  /** The result key stops at the last piece of the error report, having captured the id. */
  lemma ResponseKeyOnErrorReport(id: string, re: (string, string) -> bool)
    ensures var req := [Date, "runtime", "invocation", id, "error"];
      !FullMatch(PartsOf(ResponseKey(InvocationPrefix)), req, re) &&
      Captures(PartsOf(ResponseKey(InvocationPrefix)), req, re) == map["requestId" := id]
  {
    KeyParts();
    var req := [Date, "runtime", "invocation", id, "error"];
    var ps := PartsOf(ResponseKey(InvocationPrefix));
    StopsAt(ps, req, re, 4);
    CapturesOfFive(ps, req, 4);
  }

  /** The last match of a two-key bucket whose second key does not match. */
  lemma LastMatchOfTwo(a: string, b: string, req: seq<string>, re: (string, string) -> bool)
    requires FullMatch(PartsOf(a), req, re) && !FullMatch(PartsOf(b), req, re)
    ensures LastMatch([a, b], req, re) == Some(a)
  {
    assert [a, b][..1] == [a];
    assert LastMatchIndex([a], req, re) == Some(0);
    assert LastMatchIndex([a, b], req, re) == Some(0);
  }

  /** Corrected, the error report reaches the error route with the invocation's id. */
  lemma ErrorReportDispatched(id: string, re: (string, string) -> bool)
    requires '/' !in id
    ensures Served(true, "POST", CustomRuntime.ErrorUrl(RuntimePath, Some(id)), re) ==
      Dispatch(ErrorKey(InvocationPrefix), InvocationError, map["requestId" := id])
  {
    RuntimeMethods();
    ErrorUrlParts(id);
    PostTables();
    PostBuckets();
    var req := [Date, "runtime", "invocation", id, "error"];
    var ek := ErrorKey(InvocationPrefix);
    var rk := ResponseKey(InvocationPrefix);
    ErrorKeyOnErrorReport(id, re);
    ResponseKeyOnErrorReport(id, re);
    LastMatchOfTwo(ek, rk, req, re);
  }

  /** The init error key matches the init error report in full, capturing nothing. */
  lemma InitKeyOnInitReport(re: (string, string) -> bool)
    ensures var req := [Date, "runtime", "init", "error"];
      FullMatch(PartsOf(InitKey(RuntimePrefix)), req, re) && Captures(PartsOf(InitKey(RuntimePrefix)), req, re) == map[]
  {
    KeyParts();
    var ps := PartsOf(InitKey(RuntimePrefix));
    var req := [Date, "runtime", "init", "error"];
    StopsAt(ps, req, re, 4);
    assert CapturesBefore(ps, req, 1) == map[];
    assert CapturesBefore(ps, req, 2) == map[];
    assert CapturesBefore(ps, req, 3) == map[];
  }

  /** The runtime keys capture `requestId` at their fourth piece and nothing else. */
  lemma CapturesOfFive(ps: seq<RoutePart>, req: seq<string>, k: nat)
    requires |ps| == 5 && |req| == 5 && 4 <= k <= 5
    requires ps[0].LiteralPart? && ps[1].LiteralPart? && ps[2].LiteralPart? && ps[3] == ParamPart("requestId") && ps[4].LiteralPart?
    ensures CapturesBefore(ps, req, k) == map["requestId" := req[3]]
  {
    assert CapturesBefore(ps, req, 1) == map[];
    assert CapturesBefore(ps, req, 2) == map[];
    assert CapturesBefore(ps, req, 3) == map[];
    assert CapturesBefore(ps, req, 4) == map["requestId" := req[3]];
  }

  /** A one-key bucket whose key matches. */
  lemma LastMatchOfOne(a: string, req: seq<string>, re: (string, string) -> bool)
    requires FullMatch(PartsOf(a), req, re)
    ensures LastMatch([a], req, re) == Some(a)
  {
  }

  /** As written, the initialisation error report is posted to a path no POST route has. */
  lemma InitReportNotFound(re: (string, string) -> bool)
    ensures Served(false, "POST", CustomRuntime.ErrorUrl(RuntimePath, None), re) == Respond(NotFound())
  {
    RuntimeMethods();
    InitUrlParts();
    PostTables();
    PostBuckets();
    KeyLengths(InvocationPrefix);
  }

  /** Corrected, the initialisation error report reaches the init error route. */
  lemma InitReportDispatched(re: (string, string) -> bool)
    ensures Served(true, "POST", CustomRuntime.ErrorUrl(RuntimePath, None), re) == Dispatch(InitKey(RuntimePrefix), InitError, map[])
  {
    RuntimeMethods();
    InitUrlParts();
    PostTables();
    PostBuckets();
    KeyLengths(InvocationPrefix);
    var req := [Date, "runtime", "init", "error"];
    InitKeyOnInitReport(re);
    LastMatchOfOne(InitKey(RuntimePrefix), req, re);
  }

  /** The result key matches the result post in full and captures the id. */
  lemma ResponseKeyOnResult(id: string, re: (string, string) -> bool)
    ensures var req := [Date, "runtime", "invocation", id, "response"];
      FullMatch(PartsOf(ResponseKey(InvocationPrefix)), req, re) &&
      Captures(PartsOf(ResponseKey(InvocationPrefix)), req, re) == map["requestId" := id]
  {
    KeyParts();
    var req := [Date, "runtime", "invocation", id, "response"];
    var ps := PartsOf(ResponseKey(InvocationPrefix));
    StopsAt(ps, req, re, 5);
    CapturesOfFive(ps, req, 5);
  }

  /** The error key stops at the last piece of the result post. */
  lemma ErrorKeyOnResult(id: string, re: (string, string) -> bool)
    ensures !FullMatch(PartsOf(ErrorKey(InvocationPrefix)), [Date, "runtime", "invocation", id, "response"], re)
  {
    KeyParts();
    StopsAt(PartsOf(ErrorKey(InvocationPrefix)), [Date, "runtime", "invocation", id, "response"], re, 4);
  }

  /** The last match of a two-key bucket whose second key matches. */
  lemma LastMatchOfSecond(a: string, b: string, req: seq<string>, re: (string, string) -> bool)
    requires FullMatch(PartsOf(b), req, re)
    ensures LastMatch([a, b], req, re) == Some(b)
  {
    assert LastMatchIndex([a, b], req, re) == Some(1);
  }

  /** Under either registration, the runtime's result post reaches the result route with the invocation's id. */
  lemma ResultDelivered(fixed: bool, id: string, re: (string, string) -> bool)
    requires '/' !in id
    ensures Served(fixed, "POST", CustomRuntime.ResponseUrl(RuntimePath, id), re) ==
      Dispatch(ResponseKey(InvocationPrefix), InvocationResponse, map["requestId" := id])
  {
    RuntimeMethods();
    ResponseUrlParts(id);
    PostTables();
    PostBuckets();
    KeyLengths(InvocationPrefix);
    var req := [Date, "runtime", "invocation", id, "response"];
    var ek := ErrorKey(InvocationPrefix);
    var rk := ResponseKey(InvocationPrefix);
    ResponseKeyOnResult(id, re);
    if fixed {
      LastMatchOfSecond(ek, rk, req, re);
      SelectFirst(Table(true, POST), Some(rk), 1);
    } else {
      LastMatchOfOne(rk, req, re);
    }
  }

  /** The poll key matches the poll in full, capturing nothing. */
  lemma NextKeyOnPoll(re: (string, string) -> bool)
    ensures var req := [Date, "runtime", "invocation", "next"];
      FullMatch(PartsOf(NextKey(InvocationPrefix)), req, re) && Captures(PartsOf(NextKey(InvocationPrefix)), req, re) == map[]
  {
    KeyParts();
    var ps := PartsOf(NextKey(InvocationPrefix));
    var req := [Date, "runtime", "invocation", "next"];
    StopsAt(ps, req, re, 4);
    assert CapturesBefore(ps, req, 1) == map[];
    assert CapturesBefore(ps, req, 2) == map[];
    assert CapturesBefore(ps, req, 3) == map[];
  }

  /** The init error key stops at the third piece of the poll, capturing nothing. */
  lemma InitKeyOnPoll(re: (string, string) -> bool)
    ensures var req := [Date, "runtime", "invocation", "next"];
      !FullMatch(PartsOf(InitKey(RuntimePrefix)), req, re) && Captures(PartsOf(InitKey(RuntimePrefix)), req, re) == map[]
  {
    KeyParts();
    var ps := PartsOf(InitKey(RuntimePrefix));
    var req := [Date, "runtime", "invocation", "next"];
    StopsAt(ps, req, re, 2);
    assert CapturesBefore(ps, req, 1) == map[];
  }

  /** Under either registration, the runtime's poll reaches the `/next` route. */
  lemma PollServed(fixed: bool, re: (string, string) -> bool)
    ensures Served(fixed, "GET", CustomRuntime.NextUrl(RuntimePath), re) == Dispatch(NextKey(InvocationPrefix), NextEvent, map[])
  {
    RuntimeMethods();
    NextUrlParts();
    GetTables();
    GetBuckets();
    KeyLengths(InvocationPrefix);
    var req := [Date, "runtime", "invocation", "next"];
    var nk := NextKey(InvocationPrefix);
    NextKeyOnPoll(re);
    if fixed {
      LastMatchOfOne(nk, req, re);
    } else {
      InitKeyOnPoll(re);
      LastMatchOfTwo(nk, InitKey(RuntimePrefix), req, re);
    }
  }

  // ---------------------------------------------------------------------------
  // API calls for the proxy
  // ---------------------------------------------------------------------------

  /** A request whose first segment is not the runtime date stops at the first part of every runtime key. */
  lemma RuntimeKeyMisses(k: string, req: seq<string>, re: (string, string) -> bool)
    requires RuntimeKey(k) && |req| >= 1 && req[0] != Date
    ensures k != "*"
    ensures !FullMatch(PartsOf(k), req, re) && Captures(PartsOf(k), req, re) == map[]
  {
    KeyParts();
    KeyLengths(InvocationPrefix);
    assert Date != "*";
    StopsAt(PartsOf(k), req, re, 0);
  }

  /** The catch-all captures nothing. */
  lemma StarCapturesNothing(req: seq<string>, re: (string, string) -> bool)
    requires |req| >= 1
    ensures Captures(PartsOf("*"), req, re) == map[]
  {
    KeyParts();
    assert CapturesBefore(PartsOf("*"), req, 1) == map[];
  }

  /** Every key of a bucket is a runtime key or the catch-all. */
  lemma BucketKeys(fixed: bool, m: RequestMethod, n: nat, k: string)
    requires k in KeysWithCount(Table(fixed, m), n)
    ensures RuntimeKey(k) || k == "*"
  {
    var t := Table(fixed, m);
    KeysWithCountMembers(t, n, k);
    var i :| 0 <= i < |t| && t[i].key == k;
    RuntimeRoutesAreRuntimeKeys(fixed, m);
    if i < |RuntimeRoutesOf(fixed, m)| {
      assert t[i] in RuntimeRoutesOf(fixed, m);
    }
  }

  /** Every key of every bucket is a runtime key or the catch-all. */
  lemma AllBucketKeys(fixed: bool, m: RequestMethod, n: nat)
    ensures forall k :: k in KeysWithCount(Table(fixed, m), n) ==> RuntimeKey(k) || k == "*"
  {
    forall k | k in KeysWithCount(Table(fixed, m), n) ensures RuntimeKey(k) || k == "*" {
      BucketKeys(fixed, m, n, k);
    }
  }

  /** For a request outside the runtime's paths, `findMatched` finds nothing or the catch-all. */
  lemma OutsideMatch(bucket: seq<string>, req: seq<string>, re: (string, string) -> bool)
    requires |req| >= 1 && req[0] != Date
    requires forall k :: k in bucket ==> RuntimeKey(k) || k == "*"
    ensures LastMatch(bucket, req, re) == None || LastMatch(bucket, req, re) == Some("*")
  {
    match LastMatchIndex(bucket, req, re)
    case None =>
    case Some(i) =>
      assert bucket[i] in bucket;
      if RuntimeKey(bucket[i]) {
        RuntimeKeyMisses(bucket[i], req, re);
      }
  }

  /** For a request outside the runtime's paths, `findMatched` leaves no parameters behind. */
  lemma OutsideCaptures(bucket: seq<string>, req: seq<string>, re: (string, string) -> bool)
    requires |req| >= 1 && req[0] != Date
    requires forall k :: k in bucket ==> RuntimeKey(k) || k == "*"
    ensures LastCaptures(bucket, req, re, map[]) == map[]
  {
    if bucket != [] {
      var k := bucket[|bucket| - 1];
      assert k in bucket;
      if RuntimeKey(k) {
        RuntimeKeyMisses(k, req, re);
      } else {
        StarCapturesNothing(req, re);
      }
    }
  }

  /**
   * For a request outside the runtime's paths, `findMatched` finds nothing or
   * the catch-all, and leaves no parameters behind.
   */
  lemma OutsideRuntime(fixed: bool, m: RequestMethod, req: seq<string>, re: (string, string) -> bool)
    requires |req| >= 1 && req[0] != Date
    ensures var bucket := KeysWithCount(Table(fixed, m), |req|);
      && (LastMatch(bucket, req, re) == None || LastMatch(bucket, req, re) == Some("*"))
      && LastCaptures(bucket, req, re, map[]) == map[]
  {
    AllBucketKeys(fixed, m, |req|);
    OutsideMatch(KeysWithCount(Table(fixed, m), |req|), req, re);
    OutsideCaptures(KeysWithCount(Table(fixed, m), |req|), req, re);
  }

  /** Neither an unmatched request nor the catch-all picks a runtime route. */
  lemma RuntimeRoutesNotPicked(fixed: bool, m: RequestMethod, matched: Option<string>)
    requires matched == None || matched == Some("*")
    ensures forall j :: 0 <= j < |RuntimeRoutesOf(fixed, m)| ==> !Picks(RuntimeRoutesOf(fixed, m)[j].key, matched)
  {
    RuntimeRoutesAreRuntimeKeys(fixed, m);
    KeyLengths(InvocationPrefix);
    forall j | 0 <= j < |RuntimeRoutesOf(fixed, m)|
      ensures !Picks(RuntimeRoutesOf(fixed, m)[j].key, matched)
    {
      assert RuntimeRoutesOf(fixed, m)[j] in RuntimeRoutesOf(fixed, m);
    }
  }

  /**
   * As written, the catch-all is registered for GET only: a request of any
   * other method outside the runtime's paths is answered 404 instead of
   * being handed to a worker.
   */
  lemma ApiCallNotFound(m: RequestMethod, path: string, re: (string, string) -> bool)
    requires m != GET && RequestParts(path)[0] != Date
    ensures Served(false, MethodName(m), path, re) == Respond(NotFound())
  {
    ValueOfMethodName(m);
    NotProxied(false, m);
    var req := RequestParts(path);
    OutsideRuntime(false, m, req, re);
    RuntimeRoutesNotPicked(false, m, LastMatch(KeysWithCount(Table(false, m), |req|), req, re));
  }

  /**
   * As written, only GET requests reach the proxy route, so the proxy's
   * branch that reads a body for POST, PUT and PATCH is never taken.
   */
  lemma ProxyOnlyForGet(m: RequestMethod, path: string, re: (string, string) -> bool)
    ensures var out := Served(false, MethodName(m), path, re);
      out.Dispatch? && out.handler == Proxy ==> m == GET && !Gateway.CarriesBody(m)
  {
    ValueOfMethodName(m);
    if m != GET {
      NotProxied(false, m);
      RuntimeRoutesAreRuntimeKeys(false, m);
      var t := Table(false, m);
      forall i | 0 <= i < |t| ensures t[i].handler != Proxy {
        assert t[i] in RuntimeRoutesOf(false, m);
      }
    }
  }

  /**
   * Corrected, a request of any method outside the runtime's paths reaches
   * the proxy route, without parameters.
   */
  lemma ApiCallProxied(m: RequestMethod, path: string, re: (string, string) -> bool)
    requires RequestParts(path)[0] != Date
    ensures Served(true, MethodName(m), path, re) == Dispatch("*", Proxy, map[])
  {
    ValueOfMethodName(m);
    var req := RequestParts(path);
    var t := Table(true, m);
    var r := RuntimeRoutesOf(true, m);
    var matched := LastMatch(KeysWithCount(t, |req|), req, re);
    OutsideRuntime(true, m, req, re);
    RuntimeRoutesNotPicked(true, m, matched);
    assert t[|r|] == Entry("*", Proxy);
    SelectFirst(t, matched, |r|);
  }
}

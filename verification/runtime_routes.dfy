/**
 * The routes of the runtime interface as the local gateway serves them, and
 * their templating: every `:name` segment of a route is filled in from a
 * parameter map.
 */
module RuntimeRoutes {
  import opened Text

  datatype RuntimeRoute = Next | Response | InvocationError | InitializeError

  /** `values()`, in declaration order. */
  const AllRoutes: seq<RuntimeRoute> := [Next, Response, InvocationError, InitializeError]

  /** The route template each constant is declared with. */
  function Route(r: RuntimeRoute): string {
    match r
    case Next => "/invocation/next"
    case Response => "/invocation/:requestId/response"
    case InvocationError => "/invocation/:requestId/error"
    case InitializeError => "/init/error"
  }

  /** `toString()`: the route template, which names the constant uniquely. */
  function ToString(r: RuntimeRoute): (s: string)
    ensures |s| > 0 && s[0] == '/'
    ensures forall o :: Route(o) == s ==> o == r
  {
    Route(r)
  }

  /** A segment that names a parameter. */
  predicate IsParamSegment(segment: string) {
    StartsWith(segment, ":")
  }

  /** A segment as `paramFunctions` keeps it: the parameter name without its colon, or the segment itself. */
  function Fixed(segment: string): string {
    if IsParamSegment(segment) then segment[1..] else segment
  }

  /** The segments of a route, after dropping one leading `/`. */
  function Segments(route: string): seq<string> {
    Split(if StartsWith(route, "/") then route[1..] else route, '/')
  }

  function FixedParts(segments: seq<string>): (r: seq<string>)
    ensures |r| == |segments|
    ensures forall i :: 0 <= i < |segments| ==> r[i] == Fixed(segments[i])
  {
    seq(|segments|, i requires 0 <= i < |segments| => Fixed(segments[i]))
  }

  predicate HasParam(segments: seq<string>) {
    exists i :: 0 <= i < |segments| && IsParamSegment(segments[i])
  }

  /** Fixing the segments changes them exactly when one of them is a parameter. */
  lemma FixedPartsChangeOnlyParams(segments: seq<string>)
    ensures FixedParts(segments) == segments <==> !HasParam(segments)
  {
    if HasParam(segments) {
      var i :| 0 <= i < |segments| && IsParamSegment(segments[i]);
      assert |FixedParts(segments)[i]| == |segments[i]| - 1;
    }
  }

  /** A route gets a `paramFunctions` entry iff one of its segments is a parameter. */
  predicate Templated(r: RuntimeRoute) {
    HasParam(Segments(Route(r)))
  }

  /** The entry of a templated route: its segments, parameter names without colons. */
  function Template(r: RuntimeRoute): seq<string> {
    FixedParts(Segments(Route(r)))
  }

  /** A route of two separator-free segments. */
  lemma SegmentsOfTwo(a: string, b: string)
    requires '/' !in a && '/' !in b
    ensures Segments("/" + a + "/" + b) == [a, b]
  {
    assert ("/" + a + "/" + b)[1..] == a + "/" + b;
    SplitAfterPiece(a, '/', b);
    SplitWithoutSep(b, '/');
  }

  /** A route of three separator-free segments. */
  lemma SegmentsOfThree(a: string, b: string, c: string)
    requires '/' !in a && '/' !in b && '/' !in c
    ensures Segments("/" + a + "/" + b + "/" + c) == [a, b, c]
  {
    assert ("/" + a + "/" + b + "/" + c)[1..] == a + "/" + (b + "/" + c);
    SplitAfterPiece(a, '/', b + "/" + c);
    SplitAfterPiece(b, '/', c);
    SplitWithoutSep(c, '/');
  }

  lemma SegmentsOfFour(a: string, b: string, c: string, d: string)
    requires '/' !in a && '/' !in b && '/' !in c && '/' !in d
    ensures Segments("/" + a + "/" + b + "/" + c + "/" + d) == [a, b, c, d]
  {
    assert ("/" + a + "/" + b + "/" + c + "/" + d)[1..] == a + "/" + (b + "/" + (c + "/" + d));
    SplitAfterPiece(a, '/', b + "/" + (c + "/" + d));
    SplitAfterPiece(b, '/', c + "/" + d);
    SplitAfterPiece(c, '/', d);
    SplitWithoutSep(d, '/');
  }

  /**
   * The finished `paramFunctions` map: only `RESPONSE` and `INVOCATION_ERROR`
   * carry a parameter, and in both it is `requestId`.
   */
  function ParamTable(): map<RuntimeRoute, seq<string>> {
    map[Response := ["invocation", "requestId", "response"],
        InvocationError := ["invocation", "requestId", "error"]]
  }

  /** Dropping the colon of a segment adds no character to it. */
  lemma FixedKeepsOut(segment: string, c: char)
    requires c !in segment
    ensures c !in Fixed(segment)
  {
    if IsParamSegment(segment) {
      forall k | 0 <= k < |segment[1..]|
        ensures segment[1..][k] != c
      {
        assert segment[1..][k] == segment[k + 1];
      }
    }
  }

  /** `NEXT` has the fixed segments `invocation` and `next`. */
  lemma NextSegments()
    ensures !HasParam(Segments("/invocation/next"))
  {
    assert "/invocation/next" == "/" + "invocation" + "/" + "next";
    SegmentsOfTwo("invocation", "next");
    var s := Segments("/invocation/next");
    assert !IsParamSegment(s[0]) && !IsParamSegment(s[1]);
  }

  /** `INITIALIZE_ERROR` has the fixed segments `init` and `error`. */
  lemma InitializeErrorSegments()
    ensures !HasParam(Segments("/init/error"))
  {
    assert "/init/error" == "/" + "init" + "/" + "error";
    SegmentsOfTwo("init", "error");
    var s := Segments("/init/error");
    assert !IsParamSegment(s[0]) && !IsParamSegment(s[1]);
  }

  /** A route whose middle segment alone is the parameter `requestId`. */
  lemma RequestIdTemplate(last: string)
    requires |last| > 0 && last[0] != ':' && '/' !in last
    ensures var s := Segments("/" + "invocation" + "/" + ":requestId" + "/" + last);
      HasParam(s) && FixedParts(s) == ["invocation", "requestId", last]
  {
    SegmentsOfThree("invocation", ":requestId", last);
    var s := Segments("/" + "invocation" + "/" + ":requestId" + "/" + last);
    assert !IsParamSegment(last) by {
      assert last[..1][0] != ":"[0];
    }
    assert IsParamSegment(s[1]);
    assert !IsParamSegment(s[0]);
    assert Fixed(s[1]) == "requestId";
  }

  /** `RESPONSE` has the parameter `requestId` between `invocation` and `response`. */
  lemma ResponseSegments()
    ensures HasParam(Segments("/invocation/:requestId/response"))
    ensures FixedParts(Segments("/invocation/:requestId/response")) == ["invocation", "requestId", "response"]
  {
    assert "/invocation/:requestId/response" == "/" + "invocation" + "/" + ":requestId" + "/" + "response";
    RequestIdTemplate("response");
  }

  /** `INVOCATION_ERROR` has the parameter `requestId` between `invocation` and `error`. */
  lemma InvocationErrorSegments()
    ensures HasParam(Segments("/invocation/:requestId/error"))
    ensures FixedParts(Segments("/invocation/:requestId/error")) == ["invocation", "requestId", "error"]
  {
    assert "/invocation/:requestId/error" == "/" + "invocation" + "/" + ":requestId" + "/" + "error";
    RequestIdTemplate("error");
  }

  /** A route has an entry iff one of its segments is a parameter, and the entry is its segments with the colon dropped. */
  lemma ParamTableFromRoutes(r: RuntimeRoute)
    ensures r in ParamTable() <==> Templated(r)
    ensures r in ParamTable() ==> ParamTable()[r] == Template(r)
  {
    match r
    case Next => NextSegments();
    case InitializeError => InitializeErrorSegments();
    case Response => ResponseSegments();
    case InvocationError => InvocationErrorSegments();
  }

  /** The inner loop of the initializer over the segments of one route. */
  method FixSegments(parts: seq<string>) returns (fixedParts: seq<string>, add: bool)
    ensures fixedParts == FixedParts(parts)
    ensures add <==> HasParam(parts)
  {
    add := false;
    fixedParts := [];
    for j := 0 to |parts|
      invariant fixedParts == FixedParts(parts[..j])
      invariant add <==> HasParam(parts[..j])
    {
      assert parts[..j + 1] == parts[..j] + [parts[j]];
      if StartsWith(parts[j], ":") {
        add := true;
        fixedParts := fixedParts + [parts[j][1..]];
      } else {
        fixedParts := fixedParts + [parts[j]];
      }
    }
    assert parts[..|parts|] == parts;
  }

  /** `table` holds the entries of exactly the first `i` routes that have one. */
  ghost predicate BuiltUpTo(table: map<RuntimeRoute, seq<string>>, i: nat)
    requires i <= |AllRoutes|
  {
    forall r :: (r in table <==> r in AllRoutes[..i] && r in ParamTable()) && (r in table ==> table[r] == ParamTable()[r])
  }

  /** Storing the entry of route `i` when it has one extends the table by that route. */
  lemma BuiltStep(table: map<RuntimeRoute, seq<string>>, i: nat, add: bool, fixedParts: seq<string>)
    requires i < |AllRoutes| && BuiltUpTo(table, i)
    requires add <==> AllRoutes[i] in ParamTable()
    requires add ==> fixedParts == ParamTable()[AllRoutes[i]]
    ensures BuiltUpTo(if add then table[AllRoutes[i] := fixedParts] else table, i + 1)
  {
    assert AllRoutes[..i + 1] == AllRoutes[..i] + [AllRoutes[i]];
  }

  /** Having visited every route, the table is complete. */
  lemma BuiltAll(table: map<RuntimeRoute, seq<string>>)
    requires BuiltUpTo(table, |AllRoutes|)
    ensures table == ParamTable()
  {
    assert AllRoutes[..|AllRoutes|] == AllRoutes;
    forall r | r in ParamTable()
      ensures r in AllRoutes
    {
      match r
      case Next =>
      case Response =>
      case InvocationError =>
      case InitializeError =>
    }
  }

  /**
   * The lazy `paramFunctions` initializer: for each route in declaration
   * order, split it into segments, record them with parameter colons dropped
   * and note whether any segment was a parameter; only then is the list
   * stored for the route.
   */
  method BuildParamFunctions() returns (table: map<RuntimeRoute, seq<string>>)
    ensures table == ParamTable()
  {
    table := map[];
    for i := 0 to |AllRoutes|
      invariant BuiltUpTo(table, i)
    {
      var r := AllRoutes[i];
      var route := Route(r);
      var parts := Split(if StartsWith(route, "/") then route[1..] else route, '/');
      var fixedParts, add := FixSegments(parts);
      ParamTableFromRoutes(r);
      BuiltStep(table, i, add, fixedParts);
      if add {
        table := table[r := fixedParts];
      }
    }
    BuiltAll(table);
  }

  /** Each segment replaced by its binding in `params` when it has one. */
  function Substitute(parts: seq<string>, params: map<string, string>): (r: seq<string>)
    ensures |r| == |parts|
    ensures forall i :: 0 <= i < |parts| ==> r[i] == (if parts[i] in params then params[parts[i]] else parts[i])
  {
    seq(|parts|, i requires 0 <= i < |parts| => if parts[i] in params then params[parts[i]] else parts[i])
  }

  /** Substitution leaves the segments as they are exactly when every bound segment is bound to itself. */
  lemma SubstituteKeepsUnbound(parts: seq<string>, params: map<string, string>)
    ensures Substitute(parts, params) == parts <==>
      forall i :: 0 <= i < |parts| && parts[i] in params ==> params[parts[i]] == parts[i]
  {
    if Substitute(parts, params) == parts {
      forall i | 0 <= i < |parts| && parts[i] in params
        ensures params[parts[i]] == parts[i]
      {
        assert Substitute(parts, params)[i] == parts[i];
      }
    }
  }

  /** `withParams(params)`: a templated route is rebuilt from its substituted segments; any other route is returned as declared. */
  function WithParams(r: RuntimeRoute, params: map<string, string>): string {
    var table := ParamTable();
    if r in table then "/" + Join(Substitute(table[r], params), "/") else Route(r)
  }

  /**
   * `withParams` in terms of the route text: a route with no parameter
   * segment comes back unchanged, and any other is rebuilt from its segments,
   * each (colon dropped) replaced by its binding when it has one.
   */
  lemma WithParamsMeaning(r: RuntimeRoute, params: map<string, string>)
    ensures !Templated(r) ==> WithParams(r, params) == Route(r)
    ensures Templated(r) ==> WithParams(r, params) == "/" + Join(Substitute(Template(r), params), "/")
  {
    ParamTableFromRoutes(r);
  }

  /** `"/" + [a, b, c].joinToString(sep)`, with the concatenations grouped from the left. */
  lemma JoinThree(a: string, b: string, c: string, sep: string)
    ensures Join([a, b, c], sep) == a + sep + b + sep + c
    ensures "/" + Join([a, b, c], sep) == "/" + a + sep + b + sep + c
  {
    assert [a, b, c][1..] == [b, c];
    assert [b, c][1..] == [c];
    assert Join([c], sep) == c;
    assert Join([b, c], sep) == b + sep + c;
    assert Join([a, b, c], sep) == a + sep + (b + sep + c);
    assert a + sep + (b + sep + c) == a + sep + b + sep + c;
  }

  /** `RESPONSE` and `INVOCATION_ERROR` put the bound request id in the middle segment, or its bare name when unbound. */
  lemma WithParamsRequestId(r: RuntimeRoute, params: map<string, string>)
    requires r == Response || r == InvocationError
    requires "invocation" !in params && "response" !in params && "error" !in params
    ensures var id := if "requestId" in params then params["requestId"] else "requestId";
      WithParams(r, params) == "/" + "invocation" + "/" + id + "/" + (if r == Response then "response" else "error")
  {
    var id := if "requestId" in params then params["requestId"] else "requestId";
    var last := if r == Response then "response" else "error";
    var s := Substitute(ParamTable()[r], params);
    assert s == ["invocation", id, last];
    JoinThree("invocation", id, last, "/");
  }

  /** Substitution goes by segment text: a binding for a fixed segment replaces it too. */
  lemma WithParamsReplacesFixedSegments(id: string, other: string)
    ensures WithParams(Response, map["requestId" := id, "invocation" := other]) == "/" + other + "/" + id + "/response"
  {
    var s := Substitute(ParamTable()[Response], map["requestId" := id, "invocation" := other]);
    assert s == [other, id, "response"];
    JoinThree(other, id, "response", "/");
  }

  /**
   * When no bound value contains `/`, the result of a templated route splits
   * back into exactly its substituted segments, as many as the route has.
   */
  lemma WithParamsSegments(r: RuntimeRoute, params: map<string, string>)
    requires Templated(r)
    requires forall k :: k in params ==> '/' !in params[k]
    ensures Segments(WithParams(r, params)) == Substitute(Template(r), params)
    ensures |Segments(WithParams(r, params))| == |Segments(Route(r))|
  {
    ParamTableFromRoutes(r);
    var parts := ParamTable()[r];
    var s := Substitute(parts, params);
    var segments := Segments(Route(r));
    forall i | 0 <= i < |s|
      ensures '/' !in s[i]
    {
      if parts[i] !in params {
        FixedKeepsOut(segments[i], '/');
      }
    }
    SplitJoin(s, '/');
    var w := WithParams(r, params);
    assert w == "/" + Join(s, "/");
    assert StartsWith(w, "/") && w[1..] == Join(s, "/");
  }

  /** A bound value that contains `/` adds segments: the count is kept only for values without one. */
  lemma SlashInValueAddsSegment()
    ensures |Segments(WithParams(Response, map["requestId" := "a/b"]))| == 4
  {
    var s := Substitute(ParamTable()[Response], map["requestId" := "a/b"]);
    assert s == ["invocation", "a/b", "response"];
    JoinThree("invocation", "a/b", "response", "/");
    var w := WithParams(Response, map["requestId" := "a/b"]);
    assert "a/b" == "a" + "/" + "b";
    assert w == "/" + "invocation" + "/" + "a" + "/" + "b" + "/" + "response";
    SegmentsOfFour("invocation", "a", "b", "response");
  }
}

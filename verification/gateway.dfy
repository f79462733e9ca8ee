/**
 * The local API Gateway emulation: the handler lookup a polling worker is
 * told about, the translation of an incoming HTTP request into an API Gateway
 * proxy event, and the table that correlates each waiting request with the
 * result a worker posts back.
 *
 * The regular-expression engine is a parameter `re`: `re(pattern, input)`
 * holds when `pattern` matches the whole of `input`.
 */
module Gateway {
  import opened Wrappers
  import opened Text
  import Router

  // ---------------------------------------------------------------------------
  // Handler lookup
  // ---------------------------------------------------------------------------

  /** One configured `path -> handler` pair; the path is also compiled as a regular expression. */
  datatype HandlerMatcher = HandlerMatcher(path: string, handler: string)

  /** `HandlerMatcher.matches(test)`: the compiled path is matched against the path itself, not against `test`. */
  predicate Matches(m: HandlerMatcher, test: string, re: (string, string) -> bool) {
    StartsWith(test, m.path) || re(m.path, m.path)
  }

  /** The handler configuration: a method name, or "ANY", to its matchers in configured order. */
  type Config = map<string, seq<HandlerMatcher>>

  /** The position of the first matcher of `ms` that matches `path` (`find`). */
  function FirstMatching(ms: seq<HandlerMatcher>, path: string, re: (string, string) -> bool): (r: Option<nat>)
    ensures r.Some? ==> r.value < |ms| && Matches(ms[r.value], path, re)
    ensures r.Some? ==> forall j :: 0 <= j < r.value ==> !Matches(ms[j], path, re)
    ensures r.None? ==> forall j :: 0 <= j < |ms| ==> !Matches(ms[j], path, re)
    decreases |ms|
  {
    if ms == [] then None
    else if Matches(ms[0], path, re) then Some(0)
    else
      var r := FirstMatching(ms[1..], path, re);
      if r.None? then None else Some(r.value + 1)
  }

  /** `handlers[method] ?: handlers["ANY"]`: the method's own list when configured, otherwise the "ANY" list. */
  function MatchersFor(config: Config, verb: string): Option<seq<HandlerMatcher>> {
    if verb in config then Some(config[verb])
    else if "ANY" in config then Some(config["ANY"])
    else None
  }

  /** The handler named in the `/next` reply for a request of `method` on `path`. */
  function FindHandler(config: Config, verb: string, path: string, re: (string, string) -> bool): Option<string> {
    match MatchersFor(config, verb)
    case None => None
    case Some(ms) =>
      match FirstMatching(ms, path, re)
      case None => None
      case Some(i) => Some(ms[i].handler)
  }

  /**
   * Lookup finds a handler iff the consulted list has a matching entry, and
   * then it is the handler of the first such entry in configured order.
   */
  lemma FindHandlerMeaning(config: Config, verb: string, path: string, re: (string, string) -> bool)
    ensures FindHandler(config, verb, path, re).Some? <==>
      MatchersFor(config, verb).Some? &&
      exists i :: 0 <= i < |MatchersFor(config, verb).value| && Matches(MatchersFor(config, verb).value[i], path, re)
    ensures FindHandler(config, verb, path, re).Some? ==>
      exists i :: 0 <= i < |MatchersFor(config, verb).value| &&
        Matches(MatchersFor(config, verb).value[i], path, re) &&
        (forall j :: 0 <= j < i ==> !Matches(MatchersFor(config, verb).value[j], path, re)) &&
        FindHandler(config, verb, path, re) == Some(MatchersFor(config, verb).value[i].handler)
  {
    var ms := MatchersFor(config, verb);
    if ms.Some? {
      var r := FirstMatching(ms.value, path, re);
      if r.Some? {
        assert Matches(ms.value[r.value], path, re);
      }
    }
  }

  /** A method with its own list never falls back to "ANY", even when its list matches nothing. */
  lemma FindHandlerNeverFallsBack(config: Config, verb: string, path: string, re: (string, string) -> bool, other: seq<HandlerMatcher>)
    requires verb in config && verb != "ANY"
    ensures FindHandler(config, verb, path, re) == FindHandler(config["ANY" := other], verb, path, re)
  {
  }

  /**
   * A configured path that matches itself as a pattern (any path without
   * regular-expression metacharacters does) matches every request, so the
   * first entry of the consulted list always wins.
   */
  lemma FirstSelfMatchingEntryWins(config: Config, verb: string, path: string, re: (string, string) -> bool)
    requires MatchersFor(config, verb).Some?
    requires var ms := MatchersFor(config, verb).value; |ms| > 0 && re(ms[0].path, ms[0].path)
    ensures FindHandler(config, verb, path, re) == Some(MatchersFor(config, verb).value[0].handler)
  {
  }

  /** Without a self-match, a matcher matches exactly the requests whose path starts with its configured path. */
  lemma MatchesByPrefix(m: HandlerMatcher, test: string, re: (string, string) -> bool)
    requires !re(m.path, m.path)
    ensures Matches(m, test, re) <==> StartsWith(test, m.path)
  {
  }

  // ---------------------------------------------------------------------------
  // Static assets: `path.contains(Regex("""\.\w{2,4}$"""))`
  // ---------------------------------------------------------------------------

  /** `\w`: an ASCII letter, digit or underscore. */
  predicate IsWordChar(c: char) {
    'a' <= c <= 'z' || 'A' <= c <= 'Z' || '0' <= c <= '9' || c == '_'
  }

  /** A line terminator as `$` recognises it when UNIX_LINES is off. */
  predicate IsLineTerminator(c: char) {
    c == '\n' || c == '\r' || c == '\U{0085}' || c == '\U{2028}' || c == '\U{2029}'
  }

  /**
   * Where `$` matches in `s` when MULTILINE is off: at the end, before a
   * final line terminator (but not between `\r` and `\n`), or before a final
   * `\r\n`.
   */
  predicate DollarAt(s: string, e: nat) {
    e == |s|
    || (e + 1 == |s| && IsLineTerminator(s[e]) && !(s[e] == '\n' && e > 0 && s[e - 1] == '\r'))
    || (e + 2 == |s| && s[e] == '\r' && s[e + 1] == '\n')
  }

  /** `\.\w{k}` matches the `k + 1` characters of `s` that end at `e`. */
  predicate ExtensionOfLength(s: string, e: nat, k: nat) {
    k + 1 <= e <= |s| && s[e - k - 1] == '.' && forall j :: e - k <= j < e ==> IsWordChar(s[j])
  }

  /** `\.\w{2,4}` matches a substring of `s` ending at `e`. */
  predicate ExtensionEndsAt(s: string, e: nat) {
    ExtensionOfLength(s, e, 2) || ExtensionOfLength(s, e, 3) || ExtensionOfLength(s, e, 4)
  }

  /** What `find` answers: some match of the pattern ends where `$` matches. */
  ghost predicate StaticAssetPattern(path: string) {
    exists e: nat :: e <= |path| && DollarAt(path, e) && ExtensionEndsAt(path, e)
  }

  /** The static-asset test as evaluated: `$` can only match at the last three positions. */
  predicate IsStaticAsset(path: string) {
    ExtensionEndsAt(path, |path|)
    || (|path| >= 1 && DollarAt(path, |path| - 1) && ExtensionEndsAt(path, |path| - 1))
    || (|path| >= 2 && DollarAt(path, |path| - 2) && ExtensionEndsAt(path, |path| - 2))
  }

  lemma IsStaticAssetIsPattern(path: string)
    ensures IsStaticAsset(path) <==> StaticAssetPattern(path)
  {
    if StaticAssetPattern(path) {
      var e: nat :| e <= |path| && DollarAt(path, e) && ExtensionEndsAt(path, e);
      assert e == |path| || e + 1 == |path| || e + 2 == |path|;
    }
    if IsStaticAsset(path) {
      if ExtensionEndsAt(path, |path|) {
        assert DollarAt(path, |path|);
      } else if |path| >= 1 && DollarAt(path, |path| - 1) && ExtensionEndsAt(path, |path| - 1) {
        var e: nat := |path| - 1;
        assert DollarAt(path, e) && ExtensionEndsAt(path, e);
      } else {
        var e: nat := |path| - 2;
        assert DollarAt(path, e) && ExtensionEndsAt(path, e);
      }
    }
  }

  /** A path ending in a dot and two to four word characters is a static asset, also before a final newline. */
  lemma ExtensionIsStaticAsset(stem: string, ext: string, ending: string)
    requires 2 <= |ext| <= 4 && forall j :: 0 <= j < |ext| ==> IsWordChar(ext[j])
    requires ending == "" || ending == "\n" || ending == "\r\n"
    ensures IsStaticAsset(stem + "." + ext + ending)
  {
    var s := stem + "." + ext + ending;
    var e := |stem| + 1 + |ext|;
    assert s[e - |ext| - 1] == '.';
    assert forall j :: e - |ext| <= j < e ==> s[j] == ext[j - (e - |ext|)];
    assert ExtensionOfLength(s, e, |ext|);
    assert DollarAt(s, e);
  }

  /** A path without a dot is never a static asset. */
  lemma NoDotNoAsset(path: string)
    requires '.' !in path
    ensures !IsStaticAsset(path)
  {
    forall e: nat, k: nat | k + 1 <= e <= |path|
      ensures !ExtensionOfLength(path, e, k)
    {
      assert path[e - k - 1] in path;
    }
  }

  // ---------------------------------------------------------------------------
  // The proxy event
  // ---------------------------------------------------------------------------

  /** The part of the path after its first segment with its last character dropped, set only when that part is not blank. */
  function AnyParameter(path: string): Option<map<string, string>>
    requires |path| >= 1
  {
    var rest := SubstringAfter(path[1..], '/');
    if IsBlank(rest) then None else Some(map["any" := DropLast(rest)])
  }

  /** `"/" + first segment + "/{any+}"` when the path goes on after its first segment, otherwise the path after its first character. */
  function ResourcePath(path: string): string
    requires |path| >= 1
  {
    var p := path[1..];
    var slashIndex := IndexOf(p, '/');
    "/" + (if slashIndex > -1 then p[..slashIndex] + "/{any+}" else p)
  }

  /** For a path `/first/rest`, the "any" parameter is `rest` without its last character, when `rest` is not blank. */
  lemma AnyParameterOfNested(first: string, rest: string)
    requires '/' !in first
    ensures AnyParameter("/" + first + "/" + rest) ==
      if IsBlank(rest) then None else Some(map["any" := DropLast(rest)])
  {
    var path := "/" + first + "/" + rest;
    assert path[1..] == first + "/" + rest;
    IndexOfAfter(first, '/', rest);
  }

  /** A path with a single segment has no "any" parameter. */
  lemma AnyParameterOfSingle(path: string)
    requires |path| >= 1 && '/' !in path[1..]
    ensures AnyParameter(path).None?
  {
  }

  /** For a path `/first/rest` the resource path is `/first/{any+}`; a single-segment path is its own resource path. */
  lemma ResourcePathMeaning(first: string, rest: string, single: string)
    requires '/' !in first && '/' !in single
    ensures ResourcePath("/" + first + "/" + rest) == "/" + first + "/{any+}"
    ensures ResourcePath("/" + single) == "/" + single
  {
    var path := "/" + first + "/" + rest;
    assert path[1..] == first + "/" + rest;
    IndexOfAfter(first, '/', rest);
    assert (first + "/" + rest)[..|first|] == first;
    assert ("/" + single)[1..] == single;
  }

  /** The request context of a proxy event; the mocked resource and account ids are not modelled. */
  datatype RequestContext = RequestContext(
    requestId: string, stage: string, resourcePath: string, sourceIp: string, userAgent: Option<string>)

  /** The fields of `APIGatewayProxyRequestEvent` the gateway sets. */
  datatype ProxyEvent = ProxyEvent(
    body: Option<string>,
    path: string,
    headers: map<string, string>,
    pathParameters: Option<map<string, string>>,
    httpMethod: string,
    multiValueHeaders: map<string, seq<string>>,
    queryStringParameters: Option<map<string, string>>,
    multiValueQueryStringParameters: Option<map<string, seq<string>>>,
    requestContext: RequestContext)

  /** Header names of the exchange with their values; the HTTP server never stores a name without a value. */
  ghost predicate HeadersWellFormed(headers: map<string, seq<string>>) {
    forall k :: k in headers ==> |headers[k]| > 0
  }

  /**
   * The name under which the server's `Headers` store and look up a header:
   * the first letter upper case, every other ASCII letter lower case.
   */
  function CanonicalName(name: string): string {
    if name == "" then "" else [UpperChar(name[0])] + Lower(name[1..])
  }

  /** The stored name depends only on the letters, not on their case. */
  lemma CanonicalNameOfLower(name: string)
    ensures CanonicalName(Lower(name)) == CanonicalName(name)
  {
    if name != "" {
      assert Lower(name)[0] == LowerChar(name[0]);
      assert Lower(name)[1..] == Lower(name[1..]);
      LowerIdempotent(name[1..]);
    }
  }

  /** `getFirst` ignores case: two names that lower-case alike find the same stored header. */
  lemma CanonicalNameIgnoresCase(a: string, b: string)
    requires Lower(a) == Lower(b)
    ensures CanonicalName(a) == CanonicalName(b)
  {
    CanonicalNameOfLower(a);
    CanonicalNameOfLower(b);
  }

  /** `User-Agent` is stored as `User-agent`. */
  lemma UserAgentStoredName()
    ensures CanonicalName("User-Agent") == "User-agent"
  {
    var t := "User-Agent";
    var c := CanonicalName(t);
    assert c == [UpperChar(t[0])] + Lower(t[1..]);
    assert |c| == 10;
    assert c[0] == 'U' && c[1] == 's' && c[2] == 'e' && c[3] == 'r' && c[4] == '-';
    assert c[5] == 'a' && c[6] == 'g' && c[7] == 'e' && c[8] == 'n' && c[9] == 't';
  }

  /** `requestHeaders.getFirst(name)`: the first value stored under the canonical form of `name`. */
  function GetFirst(headers: map<string, seq<string>>, name: string): (r: Option<string>)
    requires HeadersWellFormed(headers)
    ensures r.Some? <==> CanonicalName(name) in headers
    ensures r.Some? ==> r.value == headers[CanonicalName(name)][0]
  {
    if CanonicalName(name) in headers then Some(headers[CanonicalName(name)][0]) else None
  }

  /** A request body is read only for the methods that carry one. */
  predicate CarriesBody(m: Router.RequestMethod) {
    m == Router.POST || m == Router.PUT || m == Router.PATCH
  }

  /** `joinToString()` of every header's values. */
  function JoinedHeaders(headers: map<string, seq<string>>): (r: map<string, string>)
    ensures r.Keys == headers.Keys
    ensures forall k :: k in headers ==> r[k] == Join(headers[k], ", ")
  {
    map k | k in headers :: Join(headers[k], ", ")
  }

  /** A header sent once keeps its value as it is; one sent twice shows both values, in order, separated by a comma and a space. */
  lemma JoinedHeaderValues(headers: map<string, seq<string>>, k: string, v: string, w: string)
    requires k in headers
    ensures headers[k] == [v] ==> JoinedHeaders(headers)[k] == v
    ensures headers[k] == [v, w] ==> JoinedHeaders(headers)[k] == v + ", " + w
  {
    if headers[k] == [v, w] {
      assert [v, w][1..] == [w];
      assert Join([w], ", ") == w;
    }
  }

  // ---------------------------------------------------------------------------
  // Query strings
  // ---------------------------------------------------------------------------

  /** One `&`-separated piece: the key is the text before the first `=`, the value the text up to the next `=`, or empty. */
  function KeyValue(piece: string): (string, string) {
    var kv := Split(piece, '=');
    (kv[0], if |kv| > 1 then kv[1] else "")
  }

  /** The key and value of every piece of the query, in order. */
  function QueryPairs(query: string): (pairs: seq<(string, string)>)
    ensures |pairs| == |Split(query, '&')|
    ensures forall i :: 0 <= i < |pairs| ==> pairs[i] == KeyValue(Split(query, '&')[i])
  {
    var pieces := Split(query, '&');
    seq(|pieces|, i requires 0 <= i < |pieces| => KeyValue(pieces[i]))
  }

  /** A query written as `&`-joined pieces, none holding `&`, yields one pair per piece, in order. */
  lemma QueryPairsOfPieces(pieces: seq<string>)
    requires |pieces| >= 1
    requires forall i :: 0 <= i < |pieces| ==> '&' !in pieces[i]
    ensures |QueryPairs(Join(pieces, "&"))| == |pieces|
    ensures forall i :: 0 <= i < |pieces| ==> QueryPairs(Join(pieces, "&"))[i] == KeyValue(pieces[i])
  {
    SplitJoin(pieces, '&');
  }

  /** The values given for `key`, in order. */
  function ValuesOf(pairs: seq<(string, string)>, key: string): seq<string> {
    if pairs == [] then []
    else
      var last := pairs[|pairs| - 1];
      ValuesOf(pairs[..|pairs| - 1], key) + (if last.0 == key then [last.1] else [])
  }

  function PairKeys(pairs: seq<(string, string)>): set<string> {
    set i | 0 <= i < |pairs| :: pairs[i].0
  }

  /** `multiValueQueryStringParameters`: every key with all of its values, in order. */
  function MultiValues(pairs: seq<(string, string)>): map<string, seq<string>> {
    map k | k in PairKeys(pairs) :: ValuesOf(pairs, k)
  }

  /** `queryStringParameters`, as `associate` builds it: each pair in turn is put into the map. */
  function SingleValues(pairs: seq<(string, string)>): map<string, string> {
    if pairs == [] then map[]
    else
      var last := pairs[|pairs| - 1];
      SingleValues(pairs[..|pairs| - 1])[last.0 := last.1]
  }

  lemma {:induction false} ValuesOfNonEmpty(pairs: seq<(string, string)>, key: string)
    ensures |ValuesOf(pairs, key)| > 0 <==> key in PairKeys(pairs)
    decreases |pairs|
  {
    if pairs != [] {
      var init := pairs[..|pairs| - 1];
      ValuesOfNonEmpty(init, key);
      assert PairKeys(pairs) == PairKeys(init) + {pairs[|pairs| - 1].0} by {
        forall k | k in PairKeys(pairs) ensures k in PairKeys(init) + {pairs[|pairs| - 1].0} {
          var i :| 0 <= i < |pairs| && pairs[i].0 == k;
          if i < |pairs| - 1 {
            assert init[i] == pairs[i];
          }
        }
        forall k | k in PairKeys(init) ensures k in PairKeys(pairs) {
          var i :| 0 <= i < |init| && init[i].0 == k;
          assert pairs[i] == init[i];
        }
      }
    }
  }

  /**
   * The single-value map holds exactly the keys of the multi-value map, each
   * with the last of its values: a repeated key keeps the value given last.
   */
  lemma {:induction false} SingleIsLastOfMulti(pairs: seq<(string, string)>)
    ensures SingleValues(pairs).Keys == MultiValues(pairs).Keys
    ensures forall k :: k in SingleValues(pairs) ==>
      |MultiValues(pairs)[k]| > 0 && SingleValues(pairs)[k] == MultiValues(pairs)[k][|MultiValues(pairs)[k]| - 1]
    decreases |pairs|
  {
    if pairs != [] {
      var init := pairs[..|pairs| - 1];
      var last := pairs[|pairs| - 1];
      SingleIsLastOfMulti(init);
      forall k
        ensures k in SingleValues(pairs) <==> k in MultiValues(pairs)
        ensures k in SingleValues(pairs) ==>
          |MultiValues(pairs)[k]| > 0 && SingleValues(pairs)[k] == MultiValues(pairs)[k][|MultiValues(pairs)[k]| - 1]
      {
        ValuesOfNonEmpty(pairs, k);
        ValuesOfNonEmpty(init, k);
      }
    }
  }

  /** Adding one pair appends its value to its key's list and leaves every other key alone. */
  lemma MultiValuesStep(pairs: seq<(string, string)>, i: nat)
    requires i < |pairs|
    ensures var m := MultiValues(pairs[..i]);
      MultiValues(pairs[..i + 1]) == m[pairs[i].0 := (if pairs[i].0 in m then m[pairs[i].0] else []) + [pairs[i].1]]
  {
    var prefix := pairs[..i + 1];
    assert prefix[..|prefix| - 1] == pairs[..i];
    var m := MultiValues(pairs[..i]);
    var key := pairs[i].0;
    forall k
      ensures k in MultiValues(prefix) <==> k in m || k == key
      ensures k in MultiValues(prefix) ==>
        MultiValues(prefix)[k] == if k == key then (if key in m then m[key] else []) + [pairs[i].1] else m[k]
    {
      ValuesOfNonEmpty(prefix, k);
      ValuesOfNonEmpty(pairs[..i], k);
    }
  }

  /** One step of the parsing loop on both maps. */
  lemma QueryMapsStep(pairs: seq<(string, string)>, i: nat)
    requires i < |pairs|
    ensures SingleValues(pairs[..i + 1]) == SingleValues(pairs[..i])[pairs[i].0 := pairs[i].1]
    ensures var m := MultiValues(pairs[..i]);
      MultiValues(pairs[..i + 1]) == m[pairs[i].0 := (if pairs[i].0 in m then m[pairs[i].0] else []) + [pairs[i].1]]
  {
    var prefix := pairs[..i + 1];
    assert prefix[..|prefix| - 1] == pairs[..i];
    assert prefix[|prefix| - 1] == pairs[i];
    MultiValuesStep(pairs, i);
  }

  /** The query maps: both absent without a query. */
  function QueryMaps(query: Option<string>): (Option<map<string, string>>, Option<map<string, seq<string>>>) {
    if query.None? then (None, None)
    else (Some(SingleValues(QueryPairs(query.value))), Some(MultiValues(QueryPairs(query.value))))
  }

  /**
   * The query parsing of the proxy: split on `&`, each piece on `=`, append
   * each value to its key's list in the multi-value map and put it into the
   * single-value map.
   */
  method ParseQuery(query: Option<string>) returns (single: Option<map<string, string>>, multi: Option<map<string, seq<string>>>)
    ensures (single, multi) == QueryMaps(query)
  {
    if query.None? {
      return None, None;
    }
    var pieces := Split(query.value, '&');
    ghost var pairs := QueryPairs(query.value);
    var s: map<string, string> := map[];
    var mv: map<string, seq<string>> := map[];
    for i := 0 to |pieces|
      invariant s == SingleValues(pairs[..i])
      invariant mv == MultiValues(pairs[..i])
    {
      var kv := Split(pieces[i], '=');
      var key := kv[0];
      var value := if |kv| > 1 then kv[1] else "";
      assert pairs[i] == (key, value);
      QueryMapsStep(pairs, i);
      var values := if key in mv then mv[key] else [];
      mv := mv[key := values + [value]];
      s := s[key := value];
    }
    assert pairs[..|pieces|] == pairs;
    single, multi := Some(s), Some(mv);
  }

  /** Only the text between the first and second `=` is the value: anything after a second `=` is dropped. */
  lemma KeyValueOfPiece(key: string, value: string, more: string)
    requires '=' !in key && '=' !in value
    ensures KeyValue(key + "=" + value) == (key, value)
    ensures KeyValue(key + "=" + value + "=" + more) == (key, value)
    ensures KeyValue(key) == (key, "")
  {
    SplitAfterPiece(key, '=', value);
    SplitWithoutSep(value, '=');
    assert key + "=" + value + "=" + more == key + "=" + (value + "=" + more);
    SplitAfterPiece(key, '=', value + "=" + more);
    SplitAfterPiece(value, '=', more);
    SplitWithoutSep(key, '=');
  }

  /** The proxy event for a request of method `m` on `path`, as the `apply` block builds it from the parsed query maps. */
  function BuildEvent(m: Router.RequestMethod, path: string, headers: map<string, seq<string>>, body: string, requestId: string,
                      single: Option<map<string, string>>, multi: Option<map<string, seq<string>>>): (ev: ProxyEvent)
    requires |path| >= 1 && HeadersWellFormed(headers)
    ensures ev.body.Some? <==> CarriesBody(m)
    ensures ev.httpMethod == Router.MethodName(m) && ev.path == path
    ensures ev.requestContext.requestId == requestId
    ensures ev.queryStringParameters == single && ev.multiValueQueryStringParameters == multi
    ensures ev.multiValueHeaders == headers && ev.headers.Keys == headers.Keys
    ensures forall k :: k in headers ==> ev.headers[k] == Join(headers[k], ", ")
    ensures ev.pathParameters == AnyParameter(path) && ev.requestContext.resourcePath == ResourcePath(path)
    ensures ev.requestContext.stage == "dev" && ev.requestContext.sourceIp == "0.0.0.0"
    ensures ev.requestContext.userAgent == GetFirst(headers, "User-Agent")
  {
    ProxyEvent(
      if CarriesBody(m) then Some(body) else None,
      path,
      JoinedHeaders(headers),
      AnyParameter(path),
      Router.MethodName(m),
      headers,
      single,
      multi,
      RequestContext(requestId, "dev", ResourcePath(path), "0.0.0.0",
        GetFirst(headers, "User-Agent")))
  }

  /** The user agent of a request is found under the name the server stores it by, `User-agent`. */
  lemma UserAgentOfStoredHeader(m: Router.RequestMethod, agent: string, requestId: string)
    ensures BuildEvent(m, "/a", map["User-agent" := [agent]], "", requestId, None, None).requestContext.userAgent == Some(agent)
  {
    UserAgentStoredName();
  }

  /** The proxy event for a request with the raw query `query`. */
  function ToProxyEvent(m: Router.RequestMethod, path: string, query: Option<string>, headers: map<string, seq<string>>,
                        body: string, requestId: string): (ev: ProxyEvent)
    requires |path| >= 1 && HeadersWellFormed(headers)
    ensures query.None? ==> ev.queryStringParameters.None? && ev.multiValueQueryStringParameters.None?
    ensures query.Some? ==>
      ev.queryStringParameters.Some? && ev.multiValueQueryStringParameters.Some? &&
      ev.queryStringParameters.value.Keys == ev.multiValueQueryStringParameters.value.Keys
  {
    var maps := QueryMaps(query);
    match query
    case None => BuildEvent(m, path, headers, body, requestId, maps.0, maps.1)
    case Some(q) =>
      SingleIsLastOfMulti(QueryPairs(q));
      BuildEvent(m, path, headers, body, requestId, maps.0, maps.1)
  }

  // ---------------------------------------------------------------------------
  // The server's handlers
  // ---------------------------------------------------------------------------

  /** What is handed to a polling worker: the request id, the event, and the method and path used for handler lookup. */
  datatype RequestEvent = RequestEvent(id: string, event: ProxyEvent, verb: string, path: string)

  /** The reply to `/next`: status, the request-id and handler-class headers, and the event as body. */
  datatype NextReply = NextReply(status: int, requestId: string, handlerClass: Option<string>, event: ProxyEvent)

  /** `get("/next")` once an event has been taken from the hand-off queue. */
  function NextInvocation(config: Config, ev: RequestEvent, re: (string, string) -> bool): (r: NextReply)
    ensures r.status == 200 && r.requestId == ev.id && r.event == ev.event
    ensures r.handlerClass.Some? <==>
      MatchersFor(config, ev.verb).Some? &&
      exists i :: 0 <= i < |MatchersFor(config, ev.verb).value| && Matches(MatchersFor(config, ev.verb).value[i], ev.path, re)
    ensures r.handlerClass.Some? ==>
      exists i :: 0 <= i < |MatchersFor(config, ev.verb).value| &&
        Matches(MatchersFor(config, ev.verb).value[i], ev.path, re) &&
        (forall j :: 0 <= j < i ==> !Matches(MatchersFor(config, ev.verb).value[j], ev.path, re)) &&
        r.handlerClass.value == MatchersFor(config, ev.verb).value[i].handler
  {
    FindHandlerMeaning(config, ev.verb, ev.path, re);
    NextReply(200, ev.id, FindHandler(config, ev.verb, ev.path, re), ev.event)
  }

  /** `get("/init/error")`: a fixed reply with the request id "aaaa". */
  function InitError(): (r: (Router.Response, string))
    ensures r.0.status == 200 && r.0.body == "Init error" && r.1 == "aaaa"
  {
    (Router.Response(200, "Init error"), "aaaa")
  }

  /** The result a waiting request is answered with when no worker has posted one. */
  const Timeout: string := "TIMEOUT"

  /**
   * The gateway's state: `responsesMap`, which maps each accepted request's
   * id to the result it will be answered with (`ResponseLock.response`).
   */
  class LocalGateway {
    const config: Config
    var responses: map<string, string>

    constructor (config: Config)
      ensures this.config == config && responses == map[]
    {
      this.config := config;
      responses := map[];
    }

    /**
     * `get("*")` up to the hand-off: a static-asset path is answered at once
     * (with the empty 200 reply `emptyResponse` always sends) and changes
     * nothing; any other request gets a fresh correlation entry holding
     * "TIMEOUT", created before the event is offered. `accepted` says whether
     * a worker took the offer within its one-second wait.
     */
    method Accept(m: Router.RequestMethod, path: string, query: Option<string>, headers: map<string, seq<string>>,
                  body: string, requestId: string, accepted: bool)
      returns (reply: Option<Router.Response>, handedOff: Option<RequestEvent>)
      requires |path| >= 1 && HeadersWellFormed(headers)
      modifies this
      ensures IsStaticAsset(path) ==> reply == Some(Router.EmptyResponse(400)) && handedOff.None? && responses == old(responses)
      ensures !IsStaticAsset(path) ==> reply.None? && responses == old(responses)[requestId := Timeout]
      ensures !IsStaticAsset(path) && accepted ==>
        handedOff == Some(RequestEvent(requestId, ToProxyEvent(m, path, query, headers, body, requestId), Router.MethodName(m), path))
      ensures !accepted ==> handedOff.None?
    {
      if IsStaticAsset(path) {
        return Some(Router.EmptyResponse(400)), None;
      }
      var single, multi := ParseQuery(query);
      var ev := BuildEvent(m, path, headers, body, requestId, single, multi);
      responses := responses[requestId := Timeout];
      reply := None;
      handedOff := if accepted then Some(RequestEvent(requestId, ev, ev.httpMethod, ev.path)) else None;
    }

    /**
     * `post("/:requestId/response")` (and `get("/:requestId/error")`, which
     * does the same): a result for a known id replaces its entry and an
     * unknown id changes nothing, both with the empty reply. A missing id is
     * looked up as `null`, which the concurrent map refuses: the router then
     * answers with its error reply and nothing changes.
     */
    method Deliver(requestId: Option<string>, result: string) returns (reply: Router.Response)
      modifies this
      ensures requestId.Some? && requestId.value in old(responses) ==> responses == old(responses)[requestId.value := result]
      ensures !(requestId.Some? && requestId.value in old(responses)) ==> responses == old(responses)
      ensures requestId.Some? ==> reply == Router.EmptyResponse(200)
      ensures requestId.None? ==> reply == Router.ErrorResponse(500, "Internal Server Error")
    {
      if requestId.None? {
        return Router.ErrorResponse(500, "Internal Server Error");
      }
      if requestId.value in responses {
        responses := responses[requestId.value := result];
      }
      reply := Router.EmptyResponse(200);
    }

    /** The end of `get("*")`: the waiting request is answered with whatever its entry holds. */
    method Answer(requestId: string) returns (reply: Router.Response)
      requires requestId in responses
      ensures reply.status == 200 && reply.body == responses[requestId]
    {
      reply := Router.Response(200, responses[requestId]);
    }
  }

  /**
   * A request whose result a worker posts back is answered with that
   * result; one for which no result arrives, or only results for other ids,
   * is answered "TIMEOUT".
   */
  method Correlate(config: Config, path: string, headers: map<string, seq<string>>, id: string, other: string,
                   result: string, delivered: bool) returns (reply: Router.Response)
    requires |path| >= 1 && HeadersWellFormed(headers) && !IsStaticAsset(path) && other != id
    ensures reply.status == 200
    ensures reply.body == if delivered then result else Timeout
  {
    var gateway := new LocalGateway(config);
    var first, handedOff := gateway.Accept(Router.GET, path, None, headers, "", id, true);
    var _ := gateway.Deliver(Some(other), "not this one");
    if delivered {
      var _ := gateway.Deliver(Some(id), result);
    }
    reply := gateway.Answer(id);
  }
}

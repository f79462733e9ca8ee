/**
 * The local path router: routes registered per HTTP method in an
 * insertion-ordered table, bucketed by piece count at initialisation, and
 * matched segment by segment against a request path.
 *
 * The regular-expression engine is a parameter `re`: `re(pattern, input)`
 * holds when `pattern` matches the whole of `input`.
 */
module Router {
  import opened Wrappers
  import opened Text

  datatype RequestMethod = GET | HEAD | POST | PUT | PATCH | DELETE | OPTIONS | TRACE

  /** The enum's declaration order, which is also the iteration order of an EnumMap. */
  const AllMethods: seq<RequestMethod> := [GET, HEAD, POST, PUT, PATCH, DELETE, OPTIONS, TRACE]

  lemma AllMethodsListed(m: RequestMethod)
    ensures m in AllMethods
  {
    match m
    case GET => assert AllMethods[0] == m;
    case HEAD => assert AllMethods[1] == m;
    case POST => assert AllMethods[2] == m;
    case PUT => assert AllMethods[3] == m;
    case PATCH => assert AllMethods[4] == m;
    case DELETE => assert AllMethods[5] == m;
    case OPTIONS => assert AllMethods[6] == m;
    case TRACE => assert AllMethods[7] == m;
  }

  /** The enum ordinal: the position of the method in `AllMethods`. */
  function Ordinal(m: RequestMethod): (i: nat)
    ensures i < |AllMethods| && AllMethods[i] == m
  {
    match m
    case GET => 0
    case HEAD => 1
    case POST => 2
    case PUT => 3
    case PATCH => 4
    case DELETE => 5
    case OPTIONS => 6
    case TRACE => 7
  }

  lemma OrdinalOfListed(i: nat)
    requires i < |AllMethods|
    ensures Ordinal(AllMethods[i]) == i
  {
  }

  /** No method is listed twice, so a walk over `AllMethods` visits each method once. */
  lemma AllMethodsDistinct()
    ensures forall i, j :: 0 <= i < j < |AllMethods| ==> AllMethods[i] != AllMethods[j]
  {
    forall i, j | 0 <= i < j < |AllMethods|
      ensures AllMethods[i] != AllMethods[j]
    {
      OrdinalOfListed(i);
      OrdinalOfListed(j);
    }
  }

  function MethodName(m: RequestMethod): string {
    match m
    case GET => "GET"
    case HEAD => "HEAD"
    case POST => "POST"
    case PUT => "PUT"
    case PATCH => "PATCH"
    case DELETE => "DELETE"
    case OPTIONS => "OPTIONS"
    case TRACE => "TRACE"
  }

  /** `RequestMethod.valueOf(name)`: None stands for the IllegalArgumentException. */
  function ValueOf(name: string): (r: Option<RequestMethod>)
    ensures r.Some? ==> MethodName(r.value) == name
    ensures r.None? ==> forall m :: MethodName(m) != name
  {
    if name == "GET" then Some(GET)
    else if name == "HEAD" then Some(HEAD)
    else if name == "POST" then Some(POST)
    else if name == "PUT" then Some(PUT)
    else if name == "PATCH" then Some(PATCH)
    else if name == "DELETE" then Some(DELETE)
    else if name == "OPTIONS" then Some(OPTIONS)
    else if name == "TRACE" then Some(TRACE)
    else None
  }

  /** Every method name is recognised as the method it names. */
  lemma ValueOfMethodName(m: RequestMethod)
    ensures ValueOf(MethodName(m)) == Some(m)
  {
  }

  // ---------------------------------------------------------------------------
  // Responses written by the router's exchange helpers
  // ---------------------------------------------------------------------------

  datatype Response = Response(status: int, body: string)

  /** `notFound()` */
  function NotFound(): (r: Response)
    ensures r.status == 404 && r.body == "Not found"
  {
    Response(404, "Not found")
  }

  /** `emptyResponse(status)`: the status argument is not used. */
  function EmptyResponse(status: int): (r: Response)
    ensures r.status == 200 && r.body == ""
  {
    Response(200, "")
  }

  /** `errorResponse(status, message)`: neither argument is used. */
  function ErrorResponse(status: int, message: string): (r: Response)
    ensures r.status == 500 && r.body == "message"
  {
    Response(500, "message")
  }

  // ---------------------------------------------------------------------------
  // Paths
  // ---------------------------------------------------------------------------

  /** `stripSlashes()`: drop one leading and then one trailing slash, if present. */
  function StripSlashes(s: string): (r: string)
    ensures s == "" ==> r == ""
    ensures |s| >= 2 && s[0] == '/' && s[|s| - 1] == '/' ==> s == "/" + r + "/"
    ensures |s| >= 1 && s[0] == '/' && (|s| == 1 || s[|s| - 1] != '/') ==> s == "/" + r
    ensures |s| >= 1 && s[0] != '/' && s[|s| - 1] == '/' ==> s == r + "/"
    ensures |s| >= 1 && s[0] != '/' && s[|s| - 1] != '/' ==> r == s
  {
    if |s| == 0 then s
    else
      var it := if s[0] == '/' then s[1..] else s;
      if |it| > 0 && it[|it| - 1] == '/' then it[..|it| - 1] else it
  }

  /** A path that neither starts nor ends with a slash is its own stripped form, with or without one slash on either side. */
  lemma StripSlashesAround(x: string)
    requires x == "" || (x[0] != '/' && x[|x| - 1] != '/')
    ensures StripSlashes(x) == x
    ensures StripSlashes("/" + x) == x
    ensures StripSlashes(x + "/") == x
    ensures StripSlashes("/" + x + "/") == x
  {
    if x != "" {
      assert ("/" + x)[0] == '/' && ("/" + x)[|"/" + x| - 1] == x[|x| - 1];
      assert (x + "/")[0] == x[0];
      assert ("/" + x + "/")[0] == '/';
    }
    assert |"/" + x + "/"| >= 2;
  }

  /** The key under which `add` stores a route: `basePath/stripped` or, with an empty base, `stripped`. */
  function RouteKey(basePath: string, path: string): string {
    (if basePath == "" then "" else basePath + "/") + StripSlashes(path)
  }

  /** The pieces of a route key or of a stripped request path. */
  function Pieces(path: string): seq<string> {
    Split(path, '/')
  }

  /** `path.stripSlashes().split("/")` as computed for a request in `handle`. */
  function RequestParts(path: string): (parts: seq<string>)
    ensures |parts| >= 1
    ensures Join(parts, "/") == StripSlashes(path)
  {
    JoinSplit(StripSlashes(path), '/');
    Pieces(StripSlashes(path))
  }

  /** Nested `path` groups concatenate their prefixes with the route's own path. */
  lemma NestedRouteKey(outer: string, inner: string, path: string)
    requires outer != "" && outer[0] != '/' && outer[|outer| - 1] != '/'
    requires inner != "" && inner[0] != '/' && inner[|inner| - 1] != '/'
    requires var p := StripSlashes(path); p != "" && p[0] != '/' && p[|p| - 1] != '/'
    ensures RouteKey(outer, RouteKey(inner, path)) == outer + "/" + inner + "/" + StripSlashes(path)
  {
    var p := StripSlashes(path);
    var k := inner + "/" + p;
    assert RouteKey(inner, path) == k;
    assert k[0] == inner[0];
    assert k[|k| - 1] == p[|p| - 1];
  }

  /** A nested route registered at the group's root (`"/"` or `""`) loses its trailing slash once merged. */
  lemma NestedRootKey(outer: string, inner: string)
    requires outer != "" && outer[0] != '/' && outer[|outer| - 1] != '/'
    requires inner != "" && inner[0] != '/' && inner[|inner| - 1] != '/'
    ensures RouteKey(inner, "/") == inner + "/"
    ensures RouteKey(outer, RouteKey(inner, "/")) == outer + "/" + inner
  {
    var k := inner + "/";
    assert StripSlashes("/") == "";
    assert RouteKey(inner, "/") == k;
    assert k[0] == inner[0];
    assert StripSlashes(k) == inner;
  }

  // ---------------------------------------------------------------------------
  // Route parts
  // ---------------------------------------------------------------------------

  /** One piece of a registered route: an anchored pattern, a named parameter, or a literal (possibly `*`). */
  datatype RoutePart = RegexPart(pattern: string) | ParamPart(name: string) | LiteralPart(text: string)

  predicate IsPatternText(part: string) {
    |part| > 0 && part[0] == '(' && part[|part| - 1] == ')'
  }

  predicate IsParamText(part: string) {
    |part| > 0 && part[0] == ':'
  }

  /** `RoutePart(part)`: the pattern test is made first, then the parameter test. */
  function PartOf(part: string): (p: RoutePart)
    ensures p.RegexPart? <==> IsPatternText(part)
    ensures p.ParamPart? <==> IsParamText(part)
    ensures p.RegexPart? ==> p.pattern == part
    ensures p.ParamPart? ==> ":" + p.name == part
    ensures p.LiteralPart? ==> p.text == part
  {
    if IsPatternText(part) then RegexPart(part)
    else if IsParamText(part) then ParamPart(part[1..])
    else LiteralPart(part)
  }

  /** `parts.map(::RoutePart)` for the pieces of a route key. */
  function PartsOf(key: string): (ps: seq<RoutePart>)
    ensures |ps| == |Pieces(key)|
    ensures forall i :: 0 <= i < |ps| ==> ps[i] == PartOf(Pieces(key)[i])
  {
    var pieces := Pieces(key);
    seq(|pieces|, i requires 0 <= i < |pieces| => PartOf(pieces[i]))
  }

  /** The route text a part was read from. */
  function PartText(p: RoutePart): string {
    match p
    case RegexPart(pattern) => pattern
    case ParamPart(name) => ":" + name
    case LiteralPart(text) => text
  }

  /** Reading a key into parts loses nothing: the parts' texts, joined by `/`, give the key back. */
  lemma PartsOfKeepKey(key: string)
    ensures var ps := PartsOf(key);
      Join(seq(|ps|, i requires 0 <= i < |ps| => PartText(ps[i])), "/") == key
  {
    var ps := PartsOf(key);
    var texts := seq(|ps|, i requires 0 <= i < |ps| => PartText(ps[i]));
    assert texts == Pieces(key);
    JoinSplit(key, '/');
  }

  /** The `Triple` answered by `RoutePart.matches`: success and an optional capture. */
  datatype PartMatch = PartMatch(ok: bool, capture: Option<(string, string)>)

  /** `RoutePart.matches(segment)` */
  function Matches(p: RoutePart, segment: string, re: (string, string) -> bool): PartMatch {
    match p
    case RegexPart(pattern) => PartMatch(re(pattern, segment), None)
    case ParamPart(name) => PartMatch(true, Some((name, segment)))
    case LiteralPart(text) => PartMatch(text == segment || text == "*", None)
  }

  /** The three matching rules, stated on the registered piece's text. */
  lemma MatchRules(part: string, segment: string, re: (string, string) -> bool)
    ensures var r := Matches(PartOf(part), segment, re);
      && (IsPatternText(part) ==> r.ok == re(part, segment) && r.capture.None?)
      && (IsParamText(part) ==> r.ok && r.capture == Some((part[1..], segment)))
      && (!IsPatternText(part) && !IsParamText(part) ==>
            r.ok == (part == segment || part == "*") && r.capture.None?)
  {
  }

  /** Only a parameter part captures, and a part that fails never captures. */
  lemma CaptureOnlyOnSuccess(p: RoutePart, segment: string, re: (string, string) -> bool)
    ensures Matches(p, segment, re).capture.Some? <==> p.ParamPart?
    ensures Matches(p, segment, re).capture.Some? ==> Matches(p, segment, re).ok
  {
  }

  // ---------------------------------------------------------------------------
  // Matching one candidate route (the inner loop of findMatched)
  // ---------------------------------------------------------------------------

  /**
   * The first request index at or after `j` where the candidate stops: its part
   * is missing or does not match; `|req|` when no index stops it.
   */
  function FirstFail(ps: seq<RoutePart>, req: seq<string>, re: (string, string) -> bool, j: nat): (r: nat)
    requires j <= |req|
    ensures j <= r <= |req|
    ensures forall k :: j <= k < r ==> k < |ps| && Matches(ps[k], req[k], re).ok
    ensures r < |req| ==> r >= |ps| || !Matches(ps[r], req[r], re).ok
    ensures j <= |ps| ==> r <= |ps|
    decreases |req| - j
  {
    if j == |req| then j
    else if j >= |ps| || !Matches(ps[j], req[j], re).ok then j
    else FirstFail(ps, req, re, j + 1)
  }

  /** The candidate matched: every request segment has a matching part. */
  predicate FullMatch(ps: seq<RoutePart>, req: seq<string>, re: (string, string) -> bool) {
    |req| > 0 && FirstFail(ps, req, re, 0) == |req|
  }

  lemma FullMatchMeaning(ps: seq<RoutePart>, req: seq<string>, re: (string, string) -> bool)
    ensures FullMatch(ps, req, re) <==>
      |req| > 0 && |req| <= |ps| && forall k :: 0 <= k < |req| ==> Matches(ps[k], req[k], re).ok
  {
    var r := FirstFail(ps, req, re, 0);
  }

  /** The parameters captured at the request indices below `k`, a later capture of the same name overwriting an earlier one. */
  function CapturesBefore(ps: seq<RoutePart>, req: seq<string>, k: nat): (c: map<string, string>)
    requires k <= |ps| && k <= |req|
  {
    if k == 0 then map[]
    else
      var c := CapturesBefore(ps, req, k - 1);
      if ps[k - 1].ParamPart? then c[ps[k - 1].name := req[k - 1]] else c
  }

  /** The captures `findMatched` leaves after examining one candidate. */
  function Captures(ps: seq<RoutePart>, req: seq<string>, re: (string, string) -> bool): map<string, string> {
    CapturesBefore(ps, req, FirstFail(ps, req, re, 0))
  }

  /** The names captured below `k` are exactly the parameter names among the first `k` parts. */
  lemma {:induction false} CaptureNames(ps: seq<RoutePart>, req: seq<string>, k: nat, name: string)
    requires k <= |ps| && k <= |req|
    ensures name in CapturesBefore(ps, req, k) <==> exists i :: 0 <= i < k && ps[i] == ParamPart(name)
  {
    if k > 0 {
      CaptureNames(ps, req, k - 1, name);
      if ps[k - 1] == ParamPart(name) {
        assert name in CapturesBefore(ps, req, k);
      }
    }
  }

  /** A named parameter captures the text of its request segment (the last one, if the name repeats). */
  lemma {:induction false} CaptureIsSegment(ps: seq<RoutePart>, req: seq<string>, k: nat, i: nat)
    requires k <= |ps| && k <= |req|
    requires i < k && ps[i].ParamPart?
    requires forall j :: i < j < k ==> ps[j] != ps[i]
    ensures ps[i].name in CapturesBefore(ps, req, k)
    ensures CapturesBefore(ps, req, k)[ps[i].name] == req[i]
  {
    if i < k - 1 {
      CaptureIsSegment(ps, req, k - 1, i);
    }
  }

  /** In a matched route whose parameter names are distinct, each `:name` captures exactly its segment. */
  lemma MatchedRouteCaptures(key: string, req: seq<string>, re: (string, string) -> bool, i: nat)
    requires FullMatch(PartsOf(key), req, re)
    requires i < |req| && PartsOf(key)[i].ParamPart?
    requires forall j :: i < j < |req| ==> PartsOf(key)[j] != PartsOf(key)[i]
    ensures PartsOf(key)[i].name in Captures(PartsOf(key), req, re)
    ensures Captures(PartsOf(key), req, re)[PartsOf(key)[i].name] == req[i]
  {
    FullMatchMeaning(PartsOf(key), req, re);
    CaptureIsSegment(PartsOf(key), req, |req|, i);
  }

  // ---------------------------------------------------------------------------
  // Choosing among the candidates of a bucket (the outer loop of findMatched)
  // ---------------------------------------------------------------------------

  /** The index of the last route of the bucket that matches the request. */
  function LastMatchIndex(bucket: seq<string>, req: seq<string>, re: (string, string) -> bool): (r: Option<nat>)
    ensures r.None? ==> forall j :: 0 <= j < |bucket| ==> !FullMatch(PartsOf(bucket[j]), req, re)
    ensures r.Some? ==> r.value < |bucket| && FullMatch(PartsOf(bucket[r.value]), req, re)
    ensures r.Some? ==> forall j :: r.value < j < |bucket| ==> !FullMatch(PartsOf(bucket[j]), req, re)
    decreases |bucket|
  {
    if bucket == [] then None
    else if FullMatch(PartsOf(bucket[|bucket| - 1]), req, re) then Some(|bucket| - 1)
    else LastMatchIndex(bucket[..|bucket| - 1], req, re)
  }

  /** The last route of the bucket that matches the request (the route `findMatched` returns). */
  function LastMatch(bucket: seq<string>, req: seq<string>, re: (string, string) -> bool): Option<string> {
    match LastMatchIndex(bucket, req, re)
    case None => None
    case Some(i) => Some(bucket[i])
  }

  /** The registered table of one method: keys in insertion order with their handlers. */
  datatype Entry<H> = Entry(key: string, handler: H)

  function KeysOf<H>(t: seq<Entry<H>>): (ks: seq<string>)
    ensures |ks| == |t|
    ensures forall i :: 0 <= i < |t| ==> ks[i] == t[i].key
  {
    if t == [] then [] else [t[0].key] + KeysOf(t[1..])
  }

  lemma {:induction false} KeysOfLast<H>(t: seq<Entry<H>>)
    requires t != []
    ensures KeysOf(t) == KeysOf(t[..|t| - 1]) + [t[|t| - 1].key]
  {
    var front := KeysOf(t[..|t| - 1]);
    var ks := front + [t[|t| - 1].key];
    assert |ks| == |t|;
    assert forall i :: 0 <= i < |t| ==> ks[i] == t[i].key;
  }

  predicate Distinct(ks: seq<string>) {
    forall i, j :: 0 <= i < j < |ks| ==> ks[i] != ks[j]
  }

  /** The handler stored under `key`, if any. */
  function Lookup<H>(t: seq<Entry<H>>, key: string): (r: Option<H>)
    ensures r.Some? <==> key in KeysOf(t)
  {
    if t == [] then None
    else if t[0].key == key then Some(t[0].handler)
    else Lookup(t[1..], key)
  }

  /** `table[key] = handler` on an insertion-ordered map: replace in place, or append a new key. */
  function Put<H>(t: seq<Entry<H>>, key: string, h: H): (r: seq<Entry<H>>)
    ensures KeysOf(r) == if key in KeysOf(t) then KeysOf(t) else KeysOf(t) + [key]
  {
    if t == [] then [Entry(key, h)]
    else if t[0].key == key then [Entry(key, h)] + t[1..]
    else
      var rest := Put(t[1..], key, h);
      assert KeysOf([t[0]] + rest) == [t[0].key] + KeysOf(rest);
      assert KeysOf(t) == [t[0].key] + KeysOf(t[1..]);
      [t[0]] + rest
  }

  /** After a put, the key holds the new handler and every other key holds what it held before. */
  lemma {:induction false} PutLookup<H>(t: seq<Entry<H>>, key: string, h: H, k: string)
    ensures Lookup(Put(t, key, h), k) == if k == key then Some(h) else Lookup(t, k)
    decreases |t|
  {
    if t != [] && t[0].key != key {
      PutLookup(t[1..], key, h, k);
    }
  }

  /** Putting into a table with distinct keys keeps them distinct. */
  lemma PutKeepsDistinct<H>(t: seq<Entry<H>>, key: string, h: H)
    requires Distinct(KeysOf(t))
    ensures Distinct(KeysOf(Put(t, key, h)))
  {
  }

  /** The routes of `es`, re-added one by one under `basePath` (what `merge` does for one method). */
  function AddAll<H>(t: seq<Entry<H>>, basePath: string, es: seq<Entry<H>>): seq<Entry<H>>
    decreases |es|
  {
    if es == [] then t
    else
      var last := es[|es| - 1];
      Put(AddAll(t, basePath, es[..|es| - 1]), RouteKey(basePath, last.key), last.handler)
  }

  /** The last route of `es` whose re-based key is `k`. */
  function LastAdded<H>(basePath: string, es: seq<Entry<H>>, k: string): Option<H>
    decreases |es|
  {
    if es == [] then None
    else if RouteKey(basePath, es[|es| - 1].key) == k then Some(es[|es| - 1].handler)
    else LastAdded(basePath, es[..|es| - 1], k)
  }

  /** After a merge, each key holds the handler of the last nested route re-based onto it, or its earlier handler. */
  lemma {:induction false} AddAllLookup<H>(t: seq<Entry<H>>, basePath: string, es: seq<Entry<H>>, k: string)
    ensures Lookup(AddAll(t, basePath, es), k) ==
      match LastAdded(basePath, es, k)
      case Some(h) => Some(h)
      case None => Lookup(t, k)
    decreases |es|
  {
    if es != [] {
      AddAllLookup(t, basePath, es[..|es| - 1], k);
      var last := es[|es| - 1];
      PutLookup(AddAll(t, basePath, es[..|es| - 1]), RouteKey(basePath, last.key), last.handler, k);
    }
  }

  lemma {:induction false} AddAllDistinct<H>(t: seq<Entry<H>>, basePath: string, es: seq<Entry<H>>)
    requires Distinct(KeysOf(t))
    ensures Distinct(KeysOf(AddAll(t, basePath, es)))
    decreases |es|
  {
    if es != [] {
      AddAllDistinct(t, basePath, es[..|es| - 1]);
      var last := es[|es| - 1];
      PutKeepsDistinct(AddAll(t, basePath, es[..|es| - 1]), RouteKey(basePath, last.key), last.handler);
    }
  }

  // ---------------------------------------------------------------------------
  // Buckets built by initialize
  // ---------------------------------------------------------------------------

  /** `routeCandidates[method]` after appending each key of `t` to the bucket of its piece count. */
  function Bucketed<H>(c: map<nat, seq<string>>, t: seq<Entry<H>>): map<nat, seq<string>>
    decreases |t|
  {
    if t == [] then c
    else
      var b := Bucketed(c, t[..|t| - 1]);
      var k := t[|t| - 1].key;
      var n := |Pieces(k)|;
      b[n := (if n in b then b[n] else []) + [k]]
  }

  /** The keys of `t` that have `n` pieces, in registration order. */
  function KeysWithCount<H>(t: seq<Entry<H>>, n: nat): seq<string>
    decreases |t|
  {
    if t == [] then []
    else
      var k := t[|t| - 1].key;
      KeysWithCount(t[..|t| - 1], n) + (if |Pieces(k)| == n then [k] else [])
  }

  /** Bucket `n` is the old bucket followed by the keys with `n` pieces, in order; it exists iff either part does. */
  lemma {:induction false} BucketedIsFilter<H>(c: map<nat, seq<string>>, t: seq<Entry<H>>, n: nat)
    ensures n in Bucketed(c, t) <==> n in c || KeysWithCount(t, n) != []
    ensures n in Bucketed(c, t) ==>
      Bucketed(c, t)[n] == (if n in c then c[n] else []) + KeysWithCount(t, n)
    decreases |t|
  {
    if t != [] {
      BucketedIsFilter(c, t[..|t| - 1], n);
    }
  }

  /** A key is in the filtered list for `n` iff it is registered and has `n` pieces. */
  lemma {:induction false} KeysWithCountMembers<H>(t: seq<Entry<H>>, n: nat, k: string)
    ensures k in KeysWithCount(t, n) <==> k in KeysOf(t) && |Pieces(k)| == n
    decreases |t|
  {
    if t != [] {
      KeysWithCountMembers(t[..|t| - 1], n, k);
      KeysOfLast(t);
    }
  }

  /** A distinct table puts each key into its filtered list at most once. */
  lemma {:induction false} KeysWithCountDistinct<H>(t: seq<Entry<H>>, n: nat)
    requires Distinct(KeysOf(t))
    ensures Distinct(KeysWithCount(t, n))
    decreases |t|
  {
    if t != [] {
      var p := t[..|t| - 1];
      KeysOfLast(t);
      KeysWithCountDistinct(p, n);
      KeysWithCountMembers(p, n, t[|t| - 1].key);
    }
  }

  /**
   * Built from nothing, the buckets put every registered key into exactly the
   * bucket of its piece count, once, keeping registration order.
   */
  lemma EveryRouteInOneBucket<H>(t: seq<Entry<H>>, k: string, n: nat)
    requires Distinct(KeysOf(t))
    ensures n in Bucketed(map[], t) ==> Distinct(Bucketed(map[], t)[n])
    ensures (n in Bucketed(map[], t) && k in Bucketed(map[], t)[n]) <==> k in KeysOf(t) && |Pieces(k)| == n
  {
    BucketedIsFilter(map[], t, n);
    KeysWithCountMembers(t, n, k);
    KeysWithCountDistinct(t, n);
  }

  /** Appending one more key to its bucket. */
  lemma BucketedStep<H>(c: map<nat, seq<string>>, t: seq<Entry<H>>, j: nat)
    requires j < |t|
    ensures Bucketed(c, t[..j + 1]) ==
      var b := Bucketed(c, t[..j]);
      var n := |Pieces(t[j].key)|;
      b[n := (if n in b then b[n] else []) + [t[j].key]]
  {
    assert t[..j + 1][..j] == t[..j];
  }

  /** `routeParts[method]` after storing the part list of each key of `t`. */
  function WithParts<H>(p: map<string, seq<RoutePart>>, t: seq<Entry<H>>): map<string, seq<RoutePart>>
    decreases |t|
  {
    if t == [] then p
    else
      var k := t[|t| - 1].key;
      WithParts(p, t[..|t| - 1])[k := PartsOf(k)]
  }

  lemma WithPartsStep<H>(p: map<string, seq<RoutePart>>, t: seq<Entry<H>>, j: nat)
    requires j < |t|
    ensures WithParts(p, t[..j + 1]) == WithParts(p, t[..j])[t[j].key := PartsOf(t[j].key)]
  {
    assert t[..j + 1][..j] == t[..j];
  }

  /** The stored part lists: every registered key gets the parts built from it, and the other entries stay. */
  lemma {:induction false} WithPartsMeaning<H>(p: map<string, seq<RoutePart>>, t: seq<Entry<H>>, k: string)
    ensures k in WithParts(p, t) <==> k in p || k in KeysOf(t)
    ensures k in KeysOf(t) ==> WithParts(p, t)[k] == PartsOf(k)
    ensures k !in KeysOf(t) && k in p ==> WithParts(p, t)[k] == p[k]
    decreases |t|
  {
    if t != [] {
      WithPartsMeaning(p, t[..|t| - 1], k);
      KeysOfLast(t);
    }
  }

  /** Every key in a bucket has a stored part list. */
  ghost predicate Covered(b: map<nat, seq<string>>, p: map<string, seq<RoutePart>>) {
    forall n, k | n in b && k in b[n] :: k in p
  }

  /** Every stored part list is the one built from its key. */
  ghost predicate PartsBuilt(p: map<string, seq<RoutePart>>) {
    forall k | k in p :: p[k] == PartsOf(k)
  }

  lemma CoveredStep(b: map<nat, seq<string>>, p: map<string, seq<RoutePart>>, n: nat, k: string)
    requires Covered(b, p) && PartsBuilt(p)
    ensures Covered(b[n := (if n in b then b[n] else []) + [k]], p[k := PartsOf(k)])
    ensures PartsBuilt(p[k := PartsOf(k)])
  {
  }

  /** Bucketing a table and storing its part lists keeps every bucketed key covered by a correctly built part list. */
  lemma {:induction false} BucketsCovered<H>(c: map<nat, seq<string>>, p: map<string, seq<RoutePart>>, t: seq<Entry<H>>)
    requires Covered(c, p) && PartsBuilt(p)
    ensures Covered(Bucketed(c, t), WithParts(p, t)) && PartsBuilt(WithParts(p, t))
    decreases |t|
  {
    if t != [] {
      var k := t[|t| - 1].key;
      BucketsCovered(c, p, t[..|t| - 1]);
      CoveredStep(Bucketed(c, t[..|t| - 1]), WithParts(p, t[..|t| - 1]), |Pieces(k)|, k);
    }
  }

  /** Initializing one method keeps every table and bucket map in place. */
  lemma InitializeMethodTables<H>(routes: map<RequestMethod, seq<Entry<H>>>, c: map<RequestMethod, map<nat, seq<string>>>, m: RequestMethod)
    requires TablesValid(routes, c)
    ensures TablesValid(routes, c[m := Bucketed(c[m], routes[m])])
  {
  }

  /** Initializing one method stores only part lists built from their keys. */
  lemma InitializeMethodParts<H>(routes: map<RequestMethod, seq<Entry<H>>>, rp: map<RequestMethod, map<string, seq<RoutePart>>>, m: RequestMethod)
    requires forall m :: m in routes
    requires PartsValid(rp)
    ensures PartsValid(PartsAfter(rp, m, routes[m]))
  {
    if routes[m] != [] {
      var p0: map<string, seq<RoutePart>> := if m in rp then rp[m] else map[];
      BucketsCovered(map[], p0, routes[m]);
    }
  }

  /** Initializing one method gives every key it buckets a part list. */
  lemma InitializeMethodCandidates<H>(routes: map<RequestMethod, seq<Entry<H>>>, c: map<RequestMethod, map<nat, seq<string>>>,
                                      rp: map<RequestMethod, map<string, seq<RoutePart>>>, m: RequestMethod)
    requires forall m :: m in routes && m in c
    requires PartsValid(rp) && CandidatesValid(c, rp)
    ensures CandidatesValid(c[m := Bucketed(c[m], routes[m])], PartsAfter(rp, m, routes[m]))
  {
    if routes[m] != [] {
      var p0: map<string, seq<RoutePart>> := if m in rp then rp[m] else map[];
      assert Covered(c[m], p0);
      BucketsCovered(c[m], p0, routes[m]);
    }
  }

  /** Initializing any sequence of methods keeps the router valid. */
  lemma {:induction false} InitializeValid<H>(routes: map<RequestMethod, seq<Entry<H>>>, c: map<RequestMethod, map<nat, seq<string>>>,
                                              rp: map<RequestMethod, map<string, seq<RoutePart>>>, ms: seq<RequestMethod>)
    requires TablesValid(routes, c) && PartsValid(rp) && CandidatesValid(c, rp)
    ensures TablesValid(routes, BucketAll(c, routes, ms)) && PartsValid(PartsAll(rp, routes, ms))
    ensures CandidatesValid(BucketAll(c, routes, ms), PartsAll(rp, routes, ms))
    decreases |ms|
  {
    if ms != [] {
      InitializeMethodTables(routes, c, ms[0]);
      InitializeMethodParts(routes, rp, ms[0]);
      InitializeMethodCandidates(routes, c, rp, ms[0]);
      InitializeValid(routes, c[ms[0] := Bucketed(c[ms[0]], routes[ms[0]])], PartsAfter(rp, ms[0], routes[ms[0]]), ms[1..]);
    }
  }

  /** `routeParts` after `initialize` has visited one method: the map for the method is created only when its table has a route. */
  function PartsAfter<H>(rp: map<RequestMethod, map<string, seq<RoutePart>>>, m: RequestMethod, t: seq<Entry<H>>): map<RequestMethod, map<string, seq<RoutePart>>> {
    if t == [] then rp else rp[m := WithParts(if m in rp then rp[m] else map[], t)]
  }

  /** `routeCandidates` after `initialize` has visited the methods of `ms` in order. */
  ghost function BucketAll<H>(c: map<RequestMethod, map<nat, seq<string>>>, routes: map<RequestMethod, seq<Entry<H>>>, ms: seq<RequestMethod>): (r: map<RequestMethod, map<nat, seq<string>>>)
    requires forall m :: m in c && m in routes
    ensures forall m :: m in r
    ensures forall m :: m !in ms ==> r[m] == c[m]
  {
    if ms == [] then c
    else BucketAll(c[ms[0] := Bucketed(c[ms[0]], routes[ms[0]])], routes, ms[1..])
  }

  /** `routeParts` after `initialize` has visited the methods of `ms` in order. */
  ghost function PartsAll<H>(rp: map<RequestMethod, map<string, seq<RoutePart>>>, routes: map<RequestMethod, seq<Entry<H>>>, ms: seq<RequestMethod>): (r: map<RequestMethod, map<string, seq<RoutePart>>>)
    requires forall m :: m in routes
    ensures forall m :: m !in ms ==> (m in r <==> m in rp) && (m in rp ==> r[m] == rp[m])
    decreases |ms|
  {
    if ms == [] then rp
    else PartsAll(PartsAfter(rp, ms[0], routes[ms[0]]), routes, ms[1..])
  }

  /** When no method is visited twice, each visited method gets its own buckets and part lists, built from its own table. */
  lemma {:induction false} InitializeEach<H>(c: map<RequestMethod, map<nat, seq<string>>>, rp: map<RequestMethod, map<string, seq<RoutePart>>>,
                                             routes: map<RequestMethod, seq<Entry<H>>>, ms: seq<RequestMethod>, m: RequestMethod)
    requires forall m :: m in c && m in routes
    requires forall i, j :: 0 <= i < j < |ms| ==> ms[i] != ms[j]
    requires m in ms
    ensures BucketAll(c, routes, ms)[m] == Bucketed(c[m], routes[m])
    ensures m in PartsAll(rp, routes, ms) <==> m in PartsAfter(rp, m, routes[m])
    ensures m in PartsAll(rp, routes, ms) ==> PartsAll(rp, routes, ms)[m] == PartsAfter(rp, m, routes[m])[m]
    decreases |ms|
  {
    if ms[0] == m {
      assert m !in ms[1..];
    } else {
      var c' := c[ms[0] := Bucketed(c[ms[0]], routes[ms[0]])];
      InitializeEach(c', PartsAfter(rp, ms[0], routes[ms[0]]), routes, ms[1..], m);
    }
  }

  /**
   * `initialize` on a router whose buckets are still empty: for every method,
   * bucket `n` holds exactly the registered keys with `n` pieces, each once, in
   * registration order, and every registered key has the part list built from it.
   */
  lemma InitializedRouter<H>(c: map<RequestMethod, map<nat, seq<string>>>, rp: map<RequestMethod, map<string, seq<RoutePart>>>,
                             routes: map<RequestMethod, seq<Entry<H>>>, m: RequestMethod, n: nat, k: string)
    requires forall m :: m in c && m in routes && c[m] == map[] && Distinct(KeysOf(routes[m]))
    ensures var b := BucketAll(c, routes, AllMethods)[m];
      && (n in b ==> Distinct(b[n]) && b[n] == KeysWithCount(routes[m], n))
      && ((n in b && k in b[n]) <==> k in KeysOf(routes[m]) && |Pieces(k)| == n)
    ensures k in KeysOf(routes[m]) ==>
      m in PartsAll(rp, routes, AllMethods) && k in PartsAll(rp, routes, AllMethods)[m] &&
      PartsAll(rp, routes, AllMethods)[m][k] == PartsOf(k)
  {
    AllMethodsDistinct();
    AllMethodsListed(m);
    InitializeEach(c, rp, routes, AllMethods, m);
    EveryRouteInOneBucket(routes[m], k, n);
    BucketedIsFilter(map[], routes[m], n);
    if k in KeysOf(routes[m]) {
      WithPartsMeaning(if m in rp then rp[m] else map[], routes[m], k);
    }
  }

  /** Initialized from empty buckets, bucket `n` of a method holds the method's keys with `n` pieces, in registration order, and no bucket means none. */
  lemma InitializedBucket<H>(c: map<RequestMethod, map<nat, seq<string>>>, routes: map<RequestMethod, seq<Entry<H>>>, m: RequestMethod, n: nat)
    requires forall m :: m in c && m in routes && c[m] == map[]
    ensures var b := BucketAll(c, routes, AllMethods)[m];
      (if n in b then b[n] else []) == KeysWithCount(routes[m], n)
  {
    AllMethodsDistinct();
    AllMethodsListed(m);
    InitializeEach(c, map[], routes, AllMethods, m);
    BucketedIsFilter(map[], routes[m], n);
  }

  /** The test of the `find` in `handle`: the key is `*` or the route `findMatched` chose. */
  predicate Picks(key: string, matched: Option<string>) {
    key == "*" || Some(key) == matched
  }

  /** The first index whose key `Picks`: the `find` in `handle`. */
  function Select<H>(t: seq<Entry<H>>, matched: Option<string>): (r: Option<nat>)
    ensures r.Some? ==> r.value < |t| && Picks(t[r.value].key, matched)
    ensures r.Some? ==> forall j :: 0 <= j < r.value ==> !Picks(t[j].key, matched)
    ensures r.None? ==> forall j :: 0 <= j < |t| ==> !Picks(t[j].key, matched)
    decreases |t|
  {
    if t == [] then None
    else if Picks(t[0].key, matched) then Some(0)
    else
      match Select(t[1..], matched)
      case None => None
      case Some(i) => Some(i + 1)
  }

  /** `Select` picks exactly the first index that qualifies. */
  lemma SelectFirst<H>(t: seq<Entry<H>>, matched: Option<string>, i: nat)
    requires i < |t| && Picks(t[i].key, matched)
    requires forall j :: 0 <= j < i ==> !Picks(t[j].key, matched)
    ensures Select(t, matched) == Some(i)
  {
  }

  /** What `handle` does with an exchange: run a route's handler with the captured parameters, or answer directly. */
  datatype Outcome<H> = Dispatch(key: string, handler: H, params: map<string, string>) | Respond(response: Response)

  /** The parameters `findMatched` leaves behind: those of the last candidate examined, or the untouched map when there is none. */
  function LastCaptures(bucket: seq<string>, req: seq<string>, re: (string, string) -> bool, params0: map<string, string>): map<string, string> {
    if bucket == [] then params0 else Captures(PartsOf(bucket[|bucket| - 1]), req, re)
  }

  /** Examining one more candidate: it becomes the match if it matches in full, and its captures are what is left behind. */
  lemma ScanStep(bucket: seq<string>, i: nat, req: seq<string>, re: (string, string) -> bool, params0: map<string, string>)
    requires i < |bucket|
    ensures LastMatch(bucket[..i + 1], req, re) ==
      if FullMatch(PartsOf(bucket[i]), req, re) then Some(bucket[i]) else LastMatch(bucket[..i], req, re)
    ensures LastCaptures(bucket[..i + 1], req, re, params0) == Captures(PartsOf(bucket[i]), req, re)
  {
    assert bucket[..i + 1][..i] == bucket[..i];
  }

  lemma ScanDone(bucket: seq<string>, req: seq<string>, re: (string, string) -> bool, params0: map<string, string>)
    ensures LastMatch(bucket[..|bucket|], req, re) == LastMatch(bucket, req, re)
    ensures LastCaptures(bucket[..|bucket|], req, re, params0) == LastCaptures(bucket, req, re, params0)
  {
    assert bucket[..|bucket|] == bucket;
  }

  /** The parts of a two-piece route key. */
  lemma PartsOfTwo(x: string, y: string)
    requires '/' !in x && '/' !in y
    ensures PartsOf(x + "/" + y) == [PartOf(x), PartOf(y)]
  {
    SplitAfterPiece(x, '/', y);
    SplitWithoutSep(y, '/');
  }

  /**
   * As written: with the routes `a/:id` and `b/:x` in one bucket, the request
   * `a/5` matches `a/:id`, whose own captures hold `id = 5`, but the
   * parameters left behind are those of `b/:x`, examined last, which fails at
   * its first part and captures nothing.
   */
  lemma ParamsOfLastCandidate(re: (string, string) -> bool)
    ensures LastMatch(["a/:id", "b/:x"], ["a", "5"], re) == Some("a/:id")
    ensures Captures(PartsOf("a/:id"), ["a", "5"], re) == map["id" := "5"]
    ensures LastCaptures(["a/:id", "b/:x"], ["a", "5"], re, map[]) == map[]
  {
    var req := ["a", "5"];
    ExampleParts();
    assert FirstFail(PartsOf("a/:id"), req, re, 1) == 2;
    assert FirstFail(PartsOf("b/:x"), req, re, 0) == 0;
    assert ["a/:id", "b/:x"][..1] == ["a/:id"];
  }

  /** The parts of the two routes of the example. */
  lemma ExampleParts()
    ensures PartsOf("a/:id") == [LiteralPart("a"), ParamPart("id")]
    ensures PartsOf("b/:x") == [LiteralPart("b"), ParamPart("x")]
  {
    assert "a/:id" == "a" + "/" + ":id";
    assert "b/:x" == "b" + "/" + ":x";
    PartsOfTwo("a", ":id");
    PartsOfTwo("b", ":x");
    assert ":id"[1..] == "id";
    assert ":x"[1..] == "x";
  }

  /** The captures of the route `findMatched` picks, or none when no route matches. */
  function MatchedCaptures(bucket: seq<string>, req: seq<string>, re: (string, string) -> bool): map<string, string> {
    match LastMatchIndex(bucket, req, re)
    case None => map[]
    case Some(i) => Captures(PartsOf(bucket[i]), req, re)
  }

  /** Corrected: each `:name` of the picked route (names distinct) is bound to its own request segment. */
  lemma MatchedCapturesAreSegments(bucket: seq<string>, req: seq<string>, re: (string, string) -> bool, i: nat)
    requires LastMatch(bucket, req, re).Some?
    requires var ps := PartsOf(LastMatch(bucket, req, re).value);
      i < |req| && i < |ps| && ps[i].ParamPart? && forall j :: i < j < |req| && j < |ps| ==> ps[j] != ps[i]
    ensures var ps := PartsOf(LastMatch(bucket, req, re).value);
      ps[i].name in MatchedCaptures(bucket, req, re) && MatchedCaptures(bucket, req, re)[ps[i].name] == req[i]
  {
    var k := LastMatch(bucket, req, re).value;
    FullMatchMeaning(PartsOf(k), req, re);
    MatchedRouteCaptures(k, req, re, i);
  }

  /** Examining one more candidate: its captures are kept only when it matches in full. */
  lemma MatchedScanStep(bucket: seq<string>, i: nat, req: seq<string>, re: (string, string) -> bool)
    requires i < |bucket|
    ensures MatchedCaptures(bucket[..i + 1], req, re) ==
      if FullMatch(PartsOf(bucket[i]), req, re) then Captures(PartsOf(bucket[i]), req, re) else MatchedCaptures(bucket[..i], req, re)
  {
    assert bucket[..i + 1][..i] == bucket[..i];
  }

  /** Corrected, the example above: the request `a/5` keeps `id = 5`. */
  lemma MatchedCapturesOfExample(re: (string, string) -> bool)
    ensures MatchedCaptures(["a/:id", "b/:x"], ["a", "5"], re) == map["id" := "5"]
  {
    ParamsOfLastCandidate(re);
    assert ["a/:id", "b/:x"][..1] == ["a/:id"];
  }

  /** Every method has a table and buckets, and no table repeats a key. */
  ghost predicate TablesValid<H>(routes: map<RequestMethod, seq<Entry<H>>>, candidates: map<RequestMethod, map<nat, seq<string>>>) {
    forall m :: m in routes && m in candidates && Distinct(KeysOf(routes[m]))
  }

  /** Each stored part list is the one built from its key. */
  ghost predicate PartsValid(routeParts: map<RequestMethod, map<string, seq<RoutePart>>>) {
    forall m, k | m in routeParts && k in routeParts[m] :: routeParts[m][k] == PartsOf(k)
  }

  /** Every bucketed route has its part list (so `routeParts[method]!![route]!!` never throws). */
  ghost predicate CandidatesValid(candidates: map<RequestMethod, map<nat, seq<string>>>, routeParts: map<RequestMethod, map<string, seq<RoutePart>>>) {
    forall m, n, k | m in candidates && n in candidates[m] && k in candidates[m][n] ::
      m in routeParts && k in routeParts[m]
  }

  /** The tables after `merge` re-adds, method by method in the order of `ms`, the routes of `nested` under `basePath`. */
  ghost function MergeAll<H>(routes: map<RequestMethod, seq<Entry<H>>>, basePath: string, nested: map<RequestMethod, seq<Entry<H>>>, ms: seq<RequestMethod>): (r: map<RequestMethod, seq<Entry<H>>>)
    requires forall m :: m in routes && m in nested
    ensures forall m :: m in r
    ensures forall m :: m !in ms ==> r[m] == routes[m]
  {
    if ms == [] then routes
    else MergeAll(routes[ms[0] := AddAll(routes[ms[0]], basePath, nested[ms[0]])], basePath, nested, ms[1..])
  }

  /** When no method is visited twice, each visited method's table is its old table with the nested routes re-added. */
  lemma {:induction false} MergeAllEach<H>(routes: map<RequestMethod, seq<Entry<H>>>, basePath: string, nested: map<RequestMethod, seq<Entry<H>>>, ms: seq<RequestMethod>, m: RequestMethod)
    requires forall m :: m in routes && m in nested
    requires forall i, j :: 0 <= i < j < |ms| ==> ms[i] != ms[j]
    ensures MergeAll(routes, basePath, nested, ms)[m] == if m in ms then AddAll(routes[m], basePath, nested[m]) else routes[m]
    decreases |ms|
  {
    if ms != [] {
      var next := routes[ms[0] := AddAll(routes[ms[0]], basePath, nested[ms[0]])];
      if ms[0] == m {
        assert m !in ms[1..];
      } else {
        MergeAllEach(next, basePath, nested, ms[1..], m);
      }
    }
  }

  /** After `merge`, every method's table is its old table with the nested router's routes of that method re-added. */
  lemma MergedTables<H>(routes: map<RequestMethod, seq<Entry<H>>>, basePath: string, nested: map<RequestMethod, seq<Entry<H>>>, m: RequestMethod)
    requires forall m :: m in routes && m in nested
    ensures MergeAll(routes, basePath, nested, AllMethods)[m] == AddAll(routes[m], basePath, nested[m])
  {
    AllMethodsDistinct();
    AllMethodsListed(m);
    MergeAllEach(routes, basePath, nested, AllMethods, m);
  }

  class Router<H> {
    const basePath: string
    var routes: map<RequestMethod, seq<Entry<H>>>
    var candidates: map<RequestMethod, map<nat, seq<string>>>
    var routeParts: map<RequestMethod, map<string, seq<RoutePart>>>

    ghost predicate Valid()
      reads this
    {
      TablesValid(routes, candidates) && PartsValid(routeParts) && CandidatesValid(candidates, routeParts)
    }

    /** `Router(path)`: an empty table and empty buckets for every method. */
    constructor (path: string)
      ensures Valid()
      ensures basePath == StripSlashes(path)
      ensures forall m :: routes[m] == [] && candidates[m] == map[]
      ensures routeParts == map[]
    {
      basePath := StripSlashes(path);
      routes := map m | m in AllMethods :: [];
      candidates := map m | m in AllMethods :: map[];
      routeParts := map[];
      new;
      forall m ensures m in AllMethods {
        AllMethodsListed(m);
      }
    }

    /** The bucket of routes of method `m` with `n` pieces, empty when there is none. */
    ghost function Bucket(m: RequestMethod, n: nat): seq<string>
      reads this
    {
      if m in candidates && n in candidates[m] then candidates[m][n] else []
    }

    /**
     * `add` (and the `get`, `post`, ... helpers that call it with a fixed
     * method): store the handler under the re-based, stripped key.
     */
    method Add(m: RequestMethod, path: string, h: H)
      requires Valid()
      modifies this`routes
      ensures Valid()
      ensures routes == old(routes)[m := Put(old(routes)[m], RouteKey(basePath, path), h)]
    {
      PutKeepsDistinct(routes[m], RouteKey(basePath, path), h);
      routes := routes[m := Put(routes[m], RouteKey(basePath, path), h)];
    }

    /** The inner loop of `merge` for one method: re-add each nested route of `es` in order. */
    method MergeMethod(m: RequestMethod, es: seq<Entry<H>>)
      requires Valid()
      modifies this`routes
      ensures Valid()
      ensures routes == old(routes)[m := AddAll(old(routes)[m], basePath, es)]
    {
      var t := routes[m];
      var j := 0;
      while j < |es|
        invariant 0 <= j <= |es|
        invariant routes == old(routes)
        invariant Distinct(KeysOf(t))
        invariant t == AddAll(old(routes)[m], basePath, es[..j])
      {
        var e := es[j];
        PutKeepsDistinct(t, RouteKey(basePath, e.key), e.handler);
        t := Put(t, RouteKey(basePath, e.key), e.handler);
        assert es[..j + 1][..j] == es[..j];
        j := j + 1;
      }
      assert es[..j] == es;
      routes := routes[m := t];
    }

    /**
     * `merge(nested)`, the last step of `path(prefix) { ... }`: every route of
     * the nested router is re-added under this router's base path, method by
     * method in enum order and route by route in registration order.
     */
    method Merge(nested: Router<H>)
      requires Valid() && nested.Valid() && nested != this
      modifies this`routes
      ensures Valid()
      ensures routes == MergeAll(old(routes), basePath, nested.routes, AllMethods)
    {
      var i := 0;
      while i < |AllMethods|
        invariant 0 <= i <= |AllMethods|
        invariant Valid()
        invariant MergeAll(routes, basePath, nested.routes, AllMethods[i..]) == MergeAll(old(routes), basePath, nested.routes, AllMethods)
      {
        var m := AllMethods[i];
        assert AllMethods[i..][1..] == AllMethods[i + 1..];
        MergeMethod(m, nested.routes[m]);
        i := i + 1;
      }
    }

    /** The loop of `initialize` over one method's table: each key goes into the bucket of its piece count and gets its part list. */
    static method BucketTable(c: map<nat, seq<string>>, p0: map<string, seq<RoutePart>>, t: seq<Entry<H>>)
      returns (b: map<nat, seq<string>>, p: map<string, seq<RoutePart>>)
      ensures b == Bucketed(c, t)
      ensures p == WithParts(p0, t)
    {
      b, p := c, p0;
      var j := 0;
      while j < |t|
        invariant 0 <= j <= |t|
        invariant b == Bucketed(c, t[..j])
        invariant p == WithParts(p0, t[..j])
      {
        var k := t[j].key;
        var n := |Split(k, '/')|;
        BucketedStep(c, t, j);
        WithPartsStep(p0, t, j);
        b := b[n := (if n in b then b[n] else []) + [k]];
        p := p[k := PartsOf(k)];
        j := j + 1;
      }
      assert t[..j] == t;
    }

    /** The body of `initialize()` for the table `t` of method `m`. */
    static method InitializeMethod(t: seq<Entry<H>>, m: RequestMethod, c0: map<RequestMethod, map<nat, seq<string>>>,
                                   rp0: map<RequestMethod, map<string, seq<RoutePart>>>)
      returns (c: map<RequestMethod, map<nat, seq<string>>>, rp: map<RequestMethod, map<string, seq<RoutePart>>>)
      requires m in c0
      ensures c == c0[m := Bucketed(c0[m], t)]
      ensures rp == PartsAfter(rp0, m, t)
    {
      var p0: map<string, seq<RoutePart>> := if m in rp0 then rp0[m] else map[];
      var b, p := BucketTable(c0[m], p0, t);
      c, rp := c0[m := b], rp0;
      if t != [] {
        rp := rp0[m := p];
      }
    }

    /**
     * The loops of `initialize()` over the tables: every key of every table goes
     * into the bucket of its piece count, in enum order of the methods and
     * registration order of the keys, and its part list is stored; a method's
     * part map is created on its first route.
     */
    static method InitializeTables(routes: map<RequestMethod, seq<Entry<H>>>, c0: map<RequestMethod, map<nat, seq<string>>>,
                                   rp0: map<RequestMethod, map<string, seq<RoutePart>>>)
      returns (c: map<RequestMethod, map<nat, seq<string>>>, rp: map<RequestMethod, map<string, seq<RoutePart>>>)
      requires forall m :: m in routes && m in c0
      ensures c == BucketAll(c0, routes, AllMethods)
      ensures rp == PartsAll(rp0, routes, AllMethods)
    {
      c, rp := c0, rp0;
      var i := 0;
      while i < |AllMethods|
        invariant 0 <= i <= |AllMethods|
        invariant forall m :: m in c
        invariant BucketAll(c, routes, AllMethods[i..]) == BucketAll(c0, routes, AllMethods)
        invariant PartsAll(rp, routes, AllMethods[i..]) == PartsAll(rp0, routes, AllMethods)
      {
        var m := AllMethods[i];
        assert AllMethods[i..][1..] == AllMethods[i + 1..];
        c, rp := InitializeMethod(routes[m], m, c, rp);
        i := i + 1;
      }
    }

    /** `initialize()`, run once all routes are registered. */
    method Initialize()
      requires Valid()
      modifies this`candidates, this`routeParts
      ensures Valid()
      ensures candidates == BucketAll(old(candidates), routes, AllMethods)
      ensures routeParts == PartsAll(old(routeParts), routes, AllMethods)
    {
      InitializeValid(routes, candidates, routeParts, AllMethods);
      candidates, routeParts := InitializeTables(routes, candidates, routeParts);
    }

    /**
     * One pass of the inner loop of `findMatched`: compare the candidate's parts
     * with the request segments left to right, recording each capture, until a
     * part is missing or does not match. The candidate is matched when the last
     * segment is reached and matches.
     */
    static method ExamineCandidate(ps: seq<RoutePart>, req: seq<string>, re: (string, string) -> bool)
      returns (full: bool, params: map<string, string>)
      ensures full == FullMatch(ps, req, re)
      ensures params == Captures(ps, req, re)
    {
      params := map[];
      full := false;
      var j := 0;
      while j < |req|
        invariant 0 <= j <= |req| && j <= |ps|
        invariant forall k :: 0 <= k < j ==> Matches(ps[k], req[k], re).ok
        invariant params == CapturesBefore(ps, req, j)
        invariant full == (j == |req| && j > 0)
      {
        if j >= |ps| {
          break;
        }
        var r := Matches(ps[j], req[j], re);
        if r.capture.Some? {
          params := params[r.capture.value.0 := r.capture.value.1];
        }
        if !r.ok {
          break;
        }
        if j == |req| - 1 {
          full := true;
        }
        j := j + 1;
      }
      assert FirstFail(ps, req, re, 0) == j;
    }

    /**
     * `findMatched`: walk the bucket of routes with as many pieces as the
     * request (`routeCandidates[method][size]`, empty when absent), clearing the
     * parameters before each candidate and comparing it through its stored part
     * list (`routeParts[method]`); the last candidate that matches every segment
     * wins, and the parameters left behind are those of the last candidate
     * examined.
     */
    static method FindMatched(bucket: seq<string>, parts: map<string, seq<RoutePart>>, req: seq<string>,
                              params0: map<string, string>, re: (string, string) -> bool)
      returns (matched: Option<string>, params: map<string, string>)
      requires forall k :: k in bucket ==> k in parts && parts[k] == PartsOf(k)
      ensures matched == LastMatch(bucket, req, re)
      ensures params == LastCaptures(bucket, req, re, params0)
    {
      matched := None;
      params := params0;
      var i := 0;
      while i < |bucket|
        invariant 0 <= i <= |bucket|
        invariant matched == LastMatch(bucket[..i], req, re)
        invariant params == LastCaptures(bucket[..i], req, re, params0)
      {
        var route := bucket[i];
        params := map[];
        var full;
        full, params := ExamineCandidate(parts[route], req, re);
        if full {
          matched := Some(route);
        }
        ScanStep(bucket, i, req, re, params0);
        i := i + 1;
      }
      ScanDone(bucket, req, re, params0);
    }

    /**
     * `findMatched` with the captures saved when a candidate matches, so the
     * parameters left behind belong to the route it returns.
     */
    static method FindMatchedCorrected(bucket: seq<string>, parts: map<string, seq<RoutePart>>, req: seq<string>,
                                       re: (string, string) -> bool)
      returns (matched: Option<string>, params: map<string, string>)
      requires forall k :: k in bucket ==> k in parts && parts[k] == PartsOf(k)
      ensures matched == LastMatch(bucket, req, re)
      ensures params == MatchedCaptures(bucket, req, re)
    {
      matched := None;
      params := map[];
      var i := 0;
      while i < |bucket|
        invariant 0 <= i <= |bucket|
        invariant matched == LastMatch(bucket[..i], req, re)
        invariant params == MatchedCaptures(bucket[..i], req, re)
      {
        var route := bucket[i];
        var full, candidateParams := ExamineCandidate(parts[route], req, re);
        if full {
          matched := Some(route);
          params := candidateParams;
        }
        ScanStep(bucket, i, req, re, map[]);
        MatchedScanStep(bucket, i, req, re);
        i := i + 1;
      }
      assert bucket[..i] == bucket;
    }

    /**
     * The `find` in `handle`: the first key of the method's table `t`, in
     * registration order, that is `*` or equals the route `findMatched` picks;
     * `findMatched` runs again for every key that is not `*`, sharing one
     * parameter map that starts out empty.
     */
    static method FindKey(t: seq<Entry<H>>, bucket: seq<string>, parts: map<string, seq<RoutePart>>, req: seq<string>, re: (string, string) -> bool)
      returns (sel: Option<nat>, params: map<string, string>)
      requires forall k :: k in bucket ==> k in parts && parts[k] == PartsOf(k)
      ensures sel == Select(t, LastMatch(bucket, req, re))
      ensures sel.Some? ==>
        params == (if sel.value == 0 && t[0].key == "*" then map[] else LastCaptures(bucket, req, re, map[]))
    {
      params := map[];
      ghost var matched := LastMatch(bucket, req, re);
      var i := 0;
      while i < |t|
        invariant 0 <= i <= |t|
        invariant forall j :: 0 <= j < i ==> !Picks(t[j].key, matched)
        invariant params == if i == 0 then map[] else LastCaptures(bucket, req, re, map[])
      {
        if t[i].key == "*" {
          SelectFirst(t, matched, i);
          return Some(i), params;
        }
        var found;
        found, params := FindMatched(bucket, parts, req, params, re);
        if Some(t[i].key) == found {
          SelectFirst(t, matched, i);
          return Some(i), params;
        }
        assert !Picks(t[i].key, matched);
        i := i + 1;
      }
      return None, params;
    }

    /**
     * `handle(exchange)`: an unknown method name makes `valueOf` throw, which is
     * answered with the error response. Otherwise the request path, stripped of
     * its edge slashes, is split into segments and the key `FindKey` selects
     * runs its handler with the captured parameters; with no key, 404.
     */
    method Handle(methodName: string, path: string, re: (string, string) -> bool) returns (out: Outcome<H>)
      requires Valid()
      ensures ValueOf(methodName).None? ==> out == Respond(ErrorResponse(500, methodName))
      ensures ValueOf(methodName).Some? ==>
        var m := ValueOf(methodName).value;
        var req := RequestParts(path);
        var bucket := Bucket(m, |req|);
        var sel := Select(routes[m], LastMatch(bucket, req, re));
        && (sel.None? ==> out == Respond(NotFound()))
        && (sel.Some? ==> out == Dispatch(routes[m][sel.value].key, routes[m][sel.value].handler,
              if sel.value == 0 && routes[m][0].key == "*" then map[] else LastCaptures(bucket, req, re, map[])))
    {
      var requestMethod := ValueOf(methodName);
      if requestMethod.None? {
        return Respond(ErrorResponse(500, methodName));
      }
      var m := requestMethod.value;
      var req := Split(StripSlashes(path), '/');
      var bucket := if |req| in candidates[m] then candidates[m][|req|] else [];
      var parts := if m in routeParts then routeParts[m] else map[];
      BucketHasParts(m, |req|);
      var sel, params := FindKey(routes[m], bucket, parts, req, re);
      if sel.None? {
        return Respond(NotFound());
      }
      var e := routes[m][sel.value];
      return Dispatch(e.key, e.handler, params);
    }

    /** Every route in a bucket has its stored part list, built from the route. */
    lemma BucketHasParts(m: RequestMethod, n: nat)
      requires Valid()
      ensures forall k :: k in Bucket(m, n) ==> m in routeParts && k in routeParts[m] && routeParts[m][k] == PartsOf(k)
    {
      forall k | k in Bucket(m, n)
        ensures m in routeParts && k in routeParts[m] && routeParts[m][k] == PartsOf(k)
      {
        assert k in candidates[m][n];
      }
    }
  }
}

/**
 * The router block of the local server: the runtime routes grouped under
 * `<date>/runtime` and `<date>/runtime/invocation`, and the catch-all proxy
 * route, registered on a `Router` and initialized. `fixed` selects between the
 * registration as written (error routes under GET, proxy under GET only) and
 * the corrected one (error routes under POST, proxy under every method).
 */
module LocalRoutes {
  import opened Wrappers
  import opened Text
  import opened Router
  import CustomRuntime

  /** What each registered route does, as the handler blocks of the router do it. */
  datatype Endpoint = NextEvent | InvocationError | InvocationResponse | InitError | Proxy

  /** `Environment.RUNTIME_DATE` */
  const Date: string := "2018-06-01"

  /** The base path of the runtime group, `"${RUNTIME_DATE}/runtime"`. */
  const RuntimePrefix: string := Date + "/" + "runtime"

  /** The path part of the runtime's base URL. */
  const RuntimePath: string := "/" + RuntimePrefix

  function NextKey(p: string): string { p + "/" + "next" }
  function ErrorKey(p: string): string { p + "/" + ":requestId" + "/" + "error" }
  function ResponseKey(p: string): string { p + "/" + ":requestId" + "/" + "response" }
  function InitKey(p: string): string { p + "/" + "init" + "/" + "error" }

  /** The group prefix of the invocation routes once merged into the server. */
  const InvocationPrefix: string := RuntimePrefix + "/" + "invocation"

  /** The method the two error routes are registered under. */
  function ErrorMethod(fixed: bool): RequestMethod {
    if fixed then POST else GET
  }

  /** Whether the catch-all proxy route is registered for `m`. */
  predicate Proxied(fixed: bool, m: RequestMethod) {
    m == GET || fixed
  }

  /** The table of method `m` of the invocation group, its keys under prefix `p`. */
  function InvocationRoutes(fixed: bool, m: RequestMethod, p: string): seq<Entry<Endpoint>> {
    (if m == GET then [Entry(NextKey(p), NextEvent)] else [])
    + (if m == ErrorMethod(fixed) then [Entry(ErrorKey(p), InvocationError)] else [])
    + (if m == POST then [Entry(ResponseKey(p), InvocationResponse)] else [])
  }

  /** The routes of method `m` of the runtime group, as merged into the server. */
  function RuntimeRoutesOf(fixed: bool, m: RequestMethod): seq<Entry<Endpoint>> {
    InvocationRoutes(fixed, m, InvocationPrefix)
    + (if m == ErrorMethod(fixed) then [Entry(InitKey(RuntimePrefix), InitError)] else [])
  }

  /**
   * The server's table for `m`: every route registered under `m`, in
   * registration order, followed by the proxy route when it is registered for `m`.
   */
  function Table(fixed: bool, m: RequestMethod): seq<Entry<Endpoint>> {
    RuntimeRoutesOf(fixed, m) + (if Proxied(fixed, m) then [Entry("*", Proxy)] else [])
  }

  // ---------------------------------------------------------------------------
  // Keys and pieces
  // ---------------------------------------------------------------------------

  /** A path piece: not empty, no slash. */
  predicate IsPiece(x: string) {
    x != "" && '/' !in x
  }

  lemma PiecesCons(x: string, rest: string)
    requires '/' !in x
    ensures Pieces(x + "/" + rest) == [x] + Pieces(rest)
  {
    SplitAfterPiece(x, '/', rest);
  }

  lemma PiecesOfFour(a: string, b: string, c: string, d: string)
    requires '/' !in a && '/' !in b && '/' !in c && '/' !in d
    ensures Pieces(a + "/" + b + "/" + c + "/" + d) == [a, b, c, d]
  {
    assert a + "/" + b + "/" + c + "/" + d == a + "/" + (b + "/" + (c + "/" + d));
    PiecesCons(a, b + "/" + (c + "/" + d));
    PiecesCons(b, c + "/" + d);
    PiecesCons(c, d);
    SplitWithoutSep(d, '/');
  }

  lemma PiecesOfFive(a: string, b: string, c: string, d: string, e: string)
    requires '/' !in a && '/' !in b && '/' !in c && '/' !in d && '/' !in e
    ensures Pieces(a + "/" + b + "/" + c + "/" + d + "/" + e) == [a, b, c, d, e]
  {
    assert a + "/" + b + "/" + c + "/" + d + "/" + e == a + "/" + (b + "/" + c + "/" + d + "/" + e);
    PiecesCons(a, b + "/" + c + "/" + d + "/" + e);
    PiecesOfFour(b, c, d, e);
  }

  /** The pieces of every runtime key. */
  lemma KeyPieces()
    ensures Pieces(NextKey(InvocationPrefix)) == [Date, "runtime", "invocation", "next"]
    ensures Pieces(ErrorKey(InvocationPrefix)) == [Date, "runtime", "invocation", ":requestId", "error"]
    ensures Pieces(ResponseKey(InvocationPrefix)) == [Date, "runtime", "invocation", ":requestId", "response"]
    ensures Pieces(InitKey(RuntimePrefix)) == [Date, "runtime", "init", "error"]
    ensures Pieces("*") == ["*"]
  {
    PiecesOfFour(Date, "runtime", "invocation", "next");
    PiecesOfFive(Date, "runtime", "invocation", ":requestId", "error");
    PiecesOfFive(Date, "runtime", "invocation", ":requestId", "response");
    PiecesOfFour(Date, "runtime", "init", "error");
    SplitWithoutSep("*", '/');
  }

  // ---------------------------------------------------------------------------
  // Registration
  // ---------------------------------------------------------------------------

  /** A key that `stripSlashes` leaves alone. */
  predicate Bare(k: string) {
    k != "" && k[0] != '/' && k[|k| - 1] != '/'
  }

  /** Adding a bare path under a base: `base/path`, or the path itself under the empty base. */
  lemma RouteKeyOfBare(base: string, x: string)
    requires Bare(x)
    ensures RouteKey(base, x) == if base == "" then x else base + "/" + x
  {
    StripSlashesAround(x);
  }

  /** The base paths of the two groups. */
  lemma GroupPaths()
    ensures StripSlashes("/invocation") == "invocation"
    ensures StripSlashes(Date + "/runtime") == RuntimePrefix
  {
    StripSlashesAround("invocation");
    assert "/invocation" == "/" + "invocation";
    JoinedBare(Date, "runtime", "/runtime");
  }

  /** Two bare pieces joined by a slash, the slash passed in as part of `sb == "/" + b`. */
  lemma JoinedBare(a: string, b: string, sb: string)
    requires a != "" && b != "" && a[0] != '/' && b[|b| - 1] != '/' && sb == "/" + b
    ensures a + sb == a + "/" + b
    ensures StripSlashes(a + "/" + b) == a + "/" + b
  {
    var k := a + "/" + b;
    assert k[0] == a[0] && k[|k| - 1] == b[|b| - 1];
    StripSlashesAround(k);
  }

  /** `add` under a group stores `/path` as `group/path`. */
  lemma AddedKey(group: string, x: string)
    requires Bare(x)
    ensures RouteKey(group, "/" + x) == (if group == "" then "" else group + "/") + x
  {
    StripSlashesAround(x);
  }

  /** The route paths of the router block, as `add` stores them. */
  lemma NextPath()
    ensures RouteKey("invocation", "/next") == NextKey("invocation")
  {
    assert "/next" == "/" + "next";
    AddedKey("invocation", "next");
  }

  lemma ErrorPath()
    ensures RouteKey("invocation", "/:requestId/error") == ErrorKey("invocation")
  {
    var x := ":requestId" + "/" + "error";
    assert "/:requestId/error" == "/" + x;
    AddedKey("invocation", x);
  }

  lemma ResponsePath()
    ensures RouteKey("invocation", "/:requestId/response") == ResponseKey("invocation")
  {
    var x := ":requestId" + "/" + "response";
    assert "/:requestId/response" == "/" + x;
    AddedKey("invocation", x);
  }

  lemma InitPath()
    ensures RouteKey(RuntimePrefix, "/init/error") == InitKey(RuntimePrefix)
  {
    var x := "init" + "/" + "error";
    assert "/init/error" == "/" + x;
    AddedKey(RuntimePrefix, x);
  }

  lemma ProxyPath()
    ensures RouteKey("", "*") == "*"
  {
    StripSlashesAround("*");
  }

  /** The entries of `es` with their keys re-based under `base`. */
  function Rebased<H>(base: string, es: seq<Entry<H>>): seq<Entry<H>>
    decreases |es|
  {
    if es == [] then []
    else Rebased(base, es[..|es| - 1]) + [Entry(RouteKey(base, es[|es| - 1].key), es[|es| - 1].handler)]
  }

  /** Putting a key the table does not hold appends it. */
  lemma {:induction false} PutFresh<H>(t: seq<Entry<H>>, key: string, h: H)
    requires key !in KeysOf(t)
    ensures Put(t, key, h) == t + [Entry(key, h)]
    decreases |t|
  {
    if t != [] {
      var ks := KeysOf(t);
      assert ks[0] == t[0].key && ks[1..] == KeysOf(t[1..]);
      assert key !in KeysOf(t[1..]);
      PutFresh(t[1..], key, h);
      assert Put(t, key, h) == [t[0]] + Put(t[1..], key, h);
      assert [t[0]] + (t[1..] + [Entry(key, h)]) == t + [Entry(key, h)];
    }
  }

  /** Merging routes whose re-based keys are distinct into an empty table appends them all, in order. */
  lemma {:induction false} AddAllIntoEmpty<H>(base: string, es: seq<Entry<H>>)
    requires Distinct(KeysOf(Rebased(base, es)))
    ensures AddAll([], base, es) == Rebased(base, es)
    decreases |es|
  {
    if es != [] {
      var front := es[..|es| - 1];
      var rf := Rebased(base, front);
      var r := Rebased(base, es);
      assert r[..|r| - 1] == rf;
      KeysOfLast(r);
      var ks := KeysOf(r);
      assert KeysOf(rf) == ks[..|ks| - 1];
      AddAllIntoEmpty(base, front);
      PutFresh(rf, r[|r| - 1].key, r[|r| - 1].handler);
    }
  }

  lemma {:induction false} RebasedAppend<H>(base: string, xs: seq<Entry<H>>, ys: seq<Entry<H>>)
    ensures Rebased(base, xs + ys) == Rebased(base, xs) + Rebased(base, ys)
    decreases |ys|
  {
    if ys == [] {
      assert xs + ys == xs;
    } else {
      assert (xs + ys)[..|xs + ys| - 1] == xs + ys[..|ys| - 1];
      assert (xs + ys)[|xs + ys| - 1] == ys[|ys| - 1];
      RebasedAppend(base, xs, ys[..|ys| - 1]);
    }
  }

  lemma RebasedOne<H>(base: string, e: Entry<H>)
    ensures Rebased(base, [e]) == [Entry(RouteKey(base, e.key), e.handler)]
  {
    assert [e][..0] == [];
  }

  /** Re-basing a conditional single entry. */
  lemma RebasedIf<H>(base: string, c: bool, e: Entry<H>)
    ensures Rebased(base, if c then [e] else []) == if c then [Entry(RouteKey(base, e.key), e.handler)] else []
  {
    if c {
      RebasedOne(base, e);
    }
  }

  /** A bare key nested under a non-empty group. */
  lemma NestedKey(base: string, k: string)
    requires base != "" && Bare(k)
    ensures RouteKey(base, k) == base + "/" + k
  {
    StripSlashesAround(k);
  }

  /** Merged into the runtime group, the invocation routes move under `<date>/runtime/invocation`. */
  lemma InvocationRebased(fixed: bool, m: RequestMethod)
    ensures Rebased(RuntimePrefix, InvocationRoutes(fixed, m, "invocation")) == InvocationRoutes(fixed, m, InvocationPrefix)
  {
    var p := "invocation";
    var a: seq<Entry<Endpoint>> := if m == GET then [Entry(NextKey(p), NextEvent)] else [];
    var b: seq<Entry<Endpoint>> := if m == ErrorMethod(fixed) then [Entry(ErrorKey(p), InvocationError)] else [];
    var c: seq<Entry<Endpoint>> := if m == POST then [Entry(ResponseKey(p), InvocationResponse)] else [];
    RebasedAppend(RuntimePrefix, a + b, c);
    RebasedAppend(RuntimePrefix, a, b);
    RebasedIf(RuntimePrefix, m == GET, Entry(NextKey(p), NextEvent));
    RebasedIf(RuntimePrefix, m == ErrorMethod(fixed), Entry(ErrorKey(p), InvocationError));
    RebasedIf(RuntimePrefix, m == POST, Entry(ResponseKey(p), InvocationResponse));
    InvocationKeysRebased();
  }

  /** The three invocation keys, re-based under the runtime group. */
  lemma InvocationKeysRebased()
    ensures RouteKey(RuntimePrefix, NextKey("invocation")) == NextKey(InvocationPrefix)
    ensures RouteKey(RuntimePrefix, ErrorKey("invocation")) == ErrorKey(InvocationPrefix)
    ensures RouteKey(RuntimePrefix, ResponseKey("invocation")) == ResponseKey(InvocationPrefix)
  {
    NestUnder(RuntimePrefix, "invocation", "next");
    NestUnderThree(RuntimePrefix, "invocation", ":requestId", "error");
    NestUnderThree(RuntimePrefix, "invocation", ":requestId", "response");
  }

  lemma NestUnderThree(base: string, a: string, b: string, c: string)
    requires base != "" && a != "" && c != ""
    requires a[0] != '/' && c[|c| - 1] != '/'
    ensures RouteKey(base, a + "/" + b + "/" + c) == base + "/" + a + "/" + b + "/" + c
  {
    var k := a + "/" + b + "/" + c;
    assert k[0] == a[0] && k[|k| - 1] == c[|c| - 1];
    NestedKey(base, k);
    assert base + "/" + k == base + "/" + a + "/" + b + "/" + c;
  }

  lemma NestUnder(base: string, group: string, rest: string)
    requires base != "" && group != "" && rest != ""
    requires group[0] != '/' && rest[|rest| - 1] != '/'
    ensures RouteKey(base, group + "/" + rest) == base + "/" + group + "/" + rest
  {
    var k := group + "/" + rest;
    assert k[0] == group[0] && k[|k| - 1] == rest[|rest| - 1];
    NestedKey(base, k);
  }

  /** Every runtime key is longer than the invocation prefix except the init key, which is as long. */
  lemma KeyLengths(p: string)
    ensures |NextKey(p)| == |p| + 5 && |ErrorKey(p)| == |p| + 17 && |ResponseKey(p)| == |p| + 20
    ensures |InitKey(RuntimePrefix)| == |InvocationPrefix| == 29
  {
  }

  /** Keys of pairwise different lengths are distinct. */
  lemma DistinctByLength<H>(t: seq<Entry<H>>)
    requires forall i, j :: 0 <= i < j < |t| ==> |t[i].key| != |t[j].key|
    ensures Distinct(KeysOf(t))
  {
  }

  /** No invocation table holds a key twice. */
  lemma InvocationDistinct(fixed: bool, m: RequestMethod)
    ensures Distinct(KeysOf(InvocationRoutes(fixed, m, InvocationPrefix)))
  {
    KeyLengths(InvocationPrefix);
    DistinctByLength(InvocationRoutes(fixed, m, InvocationPrefix));
  }

  /** No runtime table holds a key twice. */
  lemma RuntimeDistinct(fixed: bool, m: RequestMethod)
    ensures Distinct(KeysOf(RuntimeRoutesOf(fixed, m)))
  {
    KeyLengths(InvocationPrefix);
    var ip := InvocationPrefix;
    var init := Entry(InitKey(RuntimePrefix), InitError);
    if m == GET && !fixed {
      assert RuntimeRoutesOf(fixed, m) == [Entry(NextKey(ip), NextEvent), Entry(ErrorKey(ip), InvocationError), init];
    } else if m == POST && fixed {
      assert RuntimeRoutesOf(fixed, m) == [Entry(ErrorKey(ip), InvocationError), Entry(ResponseKey(ip), InvocationResponse), init];
    }
    DistinctByLength(RuntimeRoutesOf(fixed, m));
  }

  /** No table of the server holds a key twice. */
  lemma TableDistinct(fixed: bool, m: RequestMethod)
    ensures Distinct(KeysOf(Table(fixed, m)))
  {
    KeyLengths(InvocationPrefix);
    var ip := InvocationPrefix;
    var init := Entry(InitKey(RuntimePrefix), InitError);
    var star := Entry("*", Proxy);
    if m == GET && !fixed {
      assert Table(fixed, m) == [Entry(NextKey(ip), NextEvent), Entry(ErrorKey(ip), InvocationError), init, star];
    } else if m == GET {
      assert Table(fixed, m) == [Entry(NextKey(ip), NextEvent), star];
    } else if m == POST && fixed {
      assert Table(fixed, m) == [Entry(ErrorKey(ip), InvocationError), Entry(ResponseKey(ip), InvocationResponse), init, star];
    } else if m == POST {
      assert Table(fixed, m) == [Entry(ResponseKey(ip), InvocationResponse)];
    } else {
      assert Table(fixed, m) == if fixed then [star] else [];
    }
    DistinctByLength(Table(fixed, m));
  }

  /** A table whose keys are distinct does not hold its last key earlier. */
  lemma LastKeyFresh<H>(xs: seq<Entry<H>>, e: Entry<H>)
    requires Distinct(KeysOf(xs + [e]))
    ensures e.key !in KeysOf(xs)
  {
    KeysOfLast(xs + [e]);
    assert (xs + [e])[..|xs|] == xs;
  }

  /** The full keys are bare, so the server, whose base path is empty, keeps them as they are. */
  lemma RootKeys()
    ensures RouteKey("", NextKey(InvocationPrefix)) == NextKey(InvocationPrefix)
    ensures RouteKey("", ErrorKey(InvocationPrefix)) == ErrorKey(InvocationPrefix)
    ensures RouteKey("", ResponseKey(InvocationPrefix)) == ResponseKey(InvocationPrefix)
    ensures RouteKey("", InitKey(RuntimePrefix)) == InitKey(RuntimePrefix)
  {
    RootKey(InvocationPrefix, "next");
    RootKey(InvocationPrefix + "/" + ":requestId", "error");
    RootKey(InvocationPrefix + "/" + ":requestId", "response");
    RootKey(RuntimePrefix + "/" + "init", "error");
  }

  lemma RootKey(p: string, last: string)
    requires p != "" && p[0] != '/' && last != "" && last[|last| - 1] != '/'
    ensures RouteKey("", p + "/" + last) == p + "/" + last
  {
    var k := p + "/" + last;
    assert k[0] == p[0] && k[|k| - 1] == last[|last| - 1];
    RouteKeyOfBare("", k);
  }

  lemma RootRebased(fixed: bool, m: RequestMethod)
    ensures Rebased("", RuntimeRoutesOf(fixed, m)) == RuntimeRoutesOf(fixed, m)
  {
    var ip := InvocationPrefix;
    var a: seq<Entry<Endpoint>> := if m == GET then [Entry(NextKey(ip), NextEvent)] else [];
    var b: seq<Entry<Endpoint>> := if m == ErrorMethod(fixed) then [Entry(ErrorKey(ip), InvocationError)] else [];
    var c: seq<Entry<Endpoint>> := if m == POST then [Entry(ResponseKey(ip), InvocationResponse)] else [];
    var d: seq<Entry<Endpoint>> := if m == ErrorMethod(fixed) then [Entry(InitKey(RuntimePrefix), InitError)] else [];
    RebasedAppend("", a + b + c, d);
    RebasedAppend("", a + b, c);
    RebasedAppend("", a, b);
    RebasedIf("", m == GET, Entry(NextKey(ip), NextEvent));
    RebasedIf("", m == ErrorMethod(fixed), Entry(ErrorKey(ip), InvocationError));
    RebasedIf("", m == POST, Entry(ResponseKey(ip), InvocationResponse));
    RebasedIf("", m == ErrorMethod(fixed), Entry(InitKey(RuntimePrefix), InitError));
    RootKeys();
  }

  /** The invocation group after its three `add`s. */
  lemma InvocationGroup(fixed: bool, r0: map<RequestMethod, seq<Entry<Endpoint>>>, r1: map<RequestMethod, seq<Entry<Endpoint>>>,
                        r2: map<RequestMethod, seq<Entry<Endpoint>>>, r3: map<RequestMethod, seq<Entry<Endpoint>>>)
    requires forall m :: m in r0 && r0[m] == []
    requires r1 == r0[GET := Put(r0[GET], NextKey("invocation"), NextEvent)]
    requires r2 == r1[ErrorMethod(fixed) := Put(r1[ErrorMethod(fixed)], ErrorKey("invocation"), InvocationError)]
    requires r3 == r2[POST := Put(r2[POST], ResponseKey("invocation"), InvocationResponse)]
    ensures forall m :: m in r3 && r3[m] == InvocationRoutes(fixed, m, "invocation")
  {
    KeyLengths("invocation");
    assert r1[GET] == [Entry(NextKey("invocation"), NextEvent)];
    PutFresh(r1[ErrorMethod(fixed)], ErrorKey("invocation"), InvocationError);
    PutFresh(r2[POST], ResponseKey("invocation"), InvocationResponse);
  }

  /** The runtime group after merging the invocation group and adding the init error route. */
  lemma RuntimeGroup(fixed: bool, r1: map<RequestMethod, seq<Entry<Endpoint>>>, r2: map<RequestMethod, seq<Entry<Endpoint>>>)
    requires forall m :: m in r1 && r1[m] == InvocationRoutes(fixed, m, InvocationPrefix)
    requires r2 == r1[ErrorMethod(fixed) := Put(r1[ErrorMethod(fixed)], InitKey(RuntimePrefix), InitError)]
    ensures forall m :: m in r2 && r2[m] == RuntimeRoutesOf(fixed, m)
  {
    forall m ensures m in r2 && r2[m] == RuntimeRoutesOf(fixed, m) {
      RuntimeGroupAt(fixed, r1[m], r2, m);
    }
  }

  /** The runtime group right after merging the invocation group: every invocation route moved under the runtime prefix. */
  lemma InvocationMergedAll(fixed: bool, inv: map<RequestMethod, seq<Entry<Endpoint>>>, r0: map<RequestMethod, seq<Entry<Endpoint>>>)
    requires forall m :: m in inv && inv[m] == InvocationRoutes(fixed, m, "invocation")
    requires forall m :: m in r0 && r0[m] == []
    ensures var r1 := MergeAll(r0, RuntimePrefix, inv, AllMethods);
      forall m :: m in r1 && r1[m] == InvocationRoutes(fixed, m, InvocationPrefix)
  {
    forall m ensures MergeAll(r0, RuntimePrefix, inv, AllMethods)[m] == InvocationRoutes(fixed, m, InvocationPrefix) {
      InvocationMerged(fixed, inv, r0, m);
    }
  }

  /** One method's table of the runtime group, from its table after the merge. */
  lemma RuntimeGroupAt(fixed: bool, merged: seq<Entry<Endpoint>>, r2: map<RequestMethod, seq<Entry<Endpoint>>>, m: RequestMethod)
    requires merged == InvocationRoutes(fixed, m, InvocationPrefix)
    requires m in r2
    requires m == ErrorMethod(fixed) ==> r2[m] == Put(merged, InitKey(RuntimePrefix), InitError)
    requires m != ErrorMethod(fixed) ==> r2[m] == merged
    ensures r2[m] == RuntimeRoutesOf(fixed, m)
  {
    if m == ErrorMethod(fixed) {
      InitAppended(fixed);
    } else {
      assert RuntimeRoutesOf(fixed, m) == merged + [];
    }
  }

  /** Adding the init error route to the error method's table appends it. */
  lemma InitAppended(fixed: bool)
    ensures Put(InvocationRoutes(fixed, ErrorMethod(fixed), InvocationPrefix), InitKey(RuntimePrefix), InitError)
      == RuntimeRoutesOf(fixed, ErrorMethod(fixed))
  {
    var e := ErrorMethod(fixed);
    var xs := InvocationRoutes(fixed, e, InvocationPrefix);
    var init := Entry(InitKey(RuntimePrefix), InitError);
    assert RuntimeRoutesOf(fixed, e) == xs + [init];
    RuntimeDistinct(fixed, e);
    LastKeyFresh(xs, init);
    PutFresh(xs, InitKey(RuntimePrefix), InitError);
  }

  /** One method's table of the runtime group once the invocation group is merged into it. */
  lemma InvocationMerged(fixed: bool, inv: map<RequestMethod, seq<Entry<Endpoint>>>, r0: map<RequestMethod, seq<Entry<Endpoint>>>, m: RequestMethod)
    requires forall m :: m in inv && inv[m] == InvocationRoutes(fixed, m, "invocation")
    requires forall m :: m in r0 && r0[m] == []
    ensures MergeAll(r0, RuntimePrefix, inv, AllMethods)[m] == InvocationRoutes(fixed, m, InvocationPrefix)
  {
    MergedTables(r0, RuntimePrefix, inv, m);
    InvocationRebased(fixed, m);
    InvocationDistinct(fixed, m);
    AddAllIntoEmpty(RuntimePrefix, InvocationRoutes(fixed, m, "invocation"));
  }

  /** The server after merging the runtime group. */
  lemma ServerGroup(fixed: bool, rt: map<RequestMethod, seq<Entry<Endpoint>>>, r0: map<RequestMethod, seq<Entry<Endpoint>>>,
                    r1: map<RequestMethod, seq<Entry<Endpoint>>>)
    requires forall m :: m in rt && rt[m] == RuntimeRoutesOf(fixed, m)
    requires forall m :: m in r0 && r0[m] == []
    requires r1 == MergeAll(r0, "", rt, AllMethods)
    ensures forall m :: m in r1 && r1[m] == RuntimeRoutesOf(fixed, m)
  {
    forall m ensures r1[m] == RuntimeRoutesOf(fixed, m) {
      MergedTables(r0, "", rt, m);
      RootRebased(fixed, m);
      RuntimeDistinct(fixed, m);
      AddAllIntoEmpty("", RuntimeRoutesOf(fixed, m));
    }
  }

  /** Adding the proxy route to a method's table appends it. */
  lemma ProxyAdded(fixed: bool, m: RequestMethod)
    requires Proxied(fixed, m)
    ensures Put(RuntimeRoutesOf(fixed, m), "*", Proxy) == Table(fixed, m)
  {
    TableDistinct(fixed, m);
    LastKeyFresh(RuntimeRoutesOf(fixed, m), Entry("*", Proxy));
    PutFresh(RuntimeRoutesOf(fixed, m), "*", Proxy);
  }

  /** A method without the proxy route keeps the runtime routes alone. */
  lemma NotProxied(fixed: bool, m: RequestMethod)
    requires !Proxied(fixed, m)
    ensures RuntimeRoutesOf(fixed, m) == Table(fixed, m)
  {
    assert RuntimeRoutesOf(fixed, m) + [] == RuntimeRoutesOf(fixed, m);
  }

  // ---------------------------------------------------------------------------
  // The router block
  // ---------------------------------------------------------------------------

  /**
   * The `path("${RUNTIME_DATE}/runtime")` group: the nested `path("/invocation")`
   * group with its three routes, merged, then the init error route.
   */
  method RuntimeGroupRouter(fixed: bool) returns (runtime: Router<Endpoint>)
    ensures fresh(runtime) && runtime.Valid()
    ensures forall m :: runtime.routes[m] == RuntimeRoutesOf(fixed, m)
  {
    runtime := new Router(Date + "/runtime");
    var invocation := InvocationGroupRouter(fixed);
    GroupPaths();
    InitPath();
    ghost var q0 := runtime.routes;
    runtime.Merge(invocation);
    InvocationMergedAll(fixed, invocation.routes, q0);
    ghost var q1 := runtime.routes;
    runtime.Add(ErrorMethod(fixed), "/init/error", InitError);
    RuntimeGroup(fixed, q1, runtime.routes);
  }

  /** The `path("/invocation")` group with its three routes. */
  method InvocationGroupRouter(fixed: bool) returns (invocation: Router<Endpoint>)
    ensures fresh(invocation) && invocation.Valid()
    ensures forall m :: invocation.routes[m] == InvocationRoutes(fixed, m, "invocation")
  {
    invocation := new Router("/invocation");
    GroupPaths();
    NextPath();
    ErrorPath();
    ResponsePath();
    ghost var r0 := invocation.routes;
    invocation.Add(GET, "/next", NextEvent);
    ghost var r1 := invocation.routes;
    invocation.Add(ErrorMethod(fixed), "/:requestId/error", InvocationError);
    ghost var r2 := invocation.routes;
    invocation.Add(POST, "/:requestId/response", InvocationResponse);
    InvocationGroup(fixed, r0, r1, r2, invocation.routes);
  }

  /** The server with the runtime group merged into it, buckets not yet built. */
  method ServerWithRuntime(fixed: bool) returns (server: Router<Endpoint>)
    ensures fresh(server) && server.Valid() && server.basePath == ""
    ensures forall m :: server.routes[m] == RuntimeRoutesOf(fixed, m)
    ensures forall m :: m in server.candidates && server.candidates[m] == map[]
  {
    server := new Router("");
    var runtime := RuntimeGroupRouter(fixed);
    ghost var s0 := server.routes;
    server.Merge(runtime);
    ServerGroup(fixed, runtime.routes, s0, server.routes);
  }

  /** The catch-all `get("*")`, as written: the proxy route under GET only. */
  method AddProxyForGet(server: Router<Endpoint>)
    requires server.Valid() && server.basePath == ""
    requires forall m :: server.routes[m] == RuntimeRoutesOf(false, m)
    modifies server`routes
    ensures server.Valid()
    ensures forall m :: server.routes[m] == Table(false, m)
  {
    ProxyPath();
    ProxyAdded(false, GET);
    server.Add(GET, "*", Proxy);
    forall m | m != GET ensures server.routes[m] == Table(false, m) {
      NotProxied(false, m);
    }
  }

  /** The tables after `add` puts `key` under each method of `ms`, in order. */
  ghost function PutAll<H>(routes: map<RequestMethod, seq<Entry<H>>>, key: string, h: H, ms: seq<RequestMethod>): (r: map<RequestMethod, seq<Entry<H>>>)
    requires forall m :: m in routes
    ensures forall m :: m in r
  {
    if ms == [] then routes
    else PutAll(routes[ms[0] := Put(routes[ms[0]], key, h)], key, h, ms[1..])
  }

  /** When no method is visited twice, each visited method's table gains the route and the others are untouched. */
  lemma {:induction false} PutAllEach<H>(routes: map<RequestMethod, seq<Entry<H>>>, key: string, h: H, ms: seq<RequestMethod>, m: RequestMethod)
    requires forall m :: m in routes
    requires forall i, j :: 0 <= i < j < |ms| ==> ms[i] != ms[j]
    ensures PutAll(routes, key, h, ms)[m] == if m in ms then Put(routes[m], key, h) else routes[m]
    decreases |ms|
  {
    if ms != [] {
      var next := routes[ms[0] := Put(routes[ms[0]], key, h)];
      PutAllEach(next, key, h, ms[1..], m);
      if ms[0] == m {
        assert m !in ms[1..];
      }
    }
  }

  /** `ms.forEach { add(it, path, h) }`: one route added under each method of `ms`, in order. */
  method AddForEach<H>(server: Router<H>, ms: seq<RequestMethod>, path: string, h: H)
    requires server.Valid()
    modifies server`routes
    ensures server.Valid()
    ensures server.routes == PutAll(old(server.routes), RouteKey(server.basePath, path), h, ms)
  {
    ghost var key := RouteKey(server.basePath, path);
    ghost var goal := PutAll(server.routes, key, h, ms);
    for i := 0 to |ms|
      invariant server.Valid()
      invariant PutAll(server.routes, key, h, ms[i..]) == goal
    {
      assert ms[i..][1..] == ms[i + 1..];
      server.Add(ms[i], path, h);
    }
    assert ms[|ms|..] == [];
  }

  /** Corrected: the proxy route under every method. */
  method AddProxyForAll(server: Router<Endpoint>)
    requires server.Valid() && server.basePath == ""
    requires forall m :: server.routes[m] == RuntimeRoutesOf(true, m)
    modifies server`routes
    ensures server.Valid()
    ensures forall m :: server.routes[m] == Table(true, m)
  {
    ProxyPath();
    ghost var r0 := server.routes;
    AddForEach(server, AllMethods, "*", Proxy);
    AllMethodsDistinct();
    forall m ensures server.routes[m] == Table(true, m) {
      AllMethodsListed(m);
      PutAllEach(r0, "*", Proxy, AllMethods, m);
      ProxyAdded(true, m);
    }
  }

  /**
   * `server.router { ... }` in `startServer`: the runtime group, then the
   * catch-all proxy route, then `initialize()`. Every method's table is the
   * routes registered under it, in order, and every bucket holds the keys of
   * its piece count.
   */
  method Wire(fixed: bool) returns (server: Router<Endpoint>)
    ensures fresh(server) && server.Valid()
    ensures forall m :: server.routes[m] == Table(fixed, m)
    ensures forall m, n :: server.Bucket(m, n) == KeysWithCount(Table(fixed, m), n)
  {
    server := RegisterAll(fixed);
    ghost var c0 := server.candidates;
    server.Initialize();
    forall m, n ensures server.Bucket(m, n) == KeysWithCount(Table(fixed, m), n) {
      InitializedBucket(c0, server.routes, m, n);
    }
  }

  /** The routes registered by the `server.router { ... }` block, before `initialize()`. */
  method RegisterAll(fixed: bool) returns (server: Router<Endpoint>)
    ensures fresh(server) && server.Valid()
    ensures forall m :: server.routes[m] == Table(fixed, m)
    ensures forall m :: m in server.candidates && server.candidates[m] == map[]
  {
    server := ServerWithRuntime(fixed);
    if fixed {
      AddProxyForAll(server);
    } else {
      AddProxyForGet(server);
    }
  }
}

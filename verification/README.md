# AWS Lambda custom runtime with a local API Gateway, in Dafny

This project models the core of a Kotlin custom runtime for AWS Lambda and
proves properties of the model. The runtime has three parts:

- **The invocation loop.** It polls the Lambda runtime API for the next
  event, resolves the handler class (once per worker when deployed, once
  per request locally), and runs it. It posts
  the handler's result, or an error report, back to the runtime API, and it
  stops the process on initialisation failures.
- **The runtime routes.** These are the four control endpoints of the
  runtime API (`/invocation/next`, `/invocation/:requestId/response`,
  `/invocation/:requestId/error`, `/init/error`) and their parameter
  substitution.
- **The local API Gateway.** It is a small HTTP server with its own
  router. It serves those control endpoints to local workers, turns every
  other request into an API Gateway proxy event, hands the event to a
  polling worker, and answers the waiting request with the result the worker
  posts back, or "TIMEOUT".

Modules:

| file | module | models |
|---|---|---|
| wrappers.dfy | `Wrappers` | Kotlin's nullable values as `Option` |
| text.dfy | `Text` | the Kotlin string functions the core relies on (`split`, `joinToString`, `indexOf`, `substringAfter`, `dropLast`, `isBlank`, `toLowerCase`) |
| router.dfy | `Router` | `Router.kt`: the class `Router<H>` with its `routes`, `routeCandidates` and `routeParts` tables, `add`, `merge`, `initialize`, `findMatched` and `handle`, and the reply helpers |
| runtime_routes.dfy | `RuntimeRoutes` | `RuntimeRoutes.kt`: the route enum, the lazily built `paramFunctions` table and `withParams` |
| custom_runtime.dfy | `CustomRuntime` | `CustomRuntime.kt`: `Handlers` (a class), the URL builders, reading `/next`, one iteration of `processSingleThreaded` (a method proved against a function) and the whole loop over a sequence of polls |
| gateway.dfy | `Gateway` | `LocalApiGatewayProxy.kt`: handler lookup, the static-asset check, the proxy event, query parsing, and the correlation map `responsesMap` as the class `LocalGateway` |
| local_routes.dfy | `LocalRoutes` | the `server.router { ... }` block of `LocalApiGatewayProxy.kt`, registered on a `Router` step by step and initialized |
| serving.dfy | `Serving` | what the wired server's `handle` does with the runtime's own calls and with API calls |

Regular expressions are a parameter `re(pattern, input)`, which holds when
`pattern` matches the whole of `input`. Handlers are values of a type
parameter (in the router) or named endpoints (in the local server). The
handler a worker runs is a function from class name and payload to an
outcome.

The router block of the local server is modelled twice, selected by a flag
`fixed`: once as written and once corrected (see "## Findings").

Behaviour of the code worth knowing:

- `findMatched` does not pick the first same-length candidate that matches
  in full. It examines all of them and keeps the last one.
- A `:name` part matches every segment, including an empty one.
- `emptyResponse(status)` always replies 200 with an empty body.
- `errorResponse(status, message)` always replies 500 with the body
  `"message"`.
- `HandlerMatcher.matches(test)` matches the compiled path against the path
  itself, not against `test`.

## Model

| member | source | states |
|---|---|---|
| Router.AllMethodsListed | src/main/kotlin/se/davison/aws/lambda/customruntime/local/Router.kt:25-27 | every request method is one of the eight enum constants |
| Router.AllMethodsDistinct | src/main/kotlin/se/davison/aws/lambda/customruntime/local/Router.kt:25-27 | `values()` lists each method once, so per-method loops visit every table exactly once |
| Router.Ordinal | src/main/kotlin/se/davison/aws/lambda/customruntime/local/Router.kt:25-27 | every method has a position in `values()` order that holds that method |
| Router.OrdinalOfListed | src/main/kotlin/se/davison/aws/lambda/customruntime/local/Router.kt:25-27 | the position of the method at index `i` of `values()` is `i` |
| Router.ValueOf | src/main/kotlin/se/davison/aws/lambda/customruntime/local/Router.kt:72 | `valueOf` resolves a name only to the method of that name; a name no method has fails |
| Router.ValueOfMethodName | src/main/kotlin/se/davison/aws/lambda/customruntime/local/Router.kt:72 | every method's name resolves back to that method |
| Router.NotFound | src/main/kotlin/se/davison/aws/lambda/customruntime/local/Router.kt:169-171 | the not-found reply is 404 with body "Not found" |
| Router.EmptyResponse | src/main/kotlin/se/davison/aws/lambda/customruntime/local/Router.kt:182-184 | the empty reply is 200 with an empty body, whatever status is asked for |
| Router.ErrorResponse | src/main/kotlin/se/davison/aws/lambda/customruntime/local/Router.kt:186-188 | the error reply is 500 with the literal body "message", whatever message is given |
| Router.StripSlashes | src/main/kotlin/se/davison/aws/lambda/customruntime/local/Router.kt:194-200 | at most one leading and one trailing slash are removed; putting back the removed ones gives the input |
| Router.StripSlashesAround | src/main/kotlin/se/davison/aws/lambda/customruntime/local/Router.kt:194-200 | a path without edge slashes is recovered from itself with one slash added at either or both ends |
| Router.RequestParts | src/main/kotlin/se/davison/aws/lambda/customruntime/local/Router.kt:74-75 | a request path has at least one part, and joining the parts with "/" gives the stripped path |
| Router.NestedRouteKey | src/main/kotlin/se/davison/aws/lambda/customruntime/local/Router.kt:115-134 | a route added in a nested router under `inner` and merged into a router under `outer` is keyed `outer/inner/path` |
| Router.NestedRootKey | src/main/kotlin/se/davison/aws/lambda/customruntime/local/Router.kt:115-134 | the path "/" in a nested router is keyed by the nested base path, with no trailing slash once merged |
| Router.PartOf | src/main/kotlin/se/davison/aws/lambda/customruntime/local/Router.kt:30-33 | a piece in parentheses becomes a regex part, a piece starting with ':' a parameter named by the rest, and anything else literal text |
| Router.PartsOfKeepKey | src/main/kotlin/se/davison/aws/lambda/customruntime/local/Router.kt:63-65 | reading a key into route parts loses nothing: the parts' texts joined by "/" give the key back |
| Router.MatchRules | src/main/kotlin/se/davison/aws/lambda/customruntime/local/Router.kt:35-43 | a regex part matches by the engine and captures nothing; a parameter always matches and captures its name and the segment; literal text matches itself or "*" and captures nothing |
| Router.CaptureOnlyOnSuccess | src/main/kotlin/se/davison/aws/lambda/customruntime/local/Router.kt:35-43 | only parameter parts capture, and a capture always comes with a match |
| Router.FirstFail | src/main/kotlin/se/davison/aws/lambda/customruntime/local/Router.kt:93-109 | the scan over a candidate stops at the first segment with no part or a failing part; every earlier segment matched |
| Router.FullMatchMeaning | src/main/kotlin/se/davison/aws/lambda/customruntime/local/Router.kt:93-105 | a candidate is recorded iff the request has at least one segment, the candidate has a part for every segment, and every part matches |
| Router.CaptureNames | src/main/kotlin/se/davison/aws/lambda/customruntime/local/Router.kt:97-99 | the names captured while scanning are exactly the parameter names among the parts visited |
| Router.CaptureIsSegment | src/main/kotlin/se/davison/aws/lambda/customruntime/local/Router.kt:97-99 | a parameter part whose name is not repeated later leaves its own segment as that name's value |
| Router.MatchedRouteCaptures | src/main/kotlin/se/davison/aws/lambda/customruntime/local/Router.kt:92-105 | for a candidate that matches in full, each parameter with a name not repeated later is bound to its own segment |
| Router.LastMatchIndex | src/main/kotlin/se/davison/aws/lambda/customruntime/local/Router.kt:88-113 | `findMatched` answers the last candidate of the bucket that matches in full, and no candidate when none does |
| Router.KeysOf | src/main/kotlin/se/davison/aws/lambda/customruntime/local/Router.kt:47 | the keys of a table, one per entry, in insertion order |
| Router.KeysOfLast | src/main/kotlin/se/davison/aws/lambda/customruntime/local/Router.kt:47 | the keys of a table end with the key of its last entry |
| Router.Lookup | src/main/kotlin/se/davison/aws/lambda/customruntime/local/Router.kt:47 | a table holds a handler for a key iff the key is registered |
| Router.Put | src/main/kotlin/se/davison/aws/lambda/customruntime/local/Router.kt:131-134 | writing into a method table keeps insertion order: an existing key stays in place, and a new key is appended |
| Router.PutLookup | src/main/kotlin/se/davison/aws/lambda/customruntime/local/Router.kt:131-134 | after a write the key maps to the new handler, and every other key keeps its handler |
| Router.PutKeepsDistinct | src/main/kotlin/se/davison/aws/lambda/customruntime/local/Router.kt:131-134 | writing into a table keeps its keys distinct |
| Router.AddAllLookup | src/main/kotlin/se/davison/aws/lambda/customruntime/local/Router.kt:121-128 | after a merge each key maps to the last handler the nested table added under it, otherwise to what it had |
| Router.AddAllDistinct | src/main/kotlin/se/davison/aws/lambda/customruntime/local/Router.kt:121-128 | merging keeps the keys of a table distinct |
| Router.BucketedIsFilter | src/main/kotlin/se/davison/aws/lambda/customruntime/local/Router.kt:59-68 | `initialize` appends to bucket `n` exactly the keys with `n` pieces, in table order |
| Router.KeysWithCountMembers | src/main/kotlin/se/davison/aws/lambda/customruntime/local/Router.kt:63-64 | a key is a candidate of length `n` iff it is registered and has `n` pieces |
| Router.KeysWithCountDistinct | src/main/kotlin/se/davison/aws/lambda/customruntime/local/Router.kt:63-64 | a bucket of a table with distinct keys lists each candidate once |
| Router.EveryRouteInOneBucket | src/main/kotlin/se/davison/aws/lambda/customruntime/local/Router.kt:59-68 | from empty candidates, each registered key lands in exactly the bucket of its piece count, and buckets hold no duplicates |
| Router.BucketedStep | src/main/kotlin/se/davison/aws/lambda/customruntime/local/Router.kt:64 | visiting one more entry appends its key to the bucket of its piece count |
| Router.WithPartsStep | src/main/kotlin/se/davison/aws/lambda/customruntime/local/Router.kt:65 | visiting one more entry stores the parts built from its key |
| Router.WithPartsMeaning | src/main/kotlin/se/davison/aws/lambda/customruntime/local/Router.kt:65 | every registered key has the parts built from its own text, and other stored parts are untouched |
| Router.CoveredStep | src/main/kotlin/se/davison/aws/lambda/customruntime/local/Router.kt:64-65 | adding a key to a bucket together with its parts keeps every candidate's parts stored |
| Router.BucketsCovered | src/main/kotlin/se/davison/aws/lambda/customruntime/local/Router.kt:59-68 | every candidate has stored parts, so the `!!` lookups of `findMatched` cannot fail |
| Router.InitializeMethodTables | src/main/kotlin/se/davison/aws/lambda/customruntime/local/Router.kt:60-66 | initializing one method keeps every table's keys distinct |
| Router.InitializeMethodParts | src/main/kotlin/se/davison/aws/lambda/customruntime/local/Router.kt:60-66 | initializing one method keeps every stored part list the one built from its key |
| Router.InitializeMethodCandidates | src/main/kotlin/se/davison/aws/lambda/customruntime/local/Router.kt:60-66 | initializing one method keeps parts stored for every candidate |
| Router.InitializeValid | src/main/kotlin/se/davison/aws/lambda/customruntime/local/Router.kt:59-68 | initializing the methods in turn keeps the router's invariant |
| Router.BucketAll | src/main/kotlin/se/davison/aws/lambda/customruntime/local/Router.kt:59-68 | methods not yet visited keep their candidates |
| Router.PartsAll | src/main/kotlin/se/davison/aws/lambda/customruntime/local/Router.kt:59-68 | methods not yet visited keep their parts |
| Router.InitializeEach | src/main/kotlin/se/davison/aws/lambda/customruntime/local/Router.kt:59-68 | `initialize` treats each method on its own: its buckets and parts depend only on its own table |
| Router.InitializedRouter | src/main/kotlin/se/davison/aws/lambda/customruntime/local/Router.kt:59-68 | after `initialize` from empty candidates, bucket `n` of a method is its keys with `n` pieces in registration order, without duplicates, and each key's parts are built from it |
| Router.InitializedBucket | src/main/kotlin/se/davison/aws/lambda/customruntime/local/Router.kt:59-68 | after `initialize`, a bucket that was never created is empty; otherwise it is the keys with that piece count |
| Router.Select | src/main/kotlin/se/davison/aws/lambda/customruntime/local/Router.kt:76-78 | `handle` takes the first key, in table order, that is "*" or the matched route, and none if no key is |
| Router.SelectFirst | src/main/kotlin/se/davison/aws/lambda/customruntime/local/Router.kt:76-78 | the first key that is "*" or the matched route is the one selected |
| Router.ScanStep | src/main/kotlin/se/davison/aws/lambda/customruntime/local/Router.kt:90-110 | examining one more candidate makes it the match if it matches in full, and leaves its captures behind |
| Router.PartsOfTwo | src/main/kotlin/se/davison/aws/lambda/customruntime/local/Router.kt:63-65 | a key of two pieces has the two parts of those pieces |
| Router.ParamsOfLastCandidate | src/main/kotlin/se/davison/aws/lambda/customruntime/local/Router.kt:88-113 | finding, as written: with candidates `a/:id`, `b/:x` and the request `a/5`, `a/:id` is matched but the parameters are left empty |
| Router.ExampleParts | src/main/kotlin/se/davison/aws/lambda/customruntime/local/Router.kt:30-33 | the parts of the two example routes |
| Router.MatchedCapturesAreSegments | src/main/kotlin/se/davison/aws/lambda/customruntime/local/Router.kt:88-113 | corrected: each parameter of the matched route, names not repeated later, is bound to its own request segment |
| Router.MatchedScanStep | src/main/kotlin/se/davison/aws/lambda/customruntime/local/Router.kt:90-110 | corrected scan: examining a candidate that matches in full replaces the parameters with its captures |
| Router.MatchedCapturesOfExample | src/main/kotlin/se/davison/aws/lambda/customruntime/local/Router.kt:88-113 | corrected: for the same example the parameters are `id = 5` |
| Router.MergeAll | src/main/kotlin/se/davison/aws/lambda/customruntime/local/Router.kt:121-128 | methods not listed keep their tables |
| Router.MergeAllEach | src/main/kotlin/se/davison/aws/lambda/customruntime/local/Router.kt:121-128 | merging acts on each method on its own: the method's table gets the nested router's entries re-added under the base path |
| Router.MergedTables | src/main/kotlin/se/davison/aws/lambda/customruntime/local/Router.kt:121-128 | after a merge over all methods, every table is its old entries followed by the nested ones re-keyed |
| Router.Router.constructor | src/main/kotlin/se/davison/aws/lambda/customruntime/local/Router.kt:46-57 | a new router has the stripped base path and an empty table and empty candidates for every method, and no parts |
| Router.Router.Add | src/main/kotlin/se/davison/aws/lambda/customruntime/local/Router.kt:131-134 | `add` (and the `get`/`post`/... helpers) writes the key `base/stripped path` into the method's table; every other table is unchanged, and the invariant holds |
| Router.Router.MergeMethod | src/main/kotlin/se/davison/aws/lambda/customruntime/local/Router.kt:122-127 | merging one method's nested entries re-adds each under this router's base path, in order |
| Router.Router.Merge | src/main/kotlin/se/davison/aws/lambda/customruntime/local/Router.kt:115-128 | `path`/`merge` re-adds every nested route into this router, method by method |
| Router.Router.BucketTable | src/main/kotlin/se/davison/aws/lambda/customruntime/local/Router.kt:60-66 | the loop over one method's routes builds its buckets and parts as specified |
| Router.Router.InitializeMethod | src/main/kotlin/se/davison/aws/lambda/customruntime/local/Router.kt:60-66 | initializing one method updates only that method's candidates and parts |
| Router.Router.InitializeTables | src/main/kotlin/se/davison/aws/lambda/customruntime/local/Router.kt:59-68 | the loop over all methods builds the specified candidates and parts |
| Router.Router.Initialize | src/main/kotlin/se/davison/aws/lambda/customruntime/local/Router.kt:59-68 | `initialize` sets candidates and parts as specified and keeps the invariant |
| Router.Router.ExamineCandidate | src/main/kotlin/se/davison/aws/lambda/customruntime/local/Router.kt:92-109 | the inner loop decides whether the candidate matches in full and what it captured |
| Router.Router.FindMatched | src/main/kotlin/se/davison/aws/lambda/customruntime/local/Router.kt:88-113 | `findMatched` answers the last candidate that matches in full, with the captures of the last candidate examined |
| Router.Router.FindMatchedCorrected | src/main/kotlin/se/davison/aws/lambda/customruntime/local/Router.kt:88-113 | the corrected loop answers the same route, with the captures of that route |
| Router.Router.FindKey | src/main/kotlin/se/davison/aws/lambda/customruntime/local/Router.kt:76-80 | `find` picks the first "*" or matched key; a leading "*" gets no parameters |
| Router.Router.Handle | src/main/kotlin/se/davison/aws/lambda/customruntime/local/Router.kt:70-86 | an unknown method name gives the 500 reply; no selected key gives 404; otherwise the selected handler runs with the parameters `findMatched` left |
| Router.Router.BucketHasParts | src/main/kotlin/se/davison/aws/lambda/customruntime/local/Router.kt:90-94 | every candidate of a bucket has parts built from its key |
| Text.Split | src/main/kotlin/se/davison/aws/lambda/customruntime/local/Router.kt:63 | `split` on a one-character separator yields at least one piece, none containing the separator |
| Text.JoinSplit | src/main/kotlin/se/davison/aws/lambda/customruntime/local/Router.kt:75 | joining the pieces of a split with the separator gives back the string |
| Text.SplitJoin | src/main/kotlin/se/davison/aws/lambda/customruntime/local/Router.kt:63 | splitting a join of separator-free pieces gives back the pieces |
| Text.SplitWithoutSep | src/main/kotlin/se/davison/aws/lambda/customruntime/local/LocalApiGatewayProxy.kt:149 | a string without the separator splits into itself |
| Text.SplitAfterPiece | src/main/kotlin/se/davison/aws/lambda/customruntime/local/LocalApiGatewayProxy.kt:149 | a split starting with a separator-free piece yields that piece first |
| Text.IndexOf | src/main/kotlin/se/davison/aws/lambda/customruntime/local/LocalApiGatewayProxy.kt:165 | `indexOf` is -1 iff the character is absent, otherwise its first position |
| Text.IndexOfAfter | src/main/kotlin/se/davison/aws/lambda/customruntime/local/LocalApiGatewayProxy.kt:165 | the first occurrence after a separator-free prefix is at the prefix's length |
| Text.SubstringAfter | src/main/kotlin/se/davison/aws/lambda/customruntime/local/LocalApiGatewayProxy.kt:137 | `substringAfter(c, "")` is the text after the first `c`, or empty if there is none |
| Text.DropLast | src/main/kotlin/se/davison/aws/lambda/customruntime/local/LocalApiGatewayProxy.kt:139 | `dropLast(1)` removes exactly the last character |
| Text.LowerIdempotent | src/main/kotlin/se/davison/aws/lambda/customruntime/CustomRuntime.kt:84 | lower-casing a header name twice gives the same as once |
| Text.LowerFixesExactlyLowerCase | src/main/kotlin/se/davison/aws/lambda/customruntime/CustomRuntime.kt:84 | a name is its own lower case iff it has no upper-case ASCII letter |
| Text.LowerIgnoresCase | src/main/kotlin/se/davison/aws/lambda/customruntime/CustomRuntime.kt:84 | changing the case of one letter does not change the lower case, so header names match whatever their case |
| RuntimeRoutes.ToString | src/main/kotlin/se/davison/aws/lambda/customruntime/local/RuntimeRoutes.kt:14-16 | `toString` is the route text, which starts with "/" and names its constant uniquely |
| RuntimeRoutes.FixedPartsChangeOnlyParams | src/main/kotlin/se/davison/aws/lambda/customruntime/local/RuntimeRoutes.kt:25-32 | the kept segments differ from the route's segments exactly when one of them is a parameter |
| RuntimeRoutes.FixedKeepsOut | src/main/kotlin/se/davison/aws/lambda/customruntime/local/RuntimeRoutes.kt:28 | dropping the colon adds no character |
| RuntimeRoutes.RequestIdTemplate | src/main/kotlin/se/davison/aws/lambda/customruntime/local/RuntimeRoutes.kt:9-10 | a route `/invocation/:requestId/x` has a parameter and fixed parts `invocation`, `requestId`, `x` |
| RuntimeRoutes.ResponseSegments | src/main/kotlin/se/davison/aws/lambda/customruntime/local/RuntimeRoutes.kt:9 | RESPONSE is templated as `invocation`, `requestId`, `response` |
| RuntimeRoutes.ParamTableFromRoutes | src/main/kotlin/se/davison/aws/lambda/customruntime/local/RuntimeRoutes.kt:18-38 | `paramFunctions` has an entry exactly for the routes with a parameter segment, holding their fixed parts |
| RuntimeRoutes.FixSegments | src/main/kotlin/se/davison/aws/lambda/customruntime/local/RuntimeRoutes.kt:23-32 | the inner loop builds the fixed parts and raises `add` iff some segment is a parameter |
| RuntimeRoutes.BuiltStep | src/main/kotlin/se/davison/aws/lambda/customruntime/local/RuntimeRoutes.kt:21-36 | one more route visited keeps the table equal to the specified one on the routes seen |
| RuntimeRoutes.BuiltAll | src/main/kotlin/se/davison/aws/lambda/customruntime/local/RuntimeRoutes.kt:21-36 | after every route is visited, the table is the specified one |
| RuntimeRoutes.BuildParamFunctions | src/main/kotlin/se/davison/aws/lambda/customruntime/local/RuntimeRoutes.kt:18-38 | the lazy initializer builds the table for RESPONSE and INVOCATION_ERROR only |
| RuntimeRoutes.SubstituteKeepsUnbound | src/main/kotlin/se/davison/aws/lambda/customruntime/local/RuntimeRoutes.kt:43-45 | substitution leaves the segments unchanged exactly when every bound segment is bound to itself |
| RuntimeRoutes.WithParamsMeaning | src/main/kotlin/se/davison/aws/lambda/customruntime/local/RuntimeRoutes.kt:41-46 | a route without parameters comes back unchanged; any other is rebuilt from its fixed parts, with each part replaced by its binding when it has one |
| RuntimeRoutes.WithParamsRequestId | src/main/kotlin/se/davison/aws/lambda/customruntime/local/RuntimeRoutes.kt:41-46 | with a `requestId` binding (and no binding for the fixed words) the URL is `/invocation/<id>/response` or `/invocation/<id>/error` |
| RuntimeRoutes.WithParamsReplacesFixedSegments | src/main/kotlin/se/davison/aws/lambda/customruntime/local/RuntimeRoutes.kt:41-46 | a binding for a fixed word (here `invocation`) replaces that word too |
| RuntimeRoutes.WithParamsSegments | src/main/kotlin/se/davison/aws/lambda/customruntime/local/RuntimeRoutes.kt:41-46 | with slash-free values, the result splits back into the substituted parts, one per route segment |
| RuntimeRoutes.SlashInValueAddsSegment | src/main/kotlin/se/davison/aws/lambda/customruntime/local/RuntimeRoutes.kt:41-46 | a value containing "/" adds a segment to the URL |
| CustomRuntime.MapException | src/main/kotlin/se/davison/aws/lambda/customruntime/CustomRuntime.kt:152-158 | null-pointer and reflection failures become init exceptions; everything else passes unchanged |
| CustomRuntime.UrlsFollowRuntimeRoutes | src/main/kotlin/se/davison/aws/lambda/customruntime/CustomRuntime.kt:67-71 | the next, response and error URLs are the base URL followed by the runtime route texts with the request id substituted |
| CustomRuntime.ResponseUrlFollowsRoute | src/main/kotlin/se/davison/aws/lambda/customruntime/CustomRuntime.kt:68 | the response URL is the base URL followed by `RESPONSE` with the request id filled in |
| CustomRuntime.ErrorUrlFollowsRoute | src/main/kotlin/se/davison/aws/lambda/customruntime/CustomRuntime.kt:69-71 | the invocation error URL is the base URL followed by `INVOCATION_ERROR` with the request id filled in |
| CustomRuntime.NormalizeHeadersKeys | src/main/kotlin/se/davison/aws/lambda/customruntime/CustomRuntime.kt:83-85 | a normalized header exists iff some field has that lower-cased name (a null name gives "") |
| CustomRuntime.NormalizeHeadersLast | src/main/kotlin/se/davison/aws/lambda/customruntime/CustomRuntime.kt:83-85 | the value of a normalized header is the last such field's values joined by ", " |
| CustomRuntime.ReadNext | src/main/kotlin/se/davison/aws/lambda/customruntime/CustomRuntime.kt:82-87 | an exception escaping `nextInvocation` fails the poll with that exception; a reply fails with a null pointer iff the request-id header is missing, and otherwise gives an invocation with that id, the status, the payload, and the handler header if present |
| CustomRuntime.RequestIdFoundInAnyCase | src/main/kotlin/se/davison/aws/lambda/customruntime/CustomRuntime.kt:86 | the request-id header is found whatever its letter case |
| CustomRuntime.CreatedMeaning | src/main/kotlin/se/davison/aws/lambda/customruntime/CustomRuntime.kt:36-53 | a failed resolution leaves the handlers unchanged, except that a request handler listing no class type argument is installed before `get(0)` fails, keeping the old input type; a successful one from an empty cache installs exactly one handler, of the named class, with its first type argument as input type (none for a stream handler) |
| CustomRuntime.UntypedStaysInstalled | src/main/kotlin/se/davison/aws/lambda/customruntime/CustomRuntime.kt:36-53 | a request handler listing no class type argument fails with an index-out-of-bounds exception but stays installed, so the next `create` does nothing |
| CustomRuntime.CreatedOnce | src/main/kotlin/se/davison/aws/lambda/customruntime/CustomRuntime.kt:37-39 | once a handler is installed, further resolution changes nothing and cannot fail |
| CustomRuntime.CreatedFailureFatality | src/main/kotlin/se/davison/aws/lambda/customruntime/CustomRuntime.kt:40-51 | a resolution failure is fatal iff the name is missing, the class is unknown, the constructor fails with an init-kind failure, or the class implements neither interface; a missing type argument is not fatal |
| CustomRuntime.Handlers.constructor | src/main/kotlin/se/davison/aws/lambda/customruntime/CustomRuntime.kt:27-29 | a worker starts with no handler |
| CustomRuntime.Handlers.Clear | src/main/kotlin/se/davison/aws/lambda/customruntime/CustomRuntime.kt:31-34 | `clear` drops both handlers and keeps the input type |
| CustomRuntime.Handlers.Create | src/main/kotlin/se/davison/aws/lambda/customruntime/CustomRuntime.kt:36-53 | `create` changes the handlers and fails exactly as resolution specifies, including the handler installed before a missing type argument fails |
| CustomRuntime.Iterate | src/main/kotlin/se/davison/aws/lambda/customruntime/CustomRuntime.kt:120-167 | one pass of the loop body gives the specified handlers, posts and whether the loop ends, including an error that is not an `Exception` escaping the `catch` |
| CustomRuntime.RunHandler | src/main/kotlin/se/davison/aws/lambda/customruntime/CustomRuntime.kt:127-165 | once the handler is installed, the rest of the loop body (bad-status report, result post and local clear, exception report, or an escaping error) gives the specified handlers, posts and whether the loop ends |
| CustomRuntime.PollFailureIsReported | src/main/kotlin/se/davison/aws/lambda/customruntime/CustomRuntime.kt:121-165 | an exception escaping `nextInvocation` is reported to the init error URL, keeps the cache, and is fatal only if it maps to `LambdaInitException` |
| CustomRuntime.PollFailureKeepsPolling | src/main/kotlin/se/davison/aws/lambda/customruntime/CustomRuntime.kt:118-165 | after such an exception that is not an initialisation failure is reported, the loop goes on to the next poll |
| CustomRuntime.UnreachableApiIsFatal | src/main/kotlin/se/davison/aws/lambda/customruntime/CustomRuntime.kt:82-87 | an unreachable runtime API gives a connection without header fields, so the missing request id ends the loop after one report to the init error URL |
| CustomRuntime.MissingRequestIdIsFatal | src/main/kotlin/se/davison/aws/lambda/customruntime/CustomRuntime.kt:121-165 | a poll without a request id is reported to the init error URL and ends the process |
| CustomRuntime.ResolutionFailureIsInitError | src/main/kotlin/se/davison/aws/lambda/customruntime/CustomRuntime.kt:123-165 | a resolution failure is reported once to the init error URL (the request id is not yet recorded), leaves the cache as it was except for an installed untyped request handler, and is fatal iff it maps to an init exception |
| CustomRuntime.EscapedErrorEndsLoop | src/main/kotlin/se/davison/aws/lambda/customruntime/CustomRuntime.kt:134-165 | an error that is not an `Exception`, such as the `NotImplementedError` of `clientContext` or `identity`, escapes the `catch`: no result or error report is posted, the handler stays installed and no later poll is taken |
| CustomRuntime.BadStatusStillResponds | src/main/kotlin/se/davison/aws/lambda/customruntime/CustomRuntime.kt:128-146 | a non-200 poll status is reported as an invocation error, and the handler still runs and its result is posted |
| CustomRuntime.HandlerFailureIsInvocationError | src/main/kotlin/se/davison/aws/lambda/customruntime/CustomRuntime.kt:137-165 | a handler exception is reported last, to the invocation's error URL; the handler stays installed, and a null pointer is fatal |
| CustomRuntime.IterationKeepsAtMostOne | src/main/kotlin/se/davison/aws/lambda/customruntime/CustomRuntime.kt:36-49 | a worker never holds both a request handler and a stream handler |
| CustomRuntime.DeployedServesConfigured | src/main/kotlin/se/davison/aws/lambda/customruntime/CustomRuntime.kt:40-42 | when deployed, the installed handler is always the configured class |
| CustomRuntime.LocalSuccessClears | src/main/kotlin/se/davison/aws/lambda/customruntime/CustomRuntime.kt:148-150 | locally, an iteration that posts a result leaves no handler installed |
| CustomRuntime.Run | src/main/kotlin/se/davison/aws/lambda/customruntime/CustomRuntime.kt:116-169 | the loop consumes polls until one is fatal: no more rounds than polls, all of them when none is fatal |
| CustomRuntime.RunStopsAtFatal | src/main/kotlin/se/davison/aws/lambda/customruntime/CustomRuntime.kt:163-165 | after a fatal iteration, later polls have no effect (`onFatalError` exits) |
| CustomRuntime.DeployedRunServesConfigured | src/main/kotlin/se/davison/aws/lambda/customruntime/CustomRuntime.kt:116-169 | when deployed, the configured class is the only handler ever installed over the whole run |
| CustomRuntime.RunStep | src/main/kotlin/se/davison/aws/lambda/customruntime/CustomRuntime.kt:120-168 | running from poll `i` is one iteration, followed by the rest unless it was fatal |
| CustomRuntime.ProcessSingleThreaded | src/main/kotlin/se/davison/aws/lambda/customruntime/CustomRuntime.kt:116-169 | the loop's posts, rounds and fatality are those of the specified run |
| CustomRuntime.ReadLocalPoll | src/main/kotlin/se/davison/aws/lambda/customruntime/CustomRuntime.kt:82-87 | a local poll with a request id and a handler header reads as that id and handler, status 200 |
| CustomRuntime.LocalHandlerOutlivesFailure | src/main/kotlin/se/davison/aws/lambda/customruntime/CustomRuntime.kt:148-150 | finding, as written: locally, after the handler for request 1 (`A`) throws, request 2, which names `B`, is run by `A` and fails the same way |
| CustomRuntime.LocalServesNamedHandler | src/main/kotlin/se/davison/aws/lambda/customruntime/CustomRuntime.kt:148-150 | corrected: locally, every resolved invocation runs the class its own header names, its last post is that handler's result or exception (an escaping error ends the loop with no such post), and the cache is empty afterwards |
| CustomRuntime.LocalHandlerClearedAfterFailure | src/main/kotlin/se/davison/aws/lambda/customruntime/CustomRuntime.kt:148-150 | corrected: in the same example request 2 is answered by `B` |
| Gateway.FirstMatching | src/main/kotlin/se/davison/aws/lambda/customruntime/local/LocalApiGatewayProxy.kt:84-86 | `find` answers the first matcher that matches, and none if none does |
| Gateway.FindHandlerMeaning | src/main/kotlin/se/davison/aws/lambda/customruntime/local/LocalApiGatewayProxy.kt:83-86 | a handler name is found iff the method's matchers (or "ANY"'s when the method has none) include one that matches; it is the first such one's handler |
| Gateway.FindHandlerNeverFallsBack | src/main/kotlin/se/davison/aws/lambda/customruntime/local/LocalApiGatewayProxy.kt:83-84 | a method with its own configuration never falls back to "ANY", even when none of its matchers matches |
| Gateway.FirstSelfMatchingEntryWins | src/main/kotlin/se/davison/aws/lambda/customruntime/local/LocalApiGatewayProxy.kt:29 | a first matcher whose path matches itself as a regex wins for every request path |
| Gateway.MatchesByPrefix | src/main/kotlin/se/davison/aws/lambda/customruntime/local/LocalApiGatewayProxy.kt:29 | a matcher whose path does not match itself matches exactly the paths that start with it |
| Gateway.IsStaticAssetIsPattern | src/main/kotlin/se/davison/aws/lambda/customruntime/local/LocalApiGatewayProxy.kt:120 | the executable static-asset test agrees with the pattern `\.\w{2,4}$` found anywhere in the path |
| Gateway.ExtensionIsStaticAsset | src/main/kotlin/se/davison/aws/lambda/customruntime/local/LocalApiGatewayProxy.kt:120 | a path ending in a dot and 2 to 4 word characters, optionally followed by a line terminator, is a static asset |
| Gateway.NoDotNoAsset | src/main/kotlin/se/davison/aws/lambda/customruntime/local/LocalApiGatewayProxy.kt:120 | a path without a dot is never a static asset |
| Gateway.AnyParameterOfNested | src/main/kotlin/se/davison/aws/lambda/customruntime/local/LocalApiGatewayProxy.kt:137-141 | for `/first/rest` the `any` path parameter is `rest` without its last character, and is absent when `rest` is blank |
| Gateway.AnyParameterOfSingle | src/main/kotlin/se/davison/aws/lambda/customruntime/local/LocalApiGatewayProxy.kt:137-141 | a single-segment path has no `any` parameter |
| Gateway.ResourcePathMeaning | src/main/kotlin/se/davison/aws/lambda/customruntime/local/LocalApiGatewayProxy.kt:164-171 | the resource path is `/first/{any+}` for a nested path and the path itself for a single segment |
| Gateway.JoinedHeaderValues | src/main/kotlin/se/davison/aws/lambda/customruntime/local/LocalApiGatewayProxy.kt:134-136 | a header sent once keeps its value; one sent twice shows both values in order, separated by ", " |
| Gateway.QueryPairsOfPieces | src/main/kotlin/se/davison/aws/lambda/customruntime/local/LocalApiGatewayProxy.kt:148-153 | a query made of `&`-joined pieces gives one key/value pair per piece, in the pieces' order |
| Gateway.ValuesOfNonEmpty | src/main/kotlin/se/davison/aws/lambda/customruntime/local/LocalApiGatewayProxy.kt:145-155 | a key has values in the multi-value map iff some piece has that key |
| Gateway.SingleIsLastOfMulti | src/main/kotlin/se/davison/aws/lambda/customruntime/local/LocalApiGatewayProxy.kt:148-155 | the single-value map has the same keys as the multi-value map, and holds each key's last value |
| Gateway.MultiValuesStep | src/main/kotlin/se/davison/aws/lambda/customruntime/local/LocalApiGatewayProxy.kt:152 | each piece appends its value to its key's list |
| Gateway.ParseQuery | src/main/kotlin/se/davison/aws/lambda/customruntime/local/LocalApiGatewayProxy.kt:145-158 | the query loop builds both maps as specified, and neither when there is no query |
| Gateway.KeyValueOfPiece | src/main/kotlin/se/davison/aws/lambda/customruntime/local/LocalApiGatewayProxy.kt:149-153 | a piece `k=v` gives `(k, v)`, a piece `k=v=w` also gives `(k, v)`, and a bare key gets the empty value |
| Gateway.BuildEvent | src/main/kotlin/se/davison/aws/lambda/customruntime/local/LocalApiGatewayProxy.kt:128-176 | the event carries a body iff the method is POST, PUT or PATCH; it has the method name, the path, the request id, the parsed query maps, the headers both as sent and with their values joined by ", ", the `any` path parameter, the resource path, stage "dev", source IP "0.0.0.0", and the first value of the user-agent header looked up whatever its case |
| Gateway.GetFirst | src/main/kotlin/se/davison/aws/lambda/customruntime/local/LocalApiGatewayProxy.kt:174 | `getFirst` finds a header iff it is stored under the canonical form of the name, and then gives its first value |
| Gateway.CanonicalNameIgnoresCase | src/main/kotlin/se/davison/aws/lambda/customruntime/local/LocalApiGatewayProxy.kt:174 | names that differ only in letter case have the same stored form, so a header lookup ignores case |
| Gateway.UserAgentStoredName | src/main/kotlin/se/davison/aws/lambda/customruntime/local/LocalApiGatewayProxy.kt:174 | the server stores `User-Agent` as `User-agent` |
| Gateway.UserAgentOfStoredHeader | src/main/kotlin/se/davison/aws/lambda/customruntime/local/LocalApiGatewayProxy.kt:174 | a request whose headers hold `User-agent` gets that value as its user agent |
| Gateway.ToProxyEvent | src/main/kotlin/se/davison/aws/lambda/customruntime/local/LocalApiGatewayProxy.kt:128-176 | without a query neither query map is set; with one, both are set with the same keys |
| Gateway.NextInvocation | src/main/kotlin/se/davison/aws/lambda/customruntime/local/LocalApiGatewayProxy.kt:80-95 | `/next` replies 200 with the request id and the event; it names a handler iff an entry configured for the method (or "ANY") matches the path, and then it is the first such entry's handler |
| Gateway.InitError | src/main/kotlin/se/davison/aws/lambda/customruntime/local/LocalApiGatewayProxy.kt:114-117 | the init-error route replies 200 with the body "Init error" and the request id "aaaa" |
| Gateway.LocalGateway.constructor | src/main/kotlin/se/davison/aws/lambda/customruntime/local/LocalApiGatewayProxy.kt:74-75 | the correlation map starts empty |
| Gateway.LocalGateway.Accept | src/main/kotlin/se/davison/aws/lambda/customruntime/local/LocalApiGatewayProxy.kt:119-183 | a static-asset path is answered at once and changes nothing; any other request gets a "TIMEOUT" entry and, if a worker takes it, is handed off as its proxy event |
| Gateway.LocalGateway.Deliver | src/main/kotlin/se/davison/aws/lambda/customruntime/local/LocalApiGatewayProxy.kt:96-111 | a result for a known request id replaces its entry and an unknown id changes nothing, both with the empty reply; a missing id fails the map lookup, so the router's error reply is sent and nothing changes |
| Gateway.LocalGateway.Answer | src/main/kotlin/se/davison/aws/lambda/customruntime/local/LocalApiGatewayProxy.kt:184-186 | the waiting request is answered 200 with what its entry holds |
| Gateway.Correlate | src/main/kotlin/se/davison/aws/lambda/customruntime/local/LocalApiGatewayProxy.kt:182-186 | a request is answered with the result posted for its id, and "TIMEOUT" when none is posted, whatever is posted for other ids |
| LocalRoutes.PiecesCons | src/main/kotlin/se/davison/aws/lambda/customruntime/local/Router.kt:63 | a key starting with a separator-free piece has that piece first |
| LocalRoutes.PiecesOfFour | src/main/kotlin/se/davison/aws/lambda/customruntime/local/Router.kt:63 | a key of four pieces has them as its pieces |
| LocalRoutes.PiecesOfFive | src/main/kotlin/se/davison/aws/lambda/customruntime/local/Router.kt:63 | a key of five pieces has them as its pieces |
| LocalRoutes.KeyPieces | src/main/kotlin/se/davison/aws/lambda/customruntime/local/LocalApiGatewayProxy.kt:78-114 | the runtime routes are keyed `2018-06-01/runtime/invocation/next` and so on, with four or five pieces, and the proxy route is keyed "*" |
| LocalRoutes.RouteKeyOfBare | src/main/kotlin/se/davison/aws/lambda/customruntime/local/Router.kt:132-133 | a path without edge slashes is keyed `base/path`, or itself under the empty base |
| LocalRoutes.GroupPaths | src/main/kotlin/se/davison/aws/lambda/customruntime/local/LocalApiGatewayProxy.kt:78-79 | the group paths strip to `invocation` and `2018-06-01/runtime` |
| LocalRoutes.JoinedBare | src/main/kotlin/se/davison/aws/lambda/customruntime/local/Router.kt:194-200 | stripping `a/b` with no edge slashes leaves it unchanged |
| LocalRoutes.AddedKey | src/main/kotlin/se/davison/aws/lambda/customruntime/local/Router.kt:132-133 | a path with one leading slash is keyed under the group without it |
| LocalRoutes.NextPath | src/main/kotlin/se/davison/aws/lambda/customruntime/local/LocalApiGatewayProxy.kt:80 | `get("/next")` in the invocation group is keyed `invocation/next` |
| LocalRoutes.ErrorPath | src/main/kotlin/se/davison/aws/lambda/customruntime/local/LocalApiGatewayProxy.kt:96 | `get("/:requestId/error")` is keyed `invocation/:requestId/error` |
| LocalRoutes.ResponsePath | src/main/kotlin/se/davison/aws/lambda/customruntime/local/LocalApiGatewayProxy.kt:103 | `post("/:requestId/response")` is keyed `invocation/:requestId/response` |
| LocalRoutes.InitPath | src/main/kotlin/se/davison/aws/lambda/customruntime/local/LocalApiGatewayProxy.kt:114 | `get("/init/error")` in the runtime group is keyed `2018-06-01/runtime/init/error` |
| LocalRoutes.ProxyPath | src/main/kotlin/se/davison/aws/lambda/customruntime/local/LocalApiGatewayProxy.kt:119 | `get("*")` on the server is keyed "*" |
| LocalRoutes.PutFresh | src/main/kotlin/se/davison/aws/lambda/customruntime/local/Router.kt:133 | writing a new key appends an entry |
| LocalRoutes.AddAllIntoEmpty | src/main/kotlin/se/davison/aws/lambda/customruntime/local/Router.kt:121-128 | merging distinct keys into an empty table gives the nested entries re-keyed, in order |
| LocalRoutes.RebasedAppend | src/main/kotlin/se/davison/aws/lambda/customruntime/local/Router.kt:124-126 | re-keying distributes over concatenation |
| LocalRoutes.NestedKey | src/main/kotlin/se/davison/aws/lambda/customruntime/local/Router.kt:132-133 | a path without edge slashes under a non-empty base is keyed `base/path` |
| LocalRoutes.InvocationRebased | src/main/kotlin/se/davison/aws/lambda/customruntime/local/LocalApiGatewayProxy.kt:78-112 | the invocation group's table for each method, merged under the runtime prefix, is the same routes under `2018-06-01/runtime/invocation` |
| LocalRoutes.InvocationKeysRebased | src/main/kotlin/se/davison/aws/lambda/customruntime/local/LocalApiGatewayProxy.kt:79-111 | each invocation key merged under the runtime prefix |
| LocalRoutes.NestUnder | src/main/kotlin/se/davison/aws/lambda/customruntime/local/Router.kt:132-133 | a grouped key under a base |
| LocalRoutes.KeyLengths | src/main/kotlin/se/davison/aws/lambda/customruntime/local/LocalApiGatewayProxy.kt:78-114 | the runtime keys have distinct lengths |
| LocalRoutes.DistinctByLength | src/main/kotlin/se/davison/aws/lambda/customruntime/local/Router.kt:47 | keys of distinct lengths are distinct |
| LocalRoutes.InvocationDistinct | src/main/kotlin/se/davison/aws/lambda/customruntime/local/LocalApiGatewayProxy.kt:79-112 | the invocation routes of a method have distinct keys |
| LocalRoutes.RuntimeDistinct | src/main/kotlin/se/davison/aws/lambda/customruntime/local/LocalApiGatewayProxy.kt:78-117 | the runtime routes of a method have distinct keys |
| LocalRoutes.TableDistinct | src/main/kotlin/se/davison/aws/lambda/customruntime/local/LocalApiGatewayProxy.kt:77-119 | a server table has distinct keys |
| LocalRoutes.LastKeyFresh | src/main/kotlin/se/davison/aws/lambda/customruntime/local/Router.kt:47 | in a table with distinct keys, the last key is not among the earlier ones |
| LocalRoutes.RootKeys | src/main/kotlin/se/davison/aws/lambda/customruntime/local/Router.kt:132-133 | merging into the root router keeps every runtime key |
| LocalRoutes.RootKey | src/main/kotlin/se/davison/aws/lambda/customruntime/local/Router.kt:132-133 | a grouped key under the empty base is itself |
| LocalRoutes.RootRebased | src/main/kotlin/se/davison/aws/lambda/customruntime/local/LocalApiGatewayProxy.kt:77-118 | merging the runtime group into the root router keeps its entries as they are |
| LocalRoutes.InvocationGroup | src/main/kotlin/se/davison/aws/lambda/customruntime/local/LocalApiGatewayProxy.kt:79-112 | the three registrations of the invocation group give each method exactly its invocation routes, in order |
| LocalRoutes.RuntimeGroup | src/main/kotlin/se/davison/aws/lambda/customruntime/local/LocalApiGatewayProxy.kt:78-118 | after the invocation group is merged and init/error added, each method holds exactly its runtime routes |
| LocalRoutes.InvocationMergedAll | src/main/kotlin/se/davison/aws/lambda/customruntime/local/LocalApiGatewayProxy.kt:79-112 | merging the invocation group into an empty runtime group re-keys every method's routes under the runtime prefix |
| LocalRoutes.RuntimeGroupAt | src/main/kotlin/se/davison/aws/lambda/customruntime/local/LocalApiGatewayProxy.kt:114-117 | adding init/error completes the runtime routes of the error method and leaves the others unchanged |
| LocalRoutes.InitAppended | src/main/kotlin/se/davison/aws/lambda/customruntime/local/LocalApiGatewayProxy.kt:114-117 | the init-error route is appended after the invocation routes of the error method |
| LocalRoutes.InvocationMerged | src/main/kotlin/se/davison/aws/lambda/customruntime/local/LocalApiGatewayProxy.kt:79-112 | one method's table after the invocation group is merged |
| LocalRoutes.ServerGroup | src/main/kotlin/se/davison/aws/lambda/customruntime/local/LocalApiGatewayProxy.kt:77-118 | merging the runtime group into the empty root router gives each method its runtime routes |
| LocalRoutes.ProxyAdded | src/main/kotlin/se/davison/aws/lambda/customruntime/local/LocalApiGatewayProxy.kt:119 | adding the proxy to a method's runtime routes gives that method's server table |
| LocalRoutes.NotProxied | src/main/kotlin/se/davison/aws/lambda/customruntime/local/LocalApiGatewayProxy.kt:119 | a method without the proxy route has only its runtime routes |
| LocalRoutes.InvocationGroupRouter | src/main/kotlin/se/davison/aws/lambda/customruntime/local/LocalApiGatewayProxy.kt:79-112 | the nested invocation router holds exactly the invocation routes of each method |
| LocalRoutes.RuntimeGroupRouter | src/main/kotlin/se/davison/aws/lambda/customruntime/local/LocalApiGatewayProxy.kt:78-118 | the nested runtime router holds exactly the runtime routes of each method |
| LocalRoutes.ServerWithRuntime | src/main/kotlin/se/davison/aws/lambda/customruntime/local/LocalApiGatewayProxy.kt:77-118 | the root router after the runtime group holds each method's runtime routes, with no candidates yet |
| LocalRoutes.AddProxyForGet | src/main/kotlin/se/davison/aws/lambda/customruntime/local/LocalApiGatewayProxy.kt:119 | as written, `get("*")` adds the proxy to the GET table only |
| LocalRoutes.PutAll | src/main/kotlin/se/davison/aws/lambda/customruntime/local/LocalApiGatewayProxy.kt:119 | writing one key into several tables reaches every table |
| LocalRoutes.PutAllEach | src/main/kotlin/se/davison/aws/lambda/customruntime/local/LocalApiGatewayProxy.kt:119 | writing one key into the tables of a list of distinct methods changes exactly those tables |
| LocalRoutes.AddForEach | src/main/kotlin/se/davison/aws/lambda/customruntime/local/Router.kt:131-134 | adding one route for a list of methods writes it into each of their tables, in turn |
| LocalRoutes.AddProxyForAll | src/main/kotlin/se/davison/aws/lambda/customruntime/local/LocalApiGatewayProxy.kt:119 | corrected, the proxy is added for every method |
| LocalRoutes.RegisterAll | src/main/kotlin/se/davison/aws/lambda/customruntime/local/LocalApiGatewayProxy.kt:77-188 | the router block registers exactly the server tables, before initialization |
| LocalRoutes.Wire | src/main/kotlin/se/davison/aws/lambda/customruntime/local/LocalApiGatewayProxy.kt:77-188 | the initialized server holds the specified table for each method, and each bucket holds that table's keys with the bucket's piece count |
| Serving.Serve | src/main/kotlin/se/davison/aws/lambda/customruntime/local/Router.kt:204-207 | the local server answers a request as its `handle` over the wired tables specifies |
| Serving.PartsOfFourPath | src/main/kotlin/se/davison/aws/lambda/customruntime/local/Router.kt:75 | a request path of four pieces has them as its parts |
| Serving.PartsOfFivePath | src/main/kotlin/se/davison/aws/lambda/customruntime/local/Router.kt:75 | a request path of five pieces has them as its parts |
| Serving.RuntimePathPieces | src/main/kotlin/se/davison/aws/lambda/customruntime/CustomRuntime.kt:67-71 | the runtime's base path is `/2018-06-01/runtime` |
| Serving.ErrorUrlParts | src/main/kotlin/se/davison/aws/lambda/customruntime/CustomRuntime.kt:69-71 | the invocation error URL's path has the parts `2018-06-01`, `runtime`, `invocation`, id, `error` |
| Serving.InitUrlParts | src/main/kotlin/se/davison/aws/lambda/customruntime/CustomRuntime.kt:69-71 | the init error URL's path has the parts `2018-06-01`, `runtime`, `init`, `error` |
| Serving.ResponseUrlParts | src/main/kotlin/se/davison/aws/lambda/customruntime/CustomRuntime.kt:68 | the response URL's path has the parts `2018-06-01`, `runtime`, `invocation`, id, `response` |
| Serving.NextUrlParts | src/main/kotlin/se/davison/aws/lambda/customruntime/CustomRuntime.kt:67 | the next URL's path has the parts `2018-06-01`, `runtime`, `invocation`, `next` |
| Serving.PieceParts | src/main/kotlin/se/davison/aws/lambda/customruntime/local/Router.kt:30-33 | the parts of the route pieces of the local server |
| Serving.KeyParts | src/main/kotlin/se/davison/aws/lambda/customruntime/local/Router.kt:30-33 | the route parts of each runtime key and of "*" |
| Serving.StopsAt | src/main/kotlin/se/davison/aws/lambda/customruntime/local/Router.kt:93-109 | where a scan of a runtime key stops |
| Serving.RuntimeRoutesAreRuntimeKeys | src/main/kotlin/se/davison/aws/lambda/customruntime/local/LocalApiGatewayProxy.kt:78-117 | every runtime route is one of the four runtime keys and is not the proxy |
| Serving.PostTables | src/main/kotlin/se/davison/aws/lambda/customruntime/local/LocalApiGatewayProxy.kt:77-119 | the POST table is only the response route as written, and error, response, init error and proxy when corrected |
| Serving.GetTables | src/main/kotlin/se/davison/aws/lambda/customruntime/local/LocalApiGatewayProxy.kt:77-119 | the GET table is next, error, init error and proxy as written, and next and proxy when corrected |
| Serving.PostBuckets | src/main/kotlin/se/davison/aws/lambda/customruntime/local/Router.kt:59-68 | the POST buckets of lengths 4 and 5, as written and corrected |
| Serving.GetBuckets | src/main/kotlin/se/davison/aws/lambda/customruntime/local/Router.kt:59-68 | the GET bucket of length 4, as written and corrected |
| Serving.RuntimeMethods | src/main/kotlin/se/davison/aws/lambda/customruntime/local/Router.kt:72 | "GET" and "POST" resolve to their methods |
| Serving.ErrorReportNotFound | src/main/kotlin/se/davison/aws/lambda/customruntime/local/LocalApiGatewayProxy.kt:96 | finding, as written: the runtime's POST of an invocation error is answered 404 |
| Serving.ErrorKeyOnErrorReport | src/main/kotlin/se/davison/aws/lambda/customruntime/local/Router.kt:92-105 | the error key matches the error report in full and captures its id |
| Serving.ResponseKeyOnErrorReport | src/main/kotlin/se/davison/aws/lambda/customruntime/local/Router.kt:92-105 | the response key fails on the error report after capturing the id |
| Serving.LastMatchOfTwo | src/main/kotlin/se/davison/aws/lambda/customruntime/local/Router.kt:88-113 | with two candidates where only the first matches, the first is the match |
| Serving.ErrorReportDispatched | src/main/kotlin/se/davison/aws/lambda/customruntime/local/LocalApiGatewayProxy.kt:96 | corrected: the POST of an invocation error reaches the error handler with `requestId` bound to the id |
| Serving.InitKeyOnInitReport | src/main/kotlin/se/davison/aws/lambda/customruntime/local/Router.kt:92-105 | the init-error key matches the init report in full |
| Serving.CapturesOfFive | src/main/kotlin/se/davison/aws/lambda/customruntime/local/Router.kt:97-99 | the captures of a five-part key with the id at index 3 |
| Serving.LastMatchOfOne | src/main/kotlin/se/davison/aws/lambda/customruntime/local/Router.kt:88-113 | a single candidate that matches is the match |
| Serving.InitReportNotFound | src/main/kotlin/se/davison/aws/lambda/customruntime/local/LocalApiGatewayProxy.kt:114 | finding, as written: the runtime's POST of an init error is answered 404 |
| Serving.InitReportDispatched | src/main/kotlin/se/davison/aws/lambda/customruntime/local/LocalApiGatewayProxy.kt:114 | corrected: the POST of an init error reaches the init-error handler |
| Serving.ResponseKeyOnResult | src/main/kotlin/se/davison/aws/lambda/customruntime/local/Router.kt:92-105 | the response key matches a result post in full and captures its id |
| Serving.ErrorKeyOnResult | src/main/kotlin/se/davison/aws/lambda/customruntime/local/Router.kt:92-105 | the error key fails on a result post after capturing the id |
| Serving.LastMatchOfSecond | src/main/kotlin/se/davison/aws/lambda/customruntime/local/Router.kt:88-113 | with two candidates where only the second matches, the second is the match |
| Serving.ResultDelivered | src/main/kotlin/se/davison/aws/lambda/customruntime/local/LocalApiGatewayProxy.kt:103-111 | with either registration, the runtime's result post reaches the response handler with `requestId` bound to the id |
| Serving.NextKeyOnPoll | src/main/kotlin/se/davison/aws/lambda/customruntime/local/Router.kt:92-105 | the next key matches the poll in full |
| Serving.InitKeyOnPoll | src/main/kotlin/se/davison/aws/lambda/customruntime/local/Router.kt:92-105 | the init-error key does not match the poll |
| Serving.PollServed | src/main/kotlin/se/davison/aws/lambda/customruntime/local/LocalApiGatewayProxy.kt:80-95 | with either registration, the runtime's poll reaches the next-event handler |
| Serving.RuntimeKeyMisses | src/main/kotlin/se/davison/aws/lambda/customruntime/local/Router.kt:35-43 | no runtime key matches a request whose first segment is not the runtime date, and none captures anything |
| Serving.StarCapturesNothing | src/main/kotlin/se/davison/aws/lambda/customruntime/local/Router.kt:35-43 | the "*" key captures nothing |
| Serving.BucketKeys | src/main/kotlin/se/davison/aws/lambda/customruntime/local/Router.kt:63-64 | every candidate of a server bucket is a runtime key or "*" |
| Serving.AllBucketKeys | src/main/kotlin/se/davison/aws/lambda/customruntime/local/Router.kt:63-64 | the same for every candidate of a bucket |
| Serving.OutsideMatch | src/main/kotlin/se/davison/aws/lambda/customruntime/local/Router.kt:88-113 | in a bucket of runtime keys and "*", a request outside the runtime matches at most "*" |
| Serving.OutsideCaptures | src/main/kotlin/se/davison/aws/lambda/customruntime/local/Router.kt:88-113 | in such a bucket, a request outside the runtime leaves no parameters |
| Serving.OutsideRuntime | src/main/kotlin/se/davison/aws/lambda/customruntime/local/Router.kt:88-113 | for a request outside the runtime, `findMatched` answers nothing or "*" and leaves no parameters |
| Serving.RuntimeRoutesNotPicked | src/main/kotlin/se/davison/aws/lambda/customruntime/local/Router.kt:76-78 | when the match is nothing or "*", no runtime route is selected |
| Serving.ApiCallNotFound | src/main/kotlin/se/davison/aws/lambda/customruntime/local/LocalApiGatewayProxy.kt:119 | finding, as written: an API call with any method but GET, outside the runtime paths, is answered 404 |
| Serving.ProxyOnlyForGet | src/main/kotlin/se/davison/aws/lambda/customruntime/local/LocalApiGatewayProxy.kt:130-132 | finding, as written: the proxy only ever runs for GET, so the request body is never read |
| Serving.ApiCallProxied | src/main/kotlin/se/davison/aws/lambda/customruntime/local/LocalApiGatewayProxy.kt:119 | corrected: an API call with any method, outside the runtime paths, reaches the proxy with no parameters |

## Left out

- HTTP, sockets and the JDK `HttpServer`: requests are values (method name, path, query, headers, body) and replies are `Response` values. Content types and response headers other than the request id are not modelled.
- Concurrency: the hand-off `SynchronousQueue`, the `CountDownLatch` waits of 1 and 30 seconds, the thread pool and `processMultiThreaded`. The hand-off is the flag `accepted`; a result arrives or it does not (the flag `delivered`). The correlation map is used sequentially.
- JSON (GSON), Java reflection and class loading: the registry maps a class name to what instantiating it gives; the handler is a function of class name and payload. The typed deserialization of the payload is not modelled.
- The regular-expression engine is the parameter `re`, except for the static-asset pattern `\.\w{2,4}$`, which is modelled concretely.
- `errorTransformer` is the parameter `transform`. `printStackTrace`, the logger and `LambdaContext` (its deadline arithmetic and environment lookups) are left out.
- `exitProcess` in `onFatalError`: a fatal iteration ends the modelled run.
- `UUID.randomUUID()` and the `Random` ids of the request context: the request id is an input, and the mocked resource and account ids are not modelled.
- `Environment`: `RUNTIME_DATE` is the constant `2018-06-01`; `IS_LOCAL`, `_HANDLER` and the base URL are fields of an environment value; the port is left out.
- The posts to the runtime API are assumed to succeed; their replies are ignored, as the code ignores them.
- `LocalApiGatewayProxy.start`/`stop` and the singleton `instance`; `process()` and its missing-configuration exception; `HttpServer.default`.
- `Headers.add(name, null)` when no handler matches in `/next`: the handler header is an `Option`.
- An exception thrown by a route handler inside `handle` (the 500 reply) is not modelled, except for the missing request id in Gateway.LocalGateway.Deliver; otherwise only the unknown-method case reaches that reply.
- Gateway.LocalGateway.Accept: requires a non-empty request path. With an empty path `substring(1)` throws and `handle` answers 500; that case is not modelled. The JDK server's request paths start with `/`, so it does not arise there.
- Text.DropLast: removes one whole character. Kotlin strings are UTF-16, so `dropLast(1)` on a path ending in a character outside the Basic Multilingual Plane removes only its low surrogate; the model's strings are sequences of characters, and Gateway.AnyParameter inherits this difference.
- Gateway.BuildEvent: requires a non-empty path, for the same reason as Gateway.LocalGateway.Accept (as do Gateway.AnyParameter and Gateway.ResourcePath).
- Gateway.ToProxyEvent: requires a non-empty path, for the same reason as Gateway.LocalGateway.Accept.
- Text.Lower: lower-cases ASCII letters only; other characters are kept.

## Findings

The operations model the code as written, and the corrected definitions sit
beside them. `fixed` selects the corrected registration of the local router
block in `LocalRoutes.Wire` and `Serving.Serve`.

| source | as written | input that shows it | evidently intended | confidence | as-written member | corrected member |
|---|---|---|---|---|---|---|
| src/main/kotlin/se/davison/aws/lambda/customruntime/CustomRuntime.kt:148-150 | locally, `handlers.clear()` runs only after a successful post, so a handler whose invocation threw stays cached for the next request | request 1 names handler `A`, which throws; request 2 names `B` and is run by `A` | clear the cached handler after every local invocation (in a `finally` block), so each request runs the class its own header names | not executed | CustomRuntime.LocalHandlerOutlivesFailure | CustomRuntime.LocalServesNamedHandler |
| src/main/kotlin/se/davison/aws/lambda/customruntime/local/Router.kt:88-113 | `params` is cleared for each candidate, so it holds the captures of the last candidate examined, not of the one matched | candidates `a/:id`, `b/:x`; request `a/5`: `a/:id` is matched, but the parameters are empty | the parameters of the matched route | not executed | Router.ParamsOfLastCandidate | Router.MatchedCapturesAreSegments |
| src/main/kotlin/se/davison/aws/lambda/customruntime/local/LocalApiGatewayProxy.kt:96 | the invocation-error route is registered with `get`, but the runtime posts its error reports (`src/main/kotlin/se/davison/aws/lambda/customruntime/CustomRuntime.kt:99-106`) | `POST /2018-06-01/runtime/invocation/<id>/error` is answered 404, and the waiting API call then gets "TIMEOUT" (Gateway.Correlate) | register it with `post`, like the response route | not executed | Serving.ErrorReportNotFound | Serving.ErrorReportDispatched |
| src/main/kotlin/se/davison/aws/lambda/customruntime/local/LocalApiGatewayProxy.kt:114 | the init-error route is registered with `get`, but the runtime posts it | `POST /2018-06-01/runtime/init/error` is answered 404 | register it with `post` | not executed | Serving.InitReportNotFound | Serving.InitReportDispatched |
| src/main/kotlin/se/davison/aws/lambda/customruntime/local/LocalApiGatewayProxy.kt:119 | the catch-all proxy route is registered with `get` only, so the branch reading the body of POST, PUT and PATCH requests (`src/main/kotlin/se/davison/aws/lambda/customruntime/local/LocalApiGatewayProxy.kt:130-132`) can never run | `POST /hello` is answered 404 | register the proxy for every method | not executed | Serving.ApiCallNotFound | Serving.ApiCallProxied |

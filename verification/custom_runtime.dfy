/**
 * The runtime's invocation loop: polling the runtime API for the next event,
 * resolving the handler (once per worker when deployed, once per request
 * locally), posting the handler's result or an error report, and the policy that ends the process on initialisation
 * failures.
 *
 * The HTTP connections, reflection and JSON are replaced by inputs: a poll
 * result (or the exception the connection threw) per iteration, a registry from class name to what instantiating it
 * gives, and a function from handler class and event payload to the
 * handler's outcome.
 */
module CustomRuntime {
  import opened Wrappers
  import opened Text
  import RuntimeRoutes

  const RequestIdHeaderName: string := "Lambda-Runtime-Aws-Request-Id"
  const LocalHandlerHeaderName: string := "Local-Handler-Class"

  // ---------------------------------------------------------------------------
  // Exceptions
  // ---------------------------------------------------------------------------

  /** The exceptions the loop can catch, by kind. */
  datatype Failure =
    | NullPointer
    | ClassNotFound
    | IllegalAccess
    | Instantiation
    | NoSuchMethod
    | LambdaInit(message: string)
    | LambdaInvocation(message: string)
    | IndexOutOfBounds
    | Unexpected(name: string)

  /** The reflective and null-pointer failures the loop treats as initialisation failures. */
  predicate IsInitFailure(f: Failure) {
    f.NullPointer? || f.ClassNotFound? || f.IllegalAccess? || f.Instantiation?
  }

  /** The `when` in the catch block: initialisation failures become `LambdaInitException`, all else passes through. */
  function MapException(f: Failure): (r: Failure)
    ensures r.LambdaInit? <==> IsInitFailure(f) || f.LambdaInit?
    ensures !IsInitFailure(f) ==> r == f
  {
    match f
    case NullPointer => LambdaInit("Nullpointer exception")
    case ClassNotFound => LambdaInit("Class not found")
    case IllegalAccess => LambdaInit("Unable to access class")
    case Instantiation => LambdaInit("Unable to instantiate class")
    case _ => f
  }

  /** Mapping an already mapped exception changes nothing. */
  lemma MapExceptionIdempotent(f: Failure)
    ensures MapException(MapException(f)) == MapException(f)
  {
  }

  /** `onFatalError` runs after an exception exactly when its mapped form is a `LambdaInitException`. */
  predicate IsFatal(f: Failure) {
    MapException(f).LambdaInit?
  }

  // ---------------------------------------------------------------------------
  // Control-endpoint URLs
  // ---------------------------------------------------------------------------

  function NextUrl(base: string): string {
    base + "/invocation/next"
  }

  function ResponseUrl(base: string, requestId: string): string {
    base + "/invocation/" + requestId + "/response"
  }

  /** The invocation's error URL, or the initialisation error URL when there is no request id yet. */
  function ErrorUrl(base: string, requestId: Option<string>): string {
    base + "/" + (if requestId.Some? then "invocation/" + requestId.value else "init") + "/error"
  }

  /** Concatenation of four strings, grouped from the left or with the last three together. */
  lemma Concatenated(a: string, b: string, c: string, d: string)
    ensures a + b + c + d == a + (b + c + d)
  {
  }

  /** The response URL is the base URL followed by `RESPONSE` with the request id filled in. */
  lemma ResponseUrlFollowsRoute(base: string, requestId: string)
    ensures ResponseUrl(base, requestId) == base + RuntimeRoutes.WithParams(RuntimeRoutes.Response, map["requestId" := requestId])
  {
    RuntimeRoutes.WithParamsRequestId(RuntimeRoutes.Response, map["requestId" := requestId]);
    assert "/invocation/" == "/" + "invocation" + "/";
    assert "/response" == "/" + "response";
    Concatenated(base, "/" + "invocation" + "/", requestId, "/" + "response");
  }

  /** The invocation's error URL is the base URL followed by `INVOCATION_ERROR` with the request id filled in. */
  lemma ErrorUrlFollowsRoute(base: string, requestId: string)
    ensures ErrorUrl(base, Some(requestId)) == base + RuntimeRoutes.WithParams(RuntimeRoutes.InvocationError, map["requestId" := requestId])
  {
    RuntimeRoutes.WithParamsRequestId(RuntimeRoutes.InvocationError, map["requestId" := requestId]);
    assert "/invocation/" == "/" + "invocation" + "/";
    assert "/error" == "/" + "error";
    Concatenated(base, "/" + "invocation" + "/", requestId, "/" + "error");
  }

  /** The URL builders produce the base URL followed by the runtime routes, with `requestId` filled in. */
  lemma UrlsFollowRuntimeRoutes(base: string, requestId: string)
    ensures NextUrl(base) == base + RuntimeRoutes.Route(RuntimeRoutes.Next)
    ensures ResponseUrl(base, requestId) == base + RuntimeRoutes.WithParams(RuntimeRoutes.Response, map["requestId" := requestId])
    ensures ErrorUrl(base, Some(requestId)) == base + RuntimeRoutes.WithParams(RuntimeRoutes.InvocationError, map["requestId" := requestId])
    ensures ErrorUrl(base, None) == base + RuntimeRoutes.Route(RuntimeRoutes.InitializeError)
  {
    ResponseUrlFollowsRoute(base, requestId);
    ErrorUrlFollowsRoute(base, requestId);
  }

  // ---------------------------------------------------------------------------
  // Polling `/next`
  // ---------------------------------------------------------------------------

  /** `headerFields`: each header's name (absent for the status line) with its values. */
  type HeaderFields = seq<(Option<string>, seq<string>)>

  function HeaderKey(name: Option<string>): string {
    if name.None? then "" else Lower(name.value)
  }

  /** `associate`: each field in turn is put under its lower-cased name with its values joined by ", ". */
  function NormalizeHeaders(fields: HeaderFields): map<string, string> {
    if fields == [] then map[]
    else
      var last := fields[|fields| - 1];
      NormalizeHeaders(fields[..|fields| - 1])[HeaderKey(last.0) := Join(last.1, ", ")]
  }

  /** A key is present iff some field's name lower-cases to it, the status line giving "". */
  lemma {:induction false} NormalizeHeadersKeys(fields: HeaderFields, key: string)
    ensures key in NormalizeHeaders(fields) <==> exists i :: 0 <= i < |fields| && HeaderKey(fields[i].0) == key
    decreases |fields|
  {
    if fields != [] {
      var init := fields[..|fields| - 1];
      NormalizeHeadersKeys(init, key);
      assert forall i :: 0 <= i < |init| ==> init[i] == fields[i];
      assert HeaderKey(fields[|fields| - 1].0) == key ==> key in NormalizeHeaders(fields);
    }
  }

  /** The value under a key is the joined values of the last field whose name gives that key. */
  lemma {:induction false} NormalizeHeadersLast(fields: HeaderFields, key: string, i: nat)
    requires i < |fields| && HeaderKey(fields[i].0) == key
    requires forall j :: i < j < |fields| ==> HeaderKey(fields[j].0) != key
    ensures key in NormalizeHeaders(fields) && NormalizeHeaders(fields)[key] == Join(fields[i].1, ", ")
    decreases |fields|
  {
    var init := fields[..|fields| - 1];
    if i < |fields| - 1 {
      assert forall j :: i <= j < |init| ==> init[j] == fields[j];
      NormalizeHeadersLast(init, key, i);
    }
  }

  /**
   * What a poll of `/next` gives: the connection's header fields, status and
   * payload, or an exception other than the missing header that escapes
   * `nextInvocation` (opening the connection, or reading its status or body
   * stream). A runtime API that cannot be reached is the former: the
   * connection reports no header fields, so the request id is missing.
   */
  datatype Poll =
    | Poll(fields: HeaderFields, statusCode: int, payload: string)
    | PollThrew(thrown: Failure)

  /** The parsed reply to a poll. */
  datatype NextInvocation = NextInvocation(
    id: string, statusCode: int, payload: string, headers: map<string, string>, handlerClass: Option<string>)

  /** Either a value or the exception that replaced it. */
  datatype Attempt<+T> = Done(value: T) | Failed(failure: Failure)

  /** `nextInvocation()`: the request id header is required (`!!`), the local handler header is optional. */
  function ReadNext(poll: Poll): (r: Attempt<NextInvocation>)
    ensures poll.PollThrew? ==> r == Failed(poll.thrown)
    ensures poll.Poll? ==> (r.Failed? <==> Lower(RequestIdHeaderName) !in NormalizeHeaders(poll.fields))
    ensures poll.Poll? && r.Failed? ==> r.failure == NullPointer
    ensures r.Done? ==>
      poll.Poll? &&
      r.value.id == NormalizeHeaders(poll.fields)[Lower(RequestIdHeaderName)] &&
      r.value.statusCode == poll.statusCode && r.value.payload == poll.payload &&
      r.value.handlerClass == (
        if Lower(LocalHandlerHeaderName) in NormalizeHeaders(poll.fields)
        then Some(NormalizeHeaders(poll.fields)[Lower(LocalHandlerHeaderName)]) else None)
  {
    if poll.PollThrew? then Failed(poll.thrown)
    else
    var headers := NormalizeHeaders(poll.fields);
    var handlerClass := if Lower(LocalHandlerHeaderName) in headers then Some(headers[Lower(LocalHandlerHeaderName)]) else None;
    if Lower(RequestIdHeaderName) in headers
    then Done(NextInvocation(headers[Lower(RequestIdHeaderName)], poll.statusCode, poll.payload, headers, handlerClass))
    else Failed(NullPointer)
  }

  /** A header name matches the request-id header whatever its letter case. */
  lemma RequestIdFoundInAnyCase(name: string, id: string, statusCode: int, payload: string)
    requires Lower(name) == Lower(RequestIdHeaderName)
    ensures ReadNext(Poll([(Some(name), [id])], statusCode, payload)).Done?
    ensures ReadNext(Poll([(Some(name), [id])], statusCode, payload)).value.id == id
  {
    var fields: HeaderFields := [(Some(name), [id])];
    assert fields[..0] == [];
    assert NormalizeHeaders(fields) == map[][Lower(name) := Join([id], ", ")];
  }

  // ---------------------------------------------------------------------------
  // The handler cache
  // ---------------------------------------------------------------------------

  /**
   * What an instance of a class is. For a request handler, `typeArguments`
   * are the type arguments `getGenericTypeArguments` lists, those of its
   * superclass and then of its interfaces; only arguments that are classes
   * are listed, so `RequestHandler<Map<String, Any>, String>` contributes
   * only `String`, and a handler may list none.
   */
  datatype Kind =
    | RequestHandlerKind(typeArguments: seq<string>)
    | StreamHandlerKind
    | PlainKind

  /** What loading a class and calling its no-argument constructor gives: its kind, or the exception raised. */
  datatype ClassInfo = ClassInfo(kind: Kind, construction: Option<Failure>)

  /** The classes on the class path; a name outside it raises `ClassNotFoundException`. */
  type Registry = map<string, ClassInfo>

  /** The three fields of `Handlers`; a handler instance is represented by its class name. */
  datatype HandlerState = HandlerState(requestHandler: Option<string>, streamHandler: Option<string>, inputType: Option<string>)

  const NoHandlers := HandlerState(None, None, None)

  predicate HasHandler(s: HandlerState) {
    s.requestHandler.Some? || s.streamHandler.Some?
  }

  /** The class name `create` resolves: the configured handler when deployed, the `/next` header when local. */
  function HandlerName(isLocal: bool, configured: Option<string>, next: NextInvocation): Option<string> {
    if !isLocal then configured else next.handlerClass
  }

  /** `create`, on the state: the new state and the exception thrown, if any. */
  function Created(s: HandlerState, name: Option<string>, registry: Registry): (HandlerState, Option<Failure>) {
    if HasHandler(s) then (s, None)
    else if name.None? then (s, Some(LambdaInit("Malformed or missing handler name")))
    else if name.value !in registry then (s, Some(ClassNotFound))
    else
      var info := registry[name.value];
      if info.construction.Some? then (s, Some(info.construction.value))
      else
        match info.kind
        case RequestHandlerKind(args) =>
          if args == [] then (s.(requestHandler := Some(name.value)), Some(IndexOutOfBounds))
          else (HandlerState(Some(name.value), None, Some(args[0])), None)
        case StreamHandlerKind => (HandlerState(None, Some(name.value), None), None)
        case PlainKind =>
          (s, Some(LambdaInit("Class (class " + name.value + ") does not implement RequestHandler or RequestStreamHandler interface")))
  }

  /** A request handler class whose instance lists no class type argument, so that `get(0)` throws once it is installed. */
  predicate Untyped(s: HandlerState, name: Option<string>, registry: Registry) {
    !HasHandler(s) && name.Some? && name.value in registry &&
    registry[name.value].construction.None? && registry[name.value].kind == RequestHandlerKind([])
  }

  /**
   * Resolution from an empty cache either fails and leaves the cache as it
   * was, or succeeds and installs exactly one handler, of the named class,
   * with its first type argument as input type. The one exception: an
   * untyped request handler is installed and then fails, keeping the old
   * input type.
   */
  lemma CreatedMeaning(s: HandlerState, name: Option<string>, registry: Registry)
    ensures Created(s, name, registry).1.Some? && !Untyped(s, name, registry) ==> Created(s, name, registry).0 == s
    ensures Untyped(s, name, registry) ==>
      Created(s, name, registry) == (HandlerState(name, None, s.inputType), Some(IndexOutOfBounds)) &&
      !IsFatal(IndexOutOfBounds)
    ensures !HasHandler(s) && Created(s, name, registry).1.None? ==>
      name.Some? && name.value in registry &&
      var r := Created(s, name, registry).0;
      (r.requestHandler.Some? != r.streamHandler.Some?) &&
      (r.requestHandler == Some(name.value) || r.streamHandler == Some(name.value)) &&
      (r.requestHandler.Some? ==> r.inputType == Some(registry[name.value].kind.typeArguments[0])) &&
      (r.streamHandler.Some? ==> r.inputType.None?)
    ensures !HasHandler(s) && name.Some? && name.value in registry &&
            registry[name.value].construction.None? && registry[name.value].kind.PlainKind? ==>
      Created(s, name, registry).1.Some? && Created(s, name, registry).1.value.LambdaInit?
  {
  }

  /** Once a handler is installed, `create` does nothing until `clear`, whatever it is asked to resolve. */
  lemma CreatedOnce(s: HandlerState, name: Option<string>, registry: Registry, name2: Option<string>, registry2: Registry)
    requires Created(s, name, registry).1.None?
    ensures Created(Created(s, name, registry).0, name2, registry2) == (Created(s, name, registry).0, None)
  {
  }

  /**
   * An untyped request handler fails to resolve yet stays installed: the
   * next `create` does nothing, so the next invocation runs it.
   */
  lemma UntypedStaysInstalled(s: HandlerState, name: Option<string>, registry: Registry, name2: Option<string>, registry2: Registry)
    requires Untyped(s, name, registry)
    ensures Created(s, name, registry).1 == Some(IndexOutOfBounds)
    ensures Created(Created(s, name, registry).0, name2, registry2) == (Created(s, name, registry).0, None)
  {
  }

  /**
   * A missing name, an unknown class, a constructor that is not accessible or
   * an abstract class, or a class that is not a handler ends the process; a
   * class without a no-argument constructor, whose constructor throws
   * anything else, or a request handler without a class type argument, does
   * not.
   */
  lemma CreatedFailureFatality(s: HandlerState, name: Option<string>, registry: Registry)
    requires !HasHandler(s) && Created(s, name, registry).1.Some?
    ensures IsFatal(Created(s, name, registry).1.value) <==>
      name.None? || name.value !in registry ||
      (registry[name.value].construction.Some? && IsFatal(registry[name.value].construction.value)) ||
      (registry[name.value].construction.None? && registry[name.value].kind.PlainKind?)
  {
    if Untyped(s, name, registry) {
      assert Created(s, name, registry).1.value == IndexOutOfBounds;
    }
  }

  class Handlers {
    var requestHandler: Option<string>
    var requestStreamHandler: Option<string>
    var requestHandlerClass: Option<string>

    constructor ()
      ensures State() == NoHandlers
    {
      requestHandler := None;
      requestStreamHandler := None;
      requestHandlerClass := None;
    }

    function State(): HandlerState
      reads this
    {
      HandlerState(requestHandler, requestStreamHandler, requestHandlerClass)
    }

    /** Forgets both handlers; the input type stays. */
    method Clear()
      modifies this
      ensures State() == HandlerState(None, None, old(State()).inputType)
    {
      requestHandler := None;
      requestStreamHandler := None;
    }

    /** Resolves the handler for `next` unless one is installed; answers the exception thrown, if any. */
    method Create(isLocal: bool, configured: Option<string>, next: NextInvocation, registry: Registry) returns (failure: Option<Failure>)
      modifies this
      ensures (State(), failure) == Created(old(State()), HandlerName(isLocal, configured, next), registry)
    {
      if requestHandler.Some? || requestStreamHandler.Some? {
        return None;
      }
      var handlerClass := if !isLocal then configured else next.handlerClass;
      if handlerClass.None? {
        return Some(LambdaInit("Malformed or missing handler name"));
      }
      if handlerClass.value !in registry {
        return Some(ClassNotFound);
      }
      var info := registry[handlerClass.value];
      if info.construction.Some? {
        return Some(info.construction.value);
      }
      match info.kind {
        case RequestHandlerKind(args) =>
          requestHandler := Some(handlerClass.value);
          if args == [] {
            return Some(IndexOutOfBounds);
          }
          requestHandlerClass := Some(args[0]);
        case StreamHandlerKind =>
          requestStreamHandler := Some(handlerClass.value);
          requestHandlerClass := None;
        case PlainKind =>
          return Some(LambdaInit("Class (class " + handlerClass.value + ") does not implement RequestHandler or RequestStreamHandler interface"));
      }
      failure := None;
    }
  }

  // ---------------------------------------------------------------------------
  // One iteration of the loop
  // ---------------------------------------------------------------------------

  /**
   * What the installed handler does with an event: returns a result, throws
   * an exception, or raises an error that is not an `Exception` (such as the
   * `NotImplementedError` of `LambdaContext.getClientContext` and
   * `getIdentity`), which the loop's `catch` does not see.
   */
  datatype Outcome = Returned(data: string) | Threw(failure: Failure) | Escaped(error: string)

  /** The handler is a function of the installed class and the event payload. */
  type Invoke = (string, string) -> Outcome

  /** What a post to the runtime API carries. */
  datatype Report = Result(data: string) | Error(failure: Failure)

  datatype Post = Post(url: string, report: Report)

  /** Where the runtime runs: `IS_LOCAL`, the configured handler and the runtime API's base URL. */
  datatype Environment = Environment(isLocal: bool, handlerClass: Option<string>, baseUrl: string)

  /** The handlers' state after an iteration, the posts it made in order, and whether the loop ends (`onFatalError` ran, or an error escaped it). */
  datatype Step = Step(state: HandlerState, posts: seq<Post>, fatal: bool)

  /** The installed handler: the request handler if any, otherwise the stream handler. */
  function Installed(s: HandlerState): string
    requires HasHandler(s)
  {
    if s.requestHandler.Some? then s.requestHandler.value else s.streamHandler.value
  }

  /** The catch block: one error post, to the invocation's error URL once the request id is known, and the fatal policy. */
  function Caught(env: Environment, transform: Failure -> Failure, s: HandlerState, requestId: Option<string>,
                  posts: seq<Post>, f: Failure): Step {
    var mapped := MapException(f);
    Step(s, posts + [Post(ErrorUrl(env.baseUrl, requestId), Error(transform(mapped)))], mapped.LambdaInit?)
  }

  /** One pass through the body of the `while (true)` loop of `processSingleThreaded`. */
  function Iteration(env: Environment, registry: Registry, transform: Failure -> Failure, invoke: Invoke,
                     s: HandlerState, poll: Poll): Step {
    match ReadNext(poll)
    case Failed(f) => Caught(env, transform, s, None, [], f)
    case Done(next) =>
      var (created, createFailure) := Created(s, HandlerName(env.isLocal, env.handlerClass, next), registry);
      if createFailure.Some? then Caught(env, transform, created, None, [], createFailure.value)
      else
        Invoked(env, transform, created, next, invoke(Installed(created), next.payload))
  }

  /**
   * The rest of an iteration once the handler is installed: the bad-status
   * report, then the handler's result, or the report of its exception, or
   * nothing more when an error escapes.
   */
  function Invoked(env: Environment, transform: Failure -> Failure, created: HandlerState, next: NextInvocation,
                   outcome: Outcome): Step {
    var early := if next.statusCode != 200
      then [Post(ErrorUrl(env.baseUrl, Some(next.id)), Error(transform(LambdaInvocation("Next invocation error"))))]
      else [];
    match outcome
    case Threw(f) => Caught(env, transform, created, Some(next.id), early, f)
    case Escaped(_) => Step(created, early, true)
    case Returned(data) =>
      Step(if env.isLocal then created.(requestHandler := None, streamHandler := None) else created,
           early + [Post(ResponseUrl(env.baseUrl, next.id), Result(data))], false)
  }

  /**
   * One iteration, in the order the loop body runs: poll, resolve, record
   * the request id, report a bad poll status, run the handler and post its
   * result, clear in local mode; an exception anywhere skips the rest and is
   * reported once.
   */
  method Iterate(handlers: Handlers, env: Environment, registry: Registry, transform: Failure -> Failure, invoke: Invoke,
                 poll: Poll) returns (posts: seq<Post>, fatal: bool)
    modifies handlers
    ensures Step(handlers.State(), posts, fatal) == Iteration(env, registry, transform, invoke, old(handlers.State()), poll)
  {
    var next := ReadNext(poll);
    var failure: Option<Failure>;
    if next.Failed? {
      failure := Some(next.failure);
    } else {
      failure := handlers.Create(env.isLocal, env.handlerClass, next.value, registry);
      if failure.None? {
        var handler := if handlers.requestHandler.Some? then handlers.requestHandler.value else handlers.requestStreamHandler.value;
        posts, fatal := RunHandler(handlers, env, transform, next.value, invoke(handler, next.value.payload));
        return;
      }
    }
    var mapped := MapException(failure.value);
    posts := [Post(ErrorUrl(env.baseUrl, None), Error(transform(mapped)))];
    fatal := mapped.LambdaInit?;
  }

  /**
   * The loop body after `create`, with the request id recorded: report a bad
   * poll status, post the handler's result and clear in local mode, or report
   * its exception; an error that is not an `Exception` skips the rest.
   */
  method RunHandler(handlers: Handlers, env: Environment, transform: Failure -> Failure, next: NextInvocation, outcome: Outcome)
    returns (posts: seq<Post>, fatal: bool)
    modifies handlers
    ensures Step(handlers.State(), posts, fatal) == Invoked(env, transform, old(handlers.State()), next, outcome)
  {
    var requestId := next.id;
    posts := [];
    if next.statusCode != 200 {
      posts := posts + [Post(ErrorUrl(env.baseUrl, Some(requestId)), Error(transform(LambdaInvocation("Next invocation error"))))];
    }
    match outcome {
      case Threw(f) =>
        var mapped := MapException(f);
        posts := posts + [Post(ErrorUrl(env.baseUrl, Some(requestId)), Error(transform(mapped)))];
        fatal := mapped.LambdaInit?;
      case Escaped(_) =>
        fatal := true;
      case Returned(data) =>
        posts := posts + [Post(ResponseUrl(env.baseUrl, requestId), Result(data))];
        if env.isLocal {
          handlers.Clear();
        }
        fatal := false;
    }
  }

  // ---------------------------------------------------------------------------
  // What an iteration reports
  // ---------------------------------------------------------------------------

  /** A poll without the request-id header is reported to the initialisation error URL, and ends the process. */
  lemma MissingRequestIdIsFatal(env: Environment, registry: Registry, transform: Failure -> Failure, invoke: Invoke,
                                s: HandlerState, poll: Poll)
    requires poll.Poll? && Lower(RequestIdHeaderName) !in NormalizeHeaders(poll.fields)
    ensures Iteration(env, registry, transform, invoke, s, poll) ==
      Step(s, [Post(ErrorUrl(env.baseUrl, None), Error(transform(LambdaInit("Nullpointer exception"))))], true)
  {
  }

  /**
   * A runtime API that cannot be reached gives a connection without header
   * fields: the missing request id ends the loop as an initialisation
   * failure, before any later poll.
   */
  lemma UnreachableApiIsFatal(env: Environment, registry: Registry, transform: Failure -> Failure, invoke: Invoke,
                              s: HandlerState, statusCode: int, payload: string, more: seq<Poll>)
    ensures var r := Run(env, registry, transform, invoke, s, [Poll([], statusCode, payload)] + more);
      r.fatal && r.rounds == 1 && r.state == s &&
      r.posts == [Post(ErrorUrl(env.baseUrl, None), Error(transform(LambdaInit("Nullpointer exception"))))]
  {
    assert NormalizeHeaders([]) == map[];
    MissingRequestIdIsFatal(env, registry, transform, invoke, s, Poll([], statusCode, payload));
  }

  /**
   * An exception escaping `nextInvocation` is reported to the initialisation
   * error URL; unless it maps to `LambdaInitException` the loop carries on
   * with the cache as it was.
   */
  lemma PollFailureIsReported(env: Environment, registry: Registry, transform: Failure -> Failure, invoke: Invoke,
                              s: HandlerState, thrown: Failure)
    ensures var step := Iteration(env, registry, transform, invoke, s, PollThrew(thrown));
      step.state == s && step.posts == [Post(ErrorUrl(env.baseUrl, None), Error(transform(MapException(thrown))))] &&
      (step.fatal <==> IsInitFailure(thrown) || thrown.LambdaInit?)
  {
  }

  /** Such an exception, when it is not an initialisation failure, does not stop the loop: the next poll is taken after the report. */
  lemma PollFailureKeepsPolling(env: Environment, registry: Registry, transform: Failure -> Failure, invoke: Invoke,
                                s: HandlerState, name: string, polls: seq<Poll>)
    ensures var r := Run(env, registry, transform, invoke, s, [PollThrew(Unexpected(name))] + polls);
      var rest := Run(env, registry, transform, invoke, s, polls);
      r.state == rest.state && r.fatal == rest.fatal && r.rounds == rest.rounds + 1 &&
      r.posts == [Post(ErrorUrl(env.baseUrl, None), Error(transform(Unexpected(name))))] + rest.posts
  {
    var p := PollThrew(Unexpected(name));
    PollFailureIsReported(env, registry, transform, invoke, s, Unexpected(name));
    var step := Iteration(env, registry, transform, invoke, s, p);
    assert !step.fatal && step.state == s;
    assert ([p] + polls)[0] == p;
    assert ([p] + polls)[1..] == polls;
  }

  /**
   * The request id is recorded only after resolution: a resolution failure
   * is reported to the initialisation error URL, leaves the cache as it was
   * (except that an untyped request handler stays installed), and is fatal
   * exactly when it maps to `LambdaInitException`.
   */
  lemma ResolutionFailureIsInitError(env: Environment, registry: Registry, transform: Failure -> Failure, invoke: Invoke,
                                     s: HandlerState, poll: Poll, next: NextInvocation)
    requires ReadNext(poll) == Done(next)
    requires Created(s, HandlerName(env.isLocal, env.handlerClass, next), registry).1.Some?
    ensures var name := HandlerName(env.isLocal, env.handlerClass, next);
      var f := Created(s, name, registry).1.value;
      Iteration(env, registry, transform, invoke, s, poll) ==
      Step(if Untyped(s, name, registry) then s.(requestHandler := name) else s,
           [Post(ErrorUrl(env.baseUrl, None), Error(transform(MapException(f))))], IsFatal(f))
  {
    CreatedMeaning(s, HandlerName(env.isLocal, env.handlerClass, next), registry);
  }

  /**
   * A bad poll status is reported to the invocation's error URL, and the
   * handler still runs: when it returns, its result follows to the
   * response URL and the iteration is not fatal.
   */
  lemma BadStatusStillResponds(env: Environment, registry: Registry, transform: Failure -> Failure, invoke: Invoke,
                               s: HandlerState, poll: Poll, next: NextInvocation, data: string)
    requires ReadNext(poll) == Done(next) && next.statusCode != 200
    requires Created(s, HandlerName(env.isLocal, env.handlerClass, next), registry).1.None?
    requires invoke(Installed(Created(s, HandlerName(env.isLocal, env.handlerClass, next), registry).0), next.payload) == Returned(data)
    ensures var step := Iteration(env, registry, transform, invoke, s, poll);
      step.posts == [Post(ErrorUrl(env.baseUrl, Some(next.id)), Error(transform(LambdaInvocation("Next invocation error")))),
                     Post(ResponseUrl(env.baseUrl, next.id), Result(data))] &&
      !step.fatal
  {
    CreatedMeaning(s, HandlerName(env.isLocal, env.handlerClass, next), registry);
  }

  /**
   * A handler that throws is reported once, last, to the invocation's error
   * URL; no result is posted, the cache is kept even in local mode, and the
   * process ends exactly when the exception maps to `LambdaInitException`,
   * so a `NullPointerException` inside the handler ends it.
   */
  lemma HandlerFailureIsInvocationError(env: Environment, registry: Registry, transform: Failure -> Failure, invoke: Invoke,
                                        s: HandlerState, poll: Poll, next: NextInvocation, f: Failure)
    requires ReadNext(poll) == Done(next)
    requires Created(s, HandlerName(env.isLocal, env.handlerClass, next), registry).1.None?
    requires invoke(Installed(Created(s, HandlerName(env.isLocal, env.handlerClass, next), registry).0), next.payload) == Threw(f)
    ensures var step := Iteration(env, registry, transform, invoke, s, poll);
      |step.posts| > 0 &&
      step.posts[|step.posts| - 1] == Post(ErrorUrl(env.baseUrl, Some(next.id)), Error(transform(MapException(f)))) &&
      (forall i :: 0 <= i < |step.posts| ==> step.posts[i].report.Error?) &&
      step.state == Created(s, HandlerName(env.isLocal, env.handlerClass, next), registry).0 &&
      step.fatal == IsFatal(f) &&
      (f == NullPointer ==> step.fatal)
  {
    CreatedMeaning(s, HandlerName(env.isLocal, env.handlerClass, next), registry);
  }

  /**
   * An error that is not an `Exception` escapes the loop: nothing beyond the
   * bad-status report is posted, no result and no error report, the handler
   * stays installed, and no later poll is taken.
   */
  lemma EscapedErrorEndsLoop(env: Environment, registry: Registry, transform: Failure -> Failure, invoke: Invoke,
                             s: HandlerState, poll: Poll, next: NextInvocation, error: string, more: seq<Poll>)
    requires ReadNext(poll) == Done(next)
    requires Created(s, HandlerName(env.isLocal, env.handlerClass, next), registry).1.None?
    requires invoke(Installed(Created(s, HandlerName(env.isLocal, env.handlerClass, next), registry).0), next.payload) == Escaped(error)
    ensures var r := Run(env, registry, transform, invoke, s, [poll] + more);
      r.fatal && r.rounds == 1 &&
      r.state == Created(s, HandlerName(env.isLocal, env.handlerClass, next), registry).0 &&
      r.posts == if next.statusCode != 200
        then [Post(ErrorUrl(env.baseUrl, Some(next.id)), Error(transform(LambdaInvocation("Next invocation error"))))]
        else []
  {
    CreatedMeaning(s, HandlerName(env.isLocal, env.handlerClass, next), registry);
    assert ([poll] + more)[0] == poll;
  }

  // ---------------------------------------------------------------------------
  // What the cache holds between iterations
  // ---------------------------------------------------------------------------

  /** At most one handler is installed. */
  predicate AtMostOne(s: HandlerState) {
    !(s.requestHandler.Some? && s.streamHandler.Some?)
  }

  /** When deployed, the installed handler, if any, is the configured class. */
  predicate Serves(s: HandlerState, configured: Option<string>) {
    AtMostOne(s) && (HasHandler(s) ==> configured.Some? && Installed(s) == configured.value)
  }

  /** Every iteration keeps at most one handler installed. */
  lemma IterationKeepsAtMostOne(env: Environment, registry: Registry, transform: Failure -> Failure, invoke: Invoke,
                                s: HandlerState, poll: Poll)
    requires AtMostOne(s)
    ensures AtMostOne(Iteration(env, registry, transform, invoke, s, poll).state)
  {
    match ReadNext(poll)
    case Failed(_) =>
    case Done(next) =>
      CreatedMeaning(s, HandlerName(env.isLocal, env.handlerClass, next), registry);
  }

  /** When deployed, the only class ever installed is the configured one. */
  lemma DeployedServesConfigured(env: Environment, registry: Registry, transform: Failure -> Failure, invoke: Invoke,
                                 s: HandlerState, poll: Poll)
    requires !env.isLocal && Serves(s, env.handlerClass)
    ensures Serves(Iteration(env, registry, transform, invoke, s, poll).state, env.handlerClass)
  {
    match ReadNext(poll)
    case Failed(_) =>
    case Done(next) =>
      CreatedMeaning(s, HandlerName(env.isLocal, env.handlerClass, next), registry);
  }

  /** In local mode an iteration that throws nothing leaves no handler installed. */
  lemma LocalSuccessClears(env: Environment, registry: Registry, transform: Failure -> Failure, invoke: Invoke,
                           s: HandlerState, poll: Poll)
    requires env.isLocal
    requires var step := Iteration(env, registry, transform, invoke, s, poll);
      |step.posts| > 0 && step.posts[|step.posts| - 1].report.Result?
    ensures !HasHandler(Iteration(env, registry, transform, invoke, s, poll).state)
  {
  }

  // ---------------------------------------------------------------------------
  // The loop
  // ---------------------------------------------------------------------------

  /** The cache after the iterations run, the posts they made, how many polls were taken, and whether the last was fatal. */
  datatype Trace = Trace(state: HandlerState, posts: seq<Post>, rounds: nat, fatal: bool)

  /** Iterations over `polls` in turn, until one is fatal: `onFatalError` exits the process. */
  function Run(env: Environment, registry: Registry, transform: Failure -> Failure, invoke: Invoke,
               s: HandlerState, polls: seq<Poll>): (r: Trace)
    ensures r.rounds <= |polls|
    ensures !r.fatal ==> r.rounds == |polls|
    ensures r.fatal ==> r.rounds > 0
    decreases |polls|
  {
    if polls == [] then Trace(s, [], 0, false)
    else
      var step := Iteration(env, registry, transform, invoke, s, polls[0]);
      if step.fatal then Trace(step.state, step.posts, 1, true)
      else
        var rest := Run(env, registry, transform, invoke, step.state, polls[1..]);
        Trace(rest.state, step.posts + rest.posts, rest.rounds + 1, rest.fatal)
  }

  /** Once an iteration is fatal, no later poll is taken: polls after it change nothing. */
  lemma {:induction false} RunStopsAtFatal(env: Environment, registry: Registry, transform: Failure -> Failure, invoke: Invoke,
                                           s: HandlerState, polls: seq<Poll>, more: seq<Poll>)
    requires Run(env, registry, transform, invoke, s, polls).fatal
    ensures Run(env, registry, transform, invoke, s, polls + more) == Run(env, registry, transform, invoke, s, polls)
    decreases |polls|
  {
    assert (polls + more)[0] == polls[0];
    var step := Iteration(env, registry, transform, invoke, s, polls[0]);
    if !step.fatal {
      assert (polls + more)[1..] == polls[1..] + more;
      RunStopsAtFatal(env, registry, transform, invoke, step.state, polls[1..], more);
    }
  }

  /** When deployed, the configured class is the only one ever installed, however many polls are served. */
  lemma {:induction false} DeployedRunServesConfigured(env: Environment, registry: Registry, transform: Failure -> Failure,
                                                       invoke: Invoke, s: HandlerState, polls: seq<Poll>)
    requires !env.isLocal && Serves(s, env.handlerClass)
    ensures Serves(Run(env, registry, transform, invoke, s, polls).state, env.handlerClass)
    decreases |polls|
  {
    if polls != [] {
      DeployedServesConfigured(env, registry, transform, invoke, s, polls[0]);
      var step := Iteration(env, registry, transform, invoke, s, polls[0]);
      if !step.fatal {
        DeployedRunServesConfigured(env, registry, transform, invoke, step.state, polls[1..]);
      }
    }
  }

  /** `t` after the first `rounds` iterations made `posts`. */
  function After(posts: seq<Post>, rounds: nat, t: Trace): Trace {
    Trace(t.state, posts + t.posts, rounds + t.rounds, t.fatal)
  }

  /** The loop's step: running from poll `i` is one iteration followed, unless it is fatal, by running from poll `i + 1`. */
  lemma RunStep(env: Environment, registry: Registry, transform: Failure -> Failure, invoke: Invoke,
                s: HandlerState, polls: seq<Poll>, i: nat, posts: seq<Post>)
    requires i < |polls|
    ensures var step := Iteration(env, registry, transform, invoke, s, polls[i]);
      After(posts, i, Run(env, registry, transform, invoke, s, polls[i..])) ==
        if step.fatal then Trace(step.state, posts + step.posts, i + 1, true)
        else After(posts + step.posts, i + 1, Run(env, registry, transform, invoke, step.state, polls[i + 1..]))
  {
    assert polls[i..][0] == polls[i];
    assert polls[i..][1..] == polls[i + 1..];
  }

  lemma RunStart(env: Environment, registry: Registry, transform: Failure -> Failure, invoke: Invoke, polls: seq<Poll>)
    ensures After([], 0, Run(env, registry, transform, invoke, NoHandlers, polls[0..])) == Run(env, registry, transform, invoke, NoHandlers, polls)
  {
    assert polls[0..] == polls;
  }

  /** `processSingleThreaded` over the polls it receives, with a fresh cache, until a fatal iteration. */
  method ProcessSingleThreaded(env: Environment, registry: Registry, transform: Failure -> Failure, invoke: Invoke,
                               polls: seq<Poll>) returns (posts: seq<Post>, rounds: nat, fatal: bool)
    ensures var t := Run(env, registry, transform, invoke, NoHandlers, polls);
      posts == t.posts && rounds == t.rounds && fatal == t.fatal
  {
    var handlers := new Handlers();
    posts, rounds, fatal := [], 0, false;
    ghost var total := Run(env, registry, transform, invoke, NoHandlers, polls);
    RunStart(env, registry, transform, invoke, polls);
    while rounds < |polls| && !fatal
      invariant rounds <= |polls|
      invariant fatal ==> total == Trace(handlers.State(), posts, rounds, true)
      invariant !fatal ==> After(posts, rounds, Run(env, registry, transform, invoke, handlers.State(), polls[rounds..])) == total
      decreases |polls| - rounds
    {
      RunStep(env, registry, transform, invoke, handlers.State(), polls, rounds, posts);
      var stepPosts, stepFatal := Iterate(handlers, env, registry, transform, invoke, polls[rounds]);
      posts := posts + stepPosts;
      rounds := rounds + 1;
      fatal := stepFatal;
    }
    if !fatal {
      assert polls[rounds..] == [];
    }
  }

  // ---------------------------------------------------------------------------
  // A failed local invocation leaves its handler installed
  // ---------------------------------------------------------------------------

  /** A local poll for request `id` whose handler header names `handler`. */
  function LocalPoll(id: string, handler: string): Poll {
    Poll([(Some(RequestIdHeaderName), [id]), (Some(LocalHandlerHeaderName), [handler])], 200, "{}")
  }

  lemma ReadLocalPoll(id: string, handler: string)
    ensures ReadNext(LocalPoll(id, handler)).Done?
    ensures ReadNext(LocalPoll(id, handler)).value.id == id
    ensures ReadNext(LocalPoll(id, handler)).value.handlerClass == Some(handler)
    ensures ReadNext(LocalPoll(id, handler)).value.statusCode == 200
  {
    var fields := LocalPoll(id, handler).fields;
    assert |Lower(RequestIdHeaderName)| != |Lower(LocalHandlerHeaderName)|;
    assert fields[..1][..0] == [];
    assert fields[..|fields| - 1] == fields[..1];
    assert NormalizeHeaders(fields[..1]) == map[Lower(RequestIdHeaderName) := Join([id], ", ")];
  }

  /** Two request handler classes, `A` whose handler always throws and `B` whose handler answers with its name. */
  const TwoHandlers: Registry := map["A" := ClassInfo(RequestHandlerKind(["Input"]), None), "B" := ClassInfo(RequestHandlerKind(["Input"]), None)]

  function FailingA(cls: string, payload: string): Outcome {
    if cls == "A" then Threw(Unexpected("A failed")) else Returned(cls)
  }

  function Unchanged(f: Failure): Failure {
    f
  }

  /**
   * As written: locally, after request 1 for `A` throws, request 2 names `B`
   * in its header but is served by the cached `A`, and fails the same way.
   */
  lemma LocalHandlerOutlivesFailure()
    ensures var env := Environment(true, None, "base");
      var first := Iteration(env, TwoHandlers, Unchanged, FailingA, NoHandlers, LocalPoll("1", "A"));
      var second := Iteration(env, TwoHandlers, Unchanged, FailingA, first.state, LocalPoll("2", "B"));
      !first.fatal && first.state.requestHandler == Some("A") &&
      second.posts == [Post(ErrorUrl("base", Some("2")), Error(Unexpected("A failed")))]
  {
    ReadLocalPoll("1", "A");
    ReadLocalPoll("2", "B");
  }

  /** The iteration with the local `clear` in a `finally` block: locally, no handler outlives its invocation. */
  function IterationCorrected(env: Environment, registry: Registry, transform: Failure -> Failure, invoke: Invoke,
                              s: HandlerState, poll: Poll): Step {
    var step := Iteration(env, registry, transform, invoke, s, poll);
    if env.isLocal then step.(state := step.state.(requestHandler := None, streamHandler := None)) else step
  }

  /**
   * Corrected: locally, every invocation whose handler resolves runs the
   * class its own header names, and its last post is that handler's result
   * or that handler's exception; the cache is empty again afterwards.
   */
  lemma LocalServesNamedHandler(env: Environment, registry: Registry, transform: Failure -> Failure, invoke: Invoke,
                                s: HandlerState, poll: Poll, next: NextInvocation)
    requires env.isLocal && !HasHandler(s)
    requires ReadNext(poll) == Done(next)
    requires Created(s, next.handlerClass, registry).1.None?
    ensures next.handlerClass.Some?
    ensures var step := IterationCorrected(env, registry, transform, invoke, s, poll);
      !HasHandler(step.state) &&
      match invoke(next.handlerClass.value, next.payload)
      case Returned(data) => |step.posts| > 0 && step.posts[|step.posts| - 1] == Post(ResponseUrl(env.baseUrl, next.id), Result(data))
      case Threw(f) => |step.posts| > 0 && step.posts[|step.posts| - 1] == Post(ErrorUrl(env.baseUrl, Some(next.id)), Error(transform(MapException(f))))
      case Escaped(_) => step.fatal && forall i :: 0 <= i < |step.posts| ==> step.posts[i].report.Error?
  {
    CreatedMeaning(s, next.handlerClass, registry);
  }

  /** Corrected, the example above: request 2 is served by `B`. */
  lemma LocalHandlerClearedAfterFailure()
    ensures var env := Environment(true, None, "base");
      var first := IterationCorrected(env, TwoHandlers, Unchanged, FailingA, NoHandlers, LocalPoll("1", "A"));
      var second := IterationCorrected(env, TwoHandlers, Unchanged, FailingA, first.state, LocalPoll("2", "B"));
      second.posts == [Post(ResponseUrl("base", "2"), Result("B"))]
  {
    ReadLocalPoll("1", "A");
    ReadLocalPoll("2", "B");
  }
}

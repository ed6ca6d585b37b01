/** The dispatch pipeline of one command or query endpoint: the stages, what each may refuse,
    and the trace of everything a request makes happen. */
module Pipeline {
  import opened Prelude
  import opened Errors
  import Authz

  // ---------- requests, values, configuration ----------

  /** user and actor are "" when absent; deadline 0 means none was set; tag is everything else. */
  datatype Ctx = Ctx(user: string, actor: string, tag: string, deadline: int)

  /** contentLength is what the request declares, -1 for an unknown length; body is None when
      there is no body at all. */
  datatype HttpReq = HttpReq(
    httpMethod: string,
    contentType: string,
    commandId: string,
    body: Option<string>,
    contentLength: int,
    isHtmx: bool,
    ctx: Ctx)

  /** A decoded command or query: its Go type and its contents. */
  datatype Value = Value(goType: string, data: string)

  /** Decoded(None) is a decoder that answered (nil, nil). */
  datatype Decoding = Decoded(value: Option<Value>) | DecodeError(err: Error)

  /** Decoders, guards, resolvers and the policy engine may consult whatever the commands dispatched
      before have left behind, so they are given those. */
  type Decoder = (seq<Call>, HttpReq) -> Decoding

  /** A renderer is handed the response writer itself: it may have written before it failed. */
  datatype Rendering = Rendering(wrote: bool, err: Option<Error>)

  datatype HandlerConfig = HandlerConfig(
    requireMethod: string,
    requireMethods: seq<string>,
    auth: Authz.AuthConfig,
    csrf: Option<HttpReq -> bool>,
    requiredContentType: string,
    decoder: Option<Decoder>,
    guard: Option<(seq<Call>, HttpReq, Value) -> Option<Error>>,
    onError: bool,
    timeout: int,
    redirect: string,
    trigger: string,
    triggerDetail: bool,
    pushURL: string,
    render: Option<Value -> Rendering>,
    successStatus: int)

  datatype Call = Call(ctx: Ctx, value: Value)

  datatype DispatchAnswer = Result(value: Value) | DispatchError(err: Error)

  /** An App's settings. Errors are classified, media types parsed, redirect targets judged and
      values enriched by the code these functions stand for; the dispatcher, when there is one,
      may answer by everything dispatched before. */
  datatype AppConfig = AppConfig(
    enforcer: seq<Call> -> Option<Authz.Enforcer>,
    seen: (seq<Call>, string) -> string,
    classify: Error -> Family,
    userIDExtractor: Option<HttpReq -> Option<string>>,
    beforeDispatch: Option<(Ctx, HttpReq) -> Ctx>,
    afterDispatch: bool,
    timeout: int,
    mediaType: string -> Option<string>,
    equalFold: (string, string) -> bool,
    enrich: (Ctx, Value) -> Value,
    redirectSafe: string -> bool,
    hasDispatcher: bool,
    dispatcher: (seq<Call>, Ctx, Value) -> DispatchAnswer)

  const COMMAND := "command"
  const QUERY := "query"

  /** One request to one registered endpoint; wantType is the type parameter of the typed
      variants, past what has been dispatched when it starts. */
  datatype Exchange = Exchange(
    app: AppConfig,
    config: HandlerConfig,
    r: HttpReq,
    kind: string,
    wantType: Option<string>,
    past: seq<Call>)

  const ERR_METHOD_NOT_ALLOWED: Error := Coded("method_not_allowed", Rejection, None)
  const ERR_DECODE_FAILED: Error := Coded("decode_failed", Rejection, None)
  const ERR_UNSUPPORTED_MEDIA_TYPE: Error := Coded("unsupported_media_type", Rejection, None)
  const ERR_DECODER_MISSING: Error := Coded("decoder_missing", Infrastructure, None)
  const ERR_DECODER_RETURNED_NIL: Error := Coded("decoder_returned_nil", Corruption, None)
  const ERR_CSRF_INVALID: Error := Plain(None)
  const ERR_COMMANDS_NIL: Error := Coded("commands_nil", Infrastructure, None)
  const ERR_QUERIES_NIL: Error := Coded("queries_nil", Infrastructure, None)

  // ---------- the stages ----------

  datatype Stage =
    | MethodGuard | Authorization | CsrfCheck | ContentTypeCheck
    | DecoderCheck | Decode | NilCheck | GuardCheck | Dispatch

  const STAGES: seq<Stage> :=
    [MethodGuard, Authorization, CsrfCheck, ContentTypeCheck, DecoderCheck, Decode, NilCheck, GuardCheck, Dispatch]

  function Position(s: Stage): nat {
    match s
    case MethodGuard => 0
    case Authorization => 1
    case CsrfCheck => 2
    case ContentTypeCheck => 3
    case DecoderCheck => 4
    case Decode => 5
    case NilCheck => 6
    case GuardCheck => 7
    case Dispatch => 8
  }

  function Next(s: Stage): (n: Stage)
    requires s != Dispatch
    ensures Position(n) == Position(s) + 1
  {
    match s
    case MethodGuard => Authorization
    case Authorization => CsrfCheck
    case CsrfCheck => ContentTypeCheck
    case ContentTypeCheck => DecoderCheck
    case DecoderCheck => Decode
    case Decode => NilCheck
    case NilCheck => GuardCheck
    case GuardCheck => Dispatch
  }

  /** response is None when the CSRF validator's own response is copied out; reported is what
      the AfterDispatch hook is told. */
  datatype Failure = Failure(response: Option<Error>, reported: Error)

  predicate MethodAllowed(c: HandlerConfig, httpMethod: string) {
    if c.requireMethod != "" then httpMethod == c.requireMethod
    else if |c.requireMethods| > 0 then httpMethod in c.requireMethods
    else true
  }

  function AuthorizationError(x: Exchange): Option<Error> {
    var r := Authz.HttpRequest(x.r.ctx.user, x.app.seen(x.past, x.r.ctx.tag));
    Authz.ExecuteAuthorization(x.app.enforcer(x.past), x.app.classify, r, x.config.auth)
  }

  /** A check that answers with a code of its own and reports the sentinel. */
  function CheckFailure(code: string, sentinel: Error): Failure {
    Failure(Some(Coded(code, Rejection, Some(sentinel))), sentinel)
  }

  const METHOD_FAILURE := CheckFailure("cqrshtmx.handler.method_not_allowed", ERR_METHOD_NOT_ALLOWED)
  const MISSING_TYPE := CheckFailure("cqrshtmx.handler.content_type_missing", ERR_DECODE_FAILED)
  const INVALID_TYPE := CheckFailure("cqrshtmx.handler.content_type_invalid", ERR_DECODE_FAILED)
  const WRONG_TYPE := CheckFailure("cqrshtmx.handler.unsupported_media_type", ERR_UNSUPPORTED_MEDIA_TYPE)

  predicate DeclaresNoBody(r: HttpReq) {
    r.body.None? || r.contentLength == 0
  }

  function ContentTypeFailure(x: Exchange): Option<Failure> {
    var want, declared := x.config.requiredContentType, x.r.contentType;
    if want == "" || (declared == "" && DeclaresNoBody(x.r)) then None
    else if declared == "" then Some(MISSING_TYPE)
    else if x.app.mediaType(declared).None? then Some(INVALID_TYPE)
    else if !x.app.equalFold(x.app.mediaType(declared).value, want) then Some(WRONG_TYPE)
    else None
  }

  /** The decode adapter: the typed variants also refuse a value of another type. */
  function DecodingOf(x: Exchange): Decoding
    requires x.config.decoder.Some?
  {
    var d := x.config.decoder.value(x.past, x.r);
    if d.Decoded? && x.wantType.Some? && (d.value.None? || d.value.value.goType != x.wantType.value) then
      DecodeError(Coded("cqrshtmx.handler." + x.kind + "_type_mismatch", Rejection, Some(ERR_DECODE_FAILED)))
    else d
  }

  function DecodedValue(x: Exchange): Option<Value> {
    if x.config.decoder.Some? && DecodingOf(x).Decoded? then DecodingOf(x).value else None
  }

  function GuardError(x: Exchange): Option<Error> {
    if x.config.guard.None? || DecodedValue(x).None? then None
    else x.config.guard.value(x.past, x.r, DecodedValue(x).value)
  }

  function HookCtx(x: Exchange): Ctx {
    if x.app.beforeDispatch.Some? then x.app.beforeDispatch.value(x.r.ctx, x.r) else x.r.ctx
  }

  function TimeoutCtx(app: AppConfig, config: HandlerConfig, ctx: Ctx): Ctx {
    if config.timeout > 0 then ctx.(deadline := config.timeout)
    else if app.timeout > 0 then ctx.(deadline := app.timeout)
    else ctx
  }

  function CallWith(x: Exchange, v: Value): Call {
    var ctx := TimeoutCtx(x.app, x.config, HookCtx(x));
    Call(ctx, x.app.enrich(ctx, v))
  }

  function DecodeFailure(x: Exchange, err: Error): Error {
    Coded("cqrshtmx.decode." + x.kind + "_failed", Rejection, Some(err))
  }

  function DispatchFailure(x: Exchange, err: Error): Error {
    Coded("cqrshtmx.dispatch." + x.kind + "_failed", x.app.classify(err), Some(err))
  }

  function Same(err: Option<Error>): Option<Failure> {
    if err.Some? then Some(Failure(err, err.value)) else None
  }

  /** What a stage before the dispatch objects to, taken by itself. */
  function Objection(x: Exchange, stage: Stage): Option<Failure> {
    match stage
    case MethodGuard => if MethodAllowed(x.config, x.r.httpMethod) then None else Some(METHOD_FAILURE)
    case Authorization => Same(AuthorizationError(x))
    case CsrfCheck =>
      if x.config.csrf.Some? && !x.config.csrf.value(x.r) then Some(Failure(None, ERR_CSRF_INVALID)) else None
    case ContentTypeCheck => ContentTypeFailure(x)
    case DecoderCheck => if x.config.decoder.None? then Same(Some(ERR_DECODER_MISSING)) else None
    case Decode =>
      if x.config.decoder.Some? && DecodingOf(x).DecodeError? then Same(Some(DecodeFailure(x, DecodingOf(x).err)))
      else None
    case NilCheck => if DecodedValue(x).None? then Same(Some(ERR_DECODER_RETURNED_NIL)) else None
    case GuardCheck => Same(GuardError(x))
    case Dispatch => None
  }

  // ---------- the trace ----------

  datatype Answer = RedirectWritten(code: int) | StatusWritten(code: int) | Rendered | HeadersOnly

  datatype Event =
    | BeforeHook
    | Ran(stage: Stage)
    | Dispatched(call: Call)
    | SuccessResponse(answer: Answer)
    | ErrorResponse(err: Error)
    | CsrfResponse
    | OnError(reported: Error)
    | AfterHook(ctx: Ctx, outcome: Option<Error>)

  predicate Redirects(x: Exchange) {
    x.config.redirect != "" && !x.r.isHtmx
  }

  predicate NoExplicitBody(c: HandlerConfig) {
    c.render.None? && c.redirect == "" && c.trigger == "" && c.pushURL == "" && !c.triggerDetail
  }

  /** A query's renderer is asked unless a redirect was already written. */
  predicate AsksRenderer(x: Exchange) {
    x.kind == QUERY && x.config.render.Some? && !Redirects(x)
  }

  function RenderError(x: Exchange, result: Value): Option<Error> {
    if AsksRenderer(x) then x.config.render.value(result).err else None
  }

  predicate RenderWrites(x: Exchange, result: Value) {
    AsksRenderer(x) && x.config.render.value(result).wrote
  }

  /** The answer to a success that no renderer has written. */
  function SuccessAnswer(x: Exchange): Answer {
    if Redirects(x) then RedirectWritten(if x.app.redirectSafe(x.config.redirect) then 303 else 400)
    else if NoExplicitBody(x.config) then
      StatusWritten(if x.config.successStatus == 0 then 204 else x.config.successStatus)
    else HeadersOnly
  }

  function AfterEvents(x: Exchange, ctx: Ctx, err: Option<Error>): seq<Event> {
    if x.app.afterDispatch then [AfterHook(ctx, err)] else []
  }

  /** handleErr: the error response, the per-handler callback, the hook. */
  function HandledError(x: Exchange, ctx: Ctx, err: Error): seq<Event> {
    [ErrorResponse(err)] + (if x.config.onError then [OnError(err)] else []) + AfterEvents(x, ctx, Some(err))
  }

  function CheckResponse(f: Failure): Event {
    if f.response.Some? then ErrorResponse(f.response.value) else CsrfResponse
  }

  /** A stage before decoding answers by itself and then only calls the hook. */
  function Aftermath(x: Exchange, stage: Stage, f: Failure): seq<Event> {
    if Position(stage) < 4 then [CheckResponse(f)] + AfterEvents(x, HookCtx(x), Some(f.reported))
    else HandledError(x, HookCtx(x), f.reported)
  }

  /** applyCommandResponse and applyQueryResponse: what a renderer wrote stays written, whether or
      not it then failed. */
  function Answering(x: Exchange, ctx: Ctx, result: Value): seq<Event> {
    (if RenderWrites(x, result) then [SuccessResponse(Rendered)] else [])
    + if RenderError(x, result).Some? then HandledError(x, ctx, RenderError(x, result).value)
      else if RenderWrites(x, result) then []
      else [SuccessResponse(SuccessAnswer(x))]
  }

  function Completion(x: Exchange, ctx: Ctx, answer: DispatchAnswer): seq<Event> {
    match answer
    case DispatchError(err) => HandledError(x, ctx, DispatchFailure(x, err))
    case Result(result) => Answering(x, ctx, result) + AfterEvents(x, ctx, None)
  }

  function DispatchTrace(x: Exchange): seq<Event> {
    if DecodedValue(x).None? then []
    else
      var call := CallWith(x, DecodedValue(x).value);
      [Dispatched(call)] + Completion(x, call.ctx, x.app.dispatcher(x.past, call.ctx, call.value))
  }

  /** What happens from stage s on. */
  function TraceFrom(x: Exchange, s: Stage): seq<Event>
    decreases |STAGES| - Position(s), x
  {
    [Ran(s)]
    + if s == Dispatch then DispatchTrace(x)
      else if Objection(x, s).Some? then Aftermath(x, s, Objection(x, s).value)
      else TraceFrom(x, Next(s))
  }

  function Prologue(x: Exchange): seq<Event> {
    if x.app.beforeDispatch.Some? then [BeforeHook] else []
  }

  function ExpectedTrace(x: Exchange): seq<Event> {
    Prologue(x) + TraceFrom(x, MethodGuard)
  }

  /** No stage from s up to the dispatch objects. */
  predicate Clear(x: Exchange, s: Stage)
    decreases |STAGES| - Position(s), x
  {
    s == Dispatch || (Objection(x, s).None? && Clear(x, Next(s)))
  }

  /** The call a request makes from stage s on, if any. */
  function CallsFrom(x: Exchange, s: Stage): seq<Call> {
    if Clear(x, s) && DecodedValue(x).Some? then [CallWith(x, DecodedValue(x).value)] else []
  }

  /** The four checks that answer by themselves, up to the first that objects. */
  function ChecksTrace(x: Exchange, s: Stage): seq<Event>
    requires Position(s) <= 4
    decreases |STAGES| - Position(s), x
  {
    if s == DecoderCheck then []
    else [Ran(s)] + if Objection(x, s).Some? then [CheckResponse(Objection(x, s).value)] else ChecksTrace(x, Next(s))
  }

  function ChecksError(x: Exchange, s: Stage): Option<Error>
    requires Position(s) <= 4
    decreases |STAGES| - Position(s), x
  {
    if s == DecoderCheck then None
    else if Objection(x, s).Some? then Some(Objection(x, s).value.reported)
    else ChecksError(x, Next(s))
  }

  lemma Concat(a: seq<Event>, b: seq<Event>, c: seq<Event>)
    ensures (a + b) + c == a + (b + c)
  {
  }

  /** One stage that objects ends the trace ... */
  lemma Stops(x: Exchange, s: Stage)
    requires s != Dispatch && Objection(x, s).Some?
    ensures TraceFrom(x, s) == [Ran(s)] + Aftermath(x, s, Objection(x, s).value)
    ensures CallsFrom(x, s) == []
    ensures Position(s) < 4 ==> ChecksTrace(x, s) == [Ran(s), CheckResponse(Objection(x, s).value)]
    ensures Position(s) < 4 ==> ChecksError(x, s) == Some(Objection(x, s).value.reported)
  {
  }

  /** ... and one that does not hands over to the next. */
  lemma Continues(x: Exchange, s: Stage)
    requires s != Dispatch && Objection(x, s).None?
    ensures TraceFrom(x, s) == [Ran(s)] + TraceFrom(x, Next(s))
    ensures CallsFrom(x, s) == CallsFrom(x, Next(s))
    ensures Position(s) < 4 ==> ChecksTrace(x, s) == [Ran(s)] + ChecksTrace(x, Next(s))
    ensures Position(s) < 4 ==> ChecksError(x, s) == ChecksError(x, Next(s))
  {
  }

  /** After the checks: the hook if one of them objected, the later stages if none did. */
  function AfterChecks(x: Exchange, err: Option<Error>): seq<Event> {
    if err.Some? then AfterEvents(x, HookCtx(x), err) else TraceFrom(x, DecoderCheck)
  }

  lemma {:induction false} ChecksSplit(x: Exchange, s: Stage)
    requires Position(s) <= 4
    ensures TraceFrom(x, s) == ChecksTrace(x, s) + AfterChecks(x, ChecksError(x, s))
    ensures CallsFrom(x, s) == if ChecksError(x, s).Some? then [] else CallsFrom(x, DecoderCheck)
    decreases |STAGES| - Position(s)
  {
    if s == DecoderCheck {
    } else if Objection(x, s).Some? {
      var f := Objection(x, s).value;
      Stops(x, s);
      Concat([Ran(s)], [CheckResponse(f)], AfterEvents(x, HookCtx(x), Some(f.reported)));
    } else {
      ChecksSplit(x, Next(s));
      Continues(x, s);
      Concat([Ran(s)], ChecksTrace(x, Next(s)), AfterChecks(x, ChecksError(x, Next(s))));
    }
  }

  /** dispatchContext: the hook, the checks, and the closing hook if a check refused. */
  function Opening(x: Exchange): seq<Event> {
    Prologue(x) + Screening(x)
  }

  function Screening(x: Exchange): seq<Event> {
    ChecksTrace(x, MethodGuard) + Closing(x, ChecksError(x, MethodGuard))
  }

  function Closing(x: Exchange, err: Option<Error>): seq<Event> {
    if err.Some? then AfterEvents(x, HookCtx(x), err) else []
  }

  lemma ClosingSplit(x: Exchange, checks: seq<Event>, err: Option<Error>)
    ensures err.Some? ==> checks + AfterChecks(x, err) == checks + Closing(x, err)
    ensures err.None? ==>
              checks + AfterChecks(x, err) == checks + Closing(x, err) + TraceFrom(x, DecoderCheck)
  {
  }

  lemma ScreeningSplit(x: Exchange)
    ensures ChecksError(x, MethodGuard).Some? ==> TraceFrom(x, MethodGuard) == Screening(x)
    ensures ChecksError(x, MethodGuard).None? ==>
              TraceFrom(x, MethodGuard) == Screening(x) + TraceFrom(x, DecoderCheck)
    ensures CallsFrom(x, MethodGuard) == if ChecksError(x, MethodGuard).Some? then [] else CallsFrom(x, DecoderCheck)
  {
    ChecksSplit(x, MethodGuard);
    ClosingSplit(x, ChecksTrace(x, MethodGuard), ChecksError(x, MethodGuard));
  }

  lemma OpeningSplit(x: Exchange)
    ensures ChecksError(x, MethodGuard).Some? ==> ExpectedTrace(x) == Opening(x)
    ensures ChecksError(x, MethodGuard).None? ==> ExpectedTrace(x) == Opening(x) + TraceFrom(x, DecoderCheck)
  {
    ScreeningSplit(x);
    Concat(Prologue(x), Screening(x), TraceFrom(x, DecoderCheck));
  }

  /** The same two steps, seen from a trace that has reached stage s. */
  lemma StopsAfter(pre: seq<Event>, x: Exchange, s: Stage)
    requires s != Dispatch && Objection(x, s).Some?
    ensures pre + TraceFrom(x, s) == (pre + [Ran(s)]) + Aftermath(x, s, Objection(x, s).value)
    ensures CallsFrom(x, s) == []
    ensures Position(s) < 4 ==> pre + ChecksTrace(x, s) == (pre + [Ran(s)]) + [CheckResponse(Objection(x, s).value)]
    ensures Position(s) < 4 ==> ChecksError(x, s) == Some(Objection(x, s).value.reported)
  {
    Stops(x, s);
    Concat(pre, [Ran(s)], Aftermath(x, s, Objection(x, s).value));
  }

  lemma ContinuesAfter(pre: seq<Event>, x: Exchange, s: Stage)
    requires s != Dispatch && Objection(x, s).None?
    ensures pre + TraceFrom(x, s) == (pre + [Ran(s)]) + TraceFrom(x, Next(s))
    ensures CallsFrom(x, s) == CallsFrom(x, Next(s))
    ensures Position(s) < 4 ==> pre + ChecksTrace(x, s) == (pre + [Ran(s)]) + ChecksTrace(x, Next(s))
    ensures Position(s) < 4 ==> ChecksError(x, s) == ChecksError(x, Next(s))
  {
    Continues(x, s);
    Concat(pre, [Ran(s)], TraceFrom(x, Next(s)));
    if Position(s) < 4 {
      Concat(pre, [Ran(s)], ChecksTrace(x, Next(s)));
    }
  }

  // ---------- the handler ----------

  lemma DispatchSplit(pre: seq<Event>, x: Exchange, v: Value)
    requires DecodedValue(x) == Some(v)
    ensures var call := CallWith(x, v);
            var done := Completion(x, call.ctx, x.app.dispatcher(x.past, call.ctx, call.value));
            pre + TraceFrom(x, Dispatch) == (pre + [Ran(Dispatch)] + [Dispatched(call)]) + done
  {
    var call := CallWith(x, v);
    var done := Completion(x, call.ctx, x.app.dispatcher(x.past, call.ctx, call.value));
    assert TraceFrom(x, Dispatch) == [Ran(Dispatch)] + ([Dispatched(call)] + done);
    Concat(pre, [Ran(Dispatch)], [Dispatched(call)] + done);
    Concat(pre + [Ran(Dispatch)], [Dispatched(call)], done);
  }

  /** enrichUserID: an extractor may only fill in a missing user, and then a missing actor. */
  function EnrichUserID(app: AppConfig, r: HttpReq): HttpReq {
    if r.ctx.user != "" || app.userIDExtractor.None? then r
    else
      match app.userIDExtractor.value(r)
      case None => r
      case Some(user) =>
        if user == "" then r
        else r.(ctx := r.ctx.(user := user, actor := if r.ctx.actor == "" then "user:" + user else r.ctx.actor))
  }

  /** The exchange as it runs: its user filled in, after what has been dispatched by then. */
  function Served(x: Exchange, log: seq<Call>): Exchange {
    x.(r := EnrichUserID(x.app, x.r), past := log)
  }

  class App {
    const app: AppConfig
    var trace: seq<Event>
    var log: seq<Call>

    constructor (app: AppConfig)
      ensures this.app == app && trace == [] && log == []
    {
      this.app := app;
      trace, log := [], [];
    }

    method Emit(e: Event)
      modifies this`trace
      ensures trace == old(trace) + [e]
    {
      trace := trace + [e];
    }

    method AfterDispatchHook(x: Exchange, ctx: Ctx, err: Option<Error>)
      requires x.app == app
      modifies this`trace
      ensures trace == old(trace) + AfterEvents(x, ctx, err)
    {
      if app.afterDispatch {
        Emit(AfterHook(ctx, err));
      }
    }

    method HandleErr(x: Exchange, ctx: Ctx, err: Error)
      requires x.app == app
      modifies this`trace
      ensures trace == old(trace) + HandledError(x, ctx, err)
    {
      Emit(ErrorResponse(err));
      if x.config.onError {
        Emit(OnError(err));
      }
      AfterDispatchHook(x, ctx, Some(err));
    }

    method CheckRequiredContentType(x: Exchange) returns (err: Option<Error>)
      requires x.app == app
      modifies this`trace
      ensures ContentTypeFailure(x).None? ==> err == None && trace == old(trace)
      ensures ContentTypeFailure(x).Some? ==>
                err == Some(ContentTypeFailure(x).value.reported)
                && trace == old(trace) + [CheckResponse(ContentTypeFailure(x).value)]
    {
      var want := x.config.requiredContentType;
      if want == "" {
        return None;
      }
      if x.r.contentType == "" {
        if x.r.body.None? || x.r.contentLength == 0 {
          return None;
        }
        Emit(ErrorResponse(Coded("cqrshtmx.handler.content_type_missing", Rejection, Some(ERR_DECODE_FAILED))));
        return Some(ERR_DECODE_FAILED);
      }
      var got := app.mediaType(x.r.contentType);
      if got.None? {
        Emit(ErrorResponse(Coded("cqrshtmx.handler.content_type_invalid", Rejection, Some(ERR_DECODE_FAILED))));
        return Some(ERR_DECODE_FAILED);
      }
      if !app.equalFold(got.value, want) {
        var wrapped := Coded("cqrshtmx.handler.unsupported_media_type", Rejection, Some(ERR_UNSUPPORTED_MEDIA_TYPE));
        Emit(ErrorResponse(wrapped));
        return Some(ERR_UNSUPPORTED_MEDIA_TYPE);
      }
      return None;
    }

    /** Stops at the first of the four checks that objects, having written its response. */
    method ExecutePreDispatchChecks(x: Exchange) returns (err: Option<Error>)
      requires x.app == app
      modifies this`trace
      ensures trace == old(trace) + ChecksTrace(x, MethodGuard)
      ensures err == ChecksError(x, MethodGuard)
    {
      ghost var seen := trace;
      Emit(Ran(MethodGuard));
      if !MethodAllowed(x.config, x.r.httpMethod) {
        StopsAfter(seen, x, MethodGuard);
        Emit(ErrorResponse(Coded("cqrshtmx.handler.method_not_allowed", Rejection, Some(ERR_METHOD_NOT_ALLOWED))));
        return Some(ERR_METHOD_NOT_ALLOWED);
      }
      ContinuesAfter(seen, x, MethodGuard);
      seen := trace;
      Emit(Ran(Authorization));
      var authz := AuthorizationError(x);
      if authz.Some? {
        StopsAfter(seen, x, Authorization);
        Emit(ErrorResponse(authz.value));
        return authz;
      }
      ContinuesAfter(seen, x, Authorization);
      seen := trace;
      Emit(Ran(CsrfCheck));
      if x.config.csrf.Some? {
        if !x.config.csrf.value(x.r) {
          StopsAfter(seen, x, CsrfCheck);
          Emit(CsrfResponse);
          return Some(ERR_CSRF_INVALID);
        }
      }
      ContinuesAfter(seen, x, CsrfCheck);
      seen := trace;
      Emit(Ran(ContentTypeCheck));
      if ContentTypeFailure(x).Some? {
        StopsAfter(seen, x, ContentTypeCheck);
      } else {
        ContinuesAfter(seen, x, ContentTypeCheck);
      }
      err := CheckRequiredContentType(x);
    }

    /** applyHTMXResponse: true when a redirect was written. */
    method ApplyHTMXResponse(x: Exchange) returns (written: bool)
      requires x.app == app
      modifies this`trace
      ensures written <==> Redirects(x)
      ensures trace == old(trace) + if written then [SuccessResponse(SuccessAnswer(x))] else []
    {
      var c := x.config;
      if c.redirect == "" && c.trigger == "" && c.pushURL == "" && !c.triggerDetail {
        return false;
      }
      if c.redirect != "" && !x.r.isHtmx {
        Emit(SuccessResponse(RedirectWritten(if app.redirectSafe(c.redirect) then 303 else 400)));
        return true;
      }
      return false;
    }

    method WriteDefaultStatus(x: Exchange)
      requires !Redirects(x)
      modifies this`trace
      ensures trace == old(trace) + [SuccessResponse(SuccessAnswer(x))]
    {
      if !NoExplicitBody(x.config) {
        Emit(SuccessResponse(HeadersOnly));
        return;
      }
      var status := x.config.successStatus;
      if status == 0 {
        status := 204;
      }
      Emit(SuccessResponse(StatusWritten(status)));
    }

    method ApplyCommandResponse(x: Exchange, ctx: Ctx, result: Value)
      requires x.app == app && x.kind != QUERY
      modifies this`trace
      ensures trace == old(trace) + Answering(x, ctx, result)
    {
      var written := ApplyHTMXResponse(x);
      if written {
        return;
      }
      WriteDefaultStatus(x);
    }

    /** A failing renderer is handled here, and the caller still reports success afterwards. */
    method ApplyQueryResponse(x: Exchange, ctx: Ctx, result: Value)
      requires x.app == app && x.kind == QUERY
      modifies this`trace
      ensures trace == old(trace) + Answering(x, ctx, result)
    {
      var written := ApplyHTMXResponse(x);
      if written {
        return;
      }
      if x.config.render.Some? {
        var rendering := x.config.render.value(result);
        if rendering.wrote {
          Emit(SuccessResponse(Rendered));
        }
        if rendering.err.Some? {
          HandleErr(x, ctx, rendering.err.value);
          return;
        }
        if rendering.wrote {
          return;
        }
      }
      WriteDefaultStatus(x);
    }

    method Complete(x: Exchange, ctx: Ctx, answer: DispatchAnswer)
      requires x.app == app
      modifies this`trace
      ensures trace == old(trace) + Completion(x, ctx, answer)
    {
      if answer.DispatchError? {
        HandleErr(x, ctx, DispatchFailure(x, answer.err));
        return;
      }
      if x.kind == QUERY {
        ApplyQueryResponse(x, ctx, answer.value);
      } else {
        ApplyCommandResponse(x, ctx, answer.value);
      }
      AfterDispatchHook(x, ctx, None);
    }

    /** The dispatch and what follows it. */
    method DispatchGuarded(x: Exchange, ctx: Ctx, v: Value)
      requires x.app == app && x.past == log && ctx == HookCtx(x) && DecodedValue(x) == Some(v)
      modifies this
      ensures trace == old(trace) + TraceFrom(x, Dispatch)
      ensures log == old(log) + [CallWith(x, v)]
    {
      DispatchSplit(trace, x, v);
      Emit(Ran(Dispatch));
      var timed := TimeoutCtx(app, x.config, ctx);
      var call := Call(timed, app.enrich(timed, v));
      var answer := app.dispatcher(log, call.ctx, call.value);
      log := log + [call];
      Emit(Dispatched(call));
      Complete(x, timed, answer);
    }

    method GuardAndDispatch(x: Exchange, ctx: Ctx, v: Value)
      requires x.app == app && x.past == log && ctx == HookCtx(x) && DecodedValue(x) == Some(v)
      modifies this
      ensures trace == old(trace) + TraceFrom(x, GuardCheck)
      ensures log == old(log) + CallsFrom(x, GuardCheck)
    {
      ghost var seen := trace;
      Emit(Ran(GuardCheck));
      if x.config.guard.Some? {
        var guardErr := x.config.guard.value(x.past, x.r, v);
        if guardErr.Some? {
          StopsAfter(seen, x, GuardCheck);
          HandleErr(x, ctx, guardErr.value);
          return;
        }
      }
      ContinuesAfter(seen, x, GuardCheck);
      DispatchGuarded(x, ctx, v);
    }

    /** The rest of the pipeline, once the four checks have passed. */
    method DispatchChecked(x: Exchange, ctx: Ctx)
      requires x.app == app && x.past == log && ctx == HookCtx(x)
      modifies this
      ensures trace == old(trace) + TraceFrom(x, DecoderCheck)
      ensures log == old(log) + CallsFrom(x, DecoderCheck)
    {
      ghost var seen := trace;
      Emit(Ran(DecoderCheck));
      if x.config.decoder.None? {
        StopsAfter(seen, x, DecoderCheck);
        HandleErr(x, ctx, ERR_DECODER_MISSING);
        return;
      }
      ContinuesAfter(seen, x, DecoderCheck);
      seen := trace;
      Emit(Ran(Decode));
      var decoding := DecodingOf(x);
      if decoding.DecodeError? {
        StopsAfter(seen, x, Decode);
        HandleErr(x, ctx, DecodeFailure(x, decoding.err));
        return;
      }
      ContinuesAfter(seen, x, Decode);
      seen := trace;
      Emit(Ran(NilCheck));
      if decoding.value.None? {
        StopsAfter(seen, x, NilCheck);
        HandleErr(x, ctx, ERR_DECODER_RETURNED_NIL);
        return;
      }
      ContinuesAfter(seen, x, NilCheck);
      GuardAndDispatch(x, ctx, decoding.value.value);
    }

    method Screen(x: Exchange, ctx: Ctx) returns (err: Option<Error>)
      requires x.app == app && ctx == HookCtx(x)
      modifies this`trace
      ensures trace == old(trace) + Screening(x)
      ensures err == ChecksError(x, MethodGuard)
    {
      err := ExecutePreDispatchChecks(x);
      if err.Some? {
        AfterDispatchHook(x, ctx, err);
      }
    }

    /** The checks see the request's own context, the hooks the one BeforeDispatch returned. */
    method DispatchContext(x: Exchange) returns (ctx: Ctx, err: Option<Error>)
      requires x.app == app
      modifies this`trace
      ensures trace == old(trace) + Opening(x)
      ensures ctx == HookCtx(x) && err == ChecksError(x, MethodGuard)
    {
      ctx := x.r.ctx;
      if app.beforeDispatch.Some? {
        ctx := app.beforeDispatch.value(ctx, x.r);
        Emit(BeforeHook);
      }
      err := Screen(x, ctx);
    }

    /** dispatchRequest: exactly the expected trace, and exactly the expected call. */
    method DispatchRequest(x: Exchange)
      requires x.app == app && x.past == log
      modifies this
      ensures trace == old(trace) + ExpectedTrace(x)
      ensures log == old(log) + CallsFrom(x, MethodGuard)
    {
      ScreeningSplit(x);
      OpeningSplit(x);
      Concat(trace, Opening(x), TraceFrom(x, DecoderCheck));
      var ctx, err := DispatchContext(x);
      if err.Some? {
        return;
      }
      DispatchChecked(x, ctx);
    }

    /** App.Command / App.Query: without a dispatcher nothing runs and no hook is called;
        otherwise the pipeline runs on the request with its user filled in. */
    method ServeHTTP(x: Exchange)
      requires x.app == app
      modifies this
      ensures !app.hasDispatcher ==>
                trace == old(trace) + [ErrorResponse(
                    Coded(if x.kind == "query" then "queries_nil" else "commands_nil", Infrastructure, None))]
      ensures !app.hasDispatcher ==> log == old(log)
      ensures app.hasDispatcher ==>
                trace == old(trace) + ExpectedTrace(Served(x, old(log)))
      ensures app.hasDispatcher ==> log == old(log) + CallsFrom(Served(x, old(log)), MethodGuard)
    {
      if !app.hasDispatcher {
        Emit(ErrorResponse(if x.kind == QUERY then ERR_QUERIES_NIL else ERR_COMMANDS_NIL));
        return;
      }
      DispatchRequest(Served(x, log));
    }
  }
}

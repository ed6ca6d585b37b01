/** What an endpoint asks of a request and what it answers, in terms of its configuration: an account
    of the pipeline that does not go through its stage functions. */
module Endpoints {
  import opened Prelude
  import opened Errors
  import opened Pipeline
  import opened PipelineLaws

  // ---------- what a request must meet ----------

  /** The decoder's answer to this very request is v, and a typed endpoint takes values of v's type. */
  ghost predicate Decodes(x: Exchange, v: Value) {
    && x.config.decoder.Some? && x.config.decoder.value(x.past, x.r) == Decoded(Some(v))
    && (x.wantType.Some? ==> v.goType == x.wantType.value)
  }

  /** The media type declared is the one required; a request without a body need not declare any. */
  ghost predicate MediaTypeFits(x: Exchange) {
    var want, declared := x.config.requiredContentType, x.r.contentType;
    || want == ""
    || (declared == "" && (x.r.body.None? || x.r.contentLength == 0))
    || (declared != "" && x.app.mediaType(declared).Some? && x.app.equalFold(x.app.mediaType(declared).value, want))
  }

  ghost predicate Meets(x: Exchange, s: Stage) {
    var c, r := x.config, x.r;
    match s
    case MethodGuard =>
      && (c.requireMethod != "" ==> r.httpMethod == c.requireMethod)
      && (c.requireMethod == "" && c.requireMethods != [] ==> r.httpMethod in c.requireMethods)
    case Authorization =>
      var caller := Authz.HttpRequest(r.ctx.user, x.app.seen(x.past, r.ctx.tag));
      Authz.ExecuteAuthorization(x.app.enforcer(x.past), x.app.classify, caller, c.auth) == None
    case CsrfCheck => c.csrf.Some? ==> c.csrf.value(r)
    case ContentTypeCheck => MediaTypeFits(x)
    case DecoderCheck => c.decoder.Some?
    case Decode =>
      c.decoder.Some? ==> c.decoder.value(x.past, r).Decoded? && (x.wantType.Some? ==> exists v :: Decodes(x, v))
    case NilCheck => exists v :: Decodes(x, v)
    case GuardCheck => forall v | Decodes(x, v) && c.guard.Some? :: c.guard.value(x.past, r, v) == None
    case Dispatch => true
  }

  lemma DecodesIsTheValue(x: Exchange, v: Value)
    ensures Decodes(x, v) <==> DecodedValue(x) == Some(v)
  {
  }

  /** A stage objects exactly if the request does not meet what it asks. */
  lemma StageAsks(x: Exchange, s: Stage)
    ensures Objection(x, s).None? <==> Meets(x, s)
  {
    forall v ensures Decodes(x, v) <==> DecodedValue(x) == Some(v) {
      DecodesIsTheValue(x, v);
    }
    if DecodedValue(x).Some? {
      assert Decodes(x, DecodedValue(x).value);
    }
  }

  ghost predicate MeetsAll(x: Exchange) {
    forall s: Stage :: Meets(x, s)
  }

  lemma {:induction false} ClearMeetsTheRest(x: Exchange, s: Stage)
    ensures Clear(x, s) <==> forall t: Stage | Position(t) >= Position(s) :: Meets(x, t)
    decreases |STAGES| - Position(s)
  {
    StageAsks(x, s);
    if s != Dispatch {
      ClearMeetsTheRest(x, Next(s));
      forall t: Stage | Position(t) >= Position(s) ensures t == s || Position(t) >= Position(Next(s)) {
      }
    } else {
      forall t: Stage | Position(t) >= Position(s) ensures Meets(x, t) {
      }
    }
  }

  lemma ClearMeetsAll(x: Exchange)
    ensures Clear(x, MethodGuard) <==> MeetsAll(x)
  {
    ClearMeetsTheRest(x, MethodGuard);
  }

  /** The context hooks and dispatcher are given: the request's, or what BeforeDispatch made of it. */
  ghost predicate HooksSee(x: Exchange, ctx: Ctx) {
    ctx == if x.app.beforeDispatch.None? then x.r.ctx else x.app.beforeDispatch.value(x.r.ctx, x.r)
  }

  /** The same context under the endpoint's deadline, else the App's, else its own. */
  ghost predicate Timed(app: AppConfig, config: HandlerConfig, ctx: Ctx, timed: Ctx) {
    && timed.user == ctx.user && timed.actor == ctx.actor && timed.tag == ctx.tag
    && (config.timeout > 0 ==> timed.deadline == config.timeout)
    && (config.timeout <= 0 && app.timeout > 0 ==> timed.deadline == app.timeout)
    && (config.timeout <= 0 && app.timeout <= 0 ==> timed.deadline == ctx.deadline)
  }

  /** The dispatcher is called exactly for a request that meets everything the endpoint asks, once,
      with the value decoded from that request, in the hooks' context under its deadline. */
  lemma DispatchedIffAllIsMet(x: Exchange, ctx: Ctx, timed: Ctx)
    requires HooksSee(x, ctx) && Timed(x.app, x.config, ctx, timed)
    ensures Kept(ExpectedTrace(x), IS_CALL) != [] <==> MeetsAll(x)
    ensures CallsFrom(x, MethodGuard) != [] <==> MeetsAll(x)
    ensures forall v | MeetsAll(x) && Decodes(x, v) ::
              CallsFrom(x, MethodGuard) == [Call(timed, x.app.enrich(timed, v))]
              && Kept(ExpectedTrace(x), IS_CALL) == [Dispatched(Call(timed, x.app.enrich(timed, v)))]
  {
    ClearMeetsAll(x);
    DispatchedIffNothingObjects(x);
    forall v | MeetsAll(x) && Decodes(x, v)
      ensures CallsFrom(x, MethodGuard) == [Call(timed, x.app.enrich(timed, v))]
      ensures Kept(ExpectedTrace(x), IS_CALL) == [Dispatched(Call(timed, x.app.enrich(timed, v)))]
    {
      DecodesIsTheValue(x, v);
      assert timed == TimeoutCtx(x.app, x.config, HookCtx(x));
    }
  }

  // ---------- what a refused request is answered ----------

  const RUNS: seq<Event> :=
    [Ran(MethodGuard), Ran(Authorization), Ran(CsrfCheck), Ran(ContentTypeCheck), Ran(DecoderCheck),
     Ran(Decode), Ran(NilCheck), Ran(GuardCheck), Ran(Dispatch)]

  function Hook(x: Exchange, ctx: Ctx, outcome: Option<Error>): seq<Event> {
    if x.app.afterDispatch then [AfterHook(ctx, outcome)] else []
  }

  /** The error response, the endpoint's callback if it has one, and the hook. */
  function Reported(x: Exchange, ctx: Ctx, err: Error): seq<Event> {
    if x.config.onError then [ErrorResponse(err), OnError(err)] + Hook(x, ctx, Some(err))
    else [ErrorResponse(err)] + Hook(x, ctx, Some(err))
  }

  /** A check's own response; the hook is told the plain error. */
  function Checked(x: Exchange, ctx: Ctx, code: string, plain: Error): seq<Event> {
    [ErrorResponse(Coded(code, Rejection, Some(plain)))] + Hook(x, ctx, Some(plain))
  }

  /** These are the events that answer a request refused by this stage. */
  ghost predicate Refuses(x: Exchange, s: Stage, ctx: Ctx, events: seq<Event>) {
    var c, r, decodeFailed := x.config, x.r, Coded("decode_failed", Rejection, None);
    match s
    case MethodGuard =>
      events == Checked(x, ctx, "cqrshtmx.handler.method_not_allowed", Coded("method_not_allowed", Rejection, None))
    case Authorization =>
      var caller := Authz.HttpRequest(r.ctx.user, x.app.seen(x.past, r.ctx.tag));
      var err := Authz.ExecuteAuthorization(x.app.enforcer(x.past), x.app.classify, caller, c.auth);
      err.Some? && events == [ErrorResponse(err.value)] + Hook(x, ctx, err)
    case CsrfCheck => events == [CsrfResponse] + Hook(x, ctx, Some(Plain(None)))
    case ContentTypeCheck =>
      && (r.contentType == "" ==>
            events == Checked(x, ctx, "cqrshtmx.handler.content_type_missing", decodeFailed))
      && (r.contentType != "" && x.app.mediaType(r.contentType).None? ==>
            events == Checked(x, ctx, "cqrshtmx.handler.content_type_invalid", decodeFailed))
      && (r.contentType != "" && x.app.mediaType(r.contentType).Some? ==>
            events == Checked(x, ctx, "cqrshtmx.handler.unsupported_media_type",
                              Coded("unsupported_media_type", Rejection, None)))
    case DecoderCheck => events == Reported(x, ctx, Coded("decoder_missing", Infrastructure, None))
    case Decode =>
      c.decoder.Some? &&
      var d, code := c.decoder.value(x.past, r), "cqrshtmx.decode." + x.kind + "_failed";
      && (d.DecodeError? ==> events == Reported(x, ctx, Coded(code, Rejection, Some(d.err))))
      && (d.Decoded? ==>
            events == Reported(x, ctx, Coded(code, Rejection, Some(
                Coded("cqrshtmx.handler." + x.kind + "_type_mismatch", Rejection, Some(decodeFailed))))))
    case NilCheck => events == Reported(x, ctx, Coded("decoder_returned_nil", Corruption, None))
    case GuardCheck =>
      exists v :: Decodes(x, v) && c.guard.Some? && c.guard.value(x.past, r, v).Some?
                  && events == Reported(x, ctx, c.guard.value(x.past, r, v).value)
    case Dispatch => false
  }

  lemma AftermathIsRefusal(x: Exchange, s: Stage, ctx: Ctx)
    requires HooksSee(x, ctx) && s != Dispatch && Objection(x, s).Some?
    requires Position(s) > Position(DecoderCheck) ==> x.config.decoder.Some?
    ensures Refuses(x, s, ctx, Aftermath(x, s, Objection(x, s).value))
  {
    if s == GuardCheck {
      DecodesIsTheValue(x, DecodedValue(x).value);
    }
  }

  lemma RunAt(k: nat)
    requires k < |RUNS|
    ensures RUNS[k] == Ran(STAGES[k])
  {
  }

  lemma {:induction false} RanIsRuns(from: nat, to: nat)
    requires from <= to <= |STAGES|
    ensures RanBetween(from, to) == RUNS[from..to]
    decreases |STAGES| - from
  {
    if from < to {
      RanIsRuns(from + 1, to);
      RunAt(from);
      assert RUNS[from..to] == [RUNS[from]] + RUNS[from + 1..to];
    }
  }

  /** The trace ends with the first stage that objects, or with the dispatch. */
  lemma CutWhere(x: Exchange, k: nat)
    requires k < |STAGES| && NoObjection(x, 0, k) && (k + 1 < |STAGES| ==> Objection(x, STAGES[k]).Some?)
    ensures ExpectedTrace(x) == Prologue(x) + RUNS[..k + 1] + Ending(x, STAGES[k])
  {
    var n := TraceIsACutPipeline(x);
    assert n - 1 >= k;
    assert n - 1 <= k;
    RanIsRuns(0, n);
  }

  lemma MetIsNoObjection(x: Exchange, k: nat)
    requires k <= |RUNS| && forall j | 0 <= j < k :: Meets(x, RUNS[j].stage)
    ensures NoObjection(x, 0, k)
  {
    forall j | 0 <= j < k ensures Objection(x, STAGES[j]).None? {
      RunAt(j);
      assert Meets(x, RUNS[j].stage);
      StageAsks(x, STAGES[j]);
    }
  }

  function Opened(x: Exchange): seq<Event> {
    if x.app.beforeDispatch.Some? then [BeforeHook] else []
  }

  /** The first thing a request does not meet is what it is refused for: the stages up to that one
      have run, and none after it. */
  lemma RefusedForTheFirstUnmet(x: Exchange, k: nat, ctx: Ctx) returns (answer: seq<Event>)
    requires HooksSee(x, ctx) && k < |RUNS| && !Meets(x, RUNS[k].stage)
    requires forall j | 0 <= j < k :: Meets(x, RUNS[j].stage)
    ensures Refuses(x, RUNS[k].stage, ctx, answer)
    ensures ExpectedTrace(x) == Opened(x) + RUNS[..k + 1] + answer
  {
    RunAt(k);
    StageAsks(x, STAGES[k]);
    MetIsNoObjection(x, k);
    CutWhere(x, k);
    answer := Ending(x, STAGES[k]);
    if k > 4 {
      assert Meets(x, RUNS[4].stage);
    }
    AftermathIsRefusal(x, STAGES[k], ctx);
  }

  // ---------- what a served request is answered ----------

  /** The answer a success gets when no renderer wrote one: the redirect unless HTMX asks, which
      follows it by header; otherwise the configured status, 204 by default, or nothing but headers
      if any output is configured. */
  ghost predicate PlainlyAnswered(x: Exchange, answer: Event) {
    var c := x.config;
    var redirecting := c.redirect != "" && !x.r.isHtmx;
    var silent := c.render.None? && c.redirect == "" && c.trigger == "" && c.pushURL == "" && !c.triggerDetail;
    && (redirecting && x.app.redirectSafe(c.redirect) ==> answer == SuccessResponse(RedirectWritten(303)))
    && (redirecting && !x.app.redirectSafe(c.redirect) ==> answer == SuccessResponse(RedirectWritten(400)))
    && (silent && c.successStatus == 0 ==> answer == SuccessResponse(StatusWritten(204)))
    && (silent && c.successStatus != 0 ==> answer == SuccessResponse(StatusWritten(c.successStatus)))
    && (!redirecting && !silent ==> answer == SuccessResponse(HeadersOnly))
  }

  /** What follows the dispatcher's answer. */
  ghost predicate Follows(x: Exchange, timed: Ctx, answer: DispatchAnswer, events: seq<Event>) {
    var rendered := x.kind == "query" && x.config.render.Some? && !(x.config.redirect != "" && !x.r.isHtmx);
    match answer
    case DispatchError(err) =>
      events == Reported(x, timed, Coded("cqrshtmx.dispatch." + x.kind + "_failed", x.app.classify(err), Some(err)))
    case Result(result) =>
      if rendered then
        var rendering := x.config.render.value(result);
        && (rendering == Rendering(true, None) ==> events == [SuccessResponse(Rendered)] + Hook(x, timed, None))
        && (rendering == Rendering(false, None) ==>
              exists plain :: PlainlyAnswered(x, plain) && events == [plain] + Hook(x, timed, None))
        && (rendering.wrote && rendering.err.Some? ==>
              events == [SuccessResponse(Rendered)] + Reported(x, timed, rendering.err.value) + Hook(x, timed, None))
        && (!rendering.wrote && rendering.err.Some? ==>
              events == Reported(x, timed, rendering.err.value) + Hook(x, timed, None))
      else
        exists plain :: PlainlyAnswered(x, plain) && events == [plain] + Hook(x, timed, None)
  }

  lemma SuccessIsPlain(x: Exchange)
    ensures PlainlyAnswered(x, SuccessResponse(SuccessAnswer(x)))
  {
  }

  lemma CompletionFollows(x: Exchange, timed: Ctx, answer: DispatchAnswer)
    ensures Follows(x, timed, answer, Completion(x, timed, answer))
  {
    SuccessIsPlain(x);
    var plain := SuccessResponse(SuccessAnswer(x));
    if answer.Result? && RenderError(x, answer.value).None? && !RenderWrites(x, answer.value) {
      assert Completion(x, timed, answer) == [plain] + Hook(x, timed, None);
    }
  }

  lemma DispatchIsAnswered(x: Exchange, ctx: Ctx, timed: Ctx, v: Value) returns (events: seq<Event>)
    requires HooksSee(x, ctx) && Timed(x.app, x.config, ctx, timed) && Decodes(x, v)
    ensures var call := Call(timed, x.app.enrich(timed, v));
            && Follows(x, timed, x.app.dispatcher(x.past, call.ctx, call.value), events)
            && Ending(x, Dispatch) == [Dispatched(call)] + events
  {
    DecodesIsTheValue(x, v);
    assert timed == TimeoutCtx(x.app, x.config, HookCtx(x));
    var call := CallWith(x, v);
    events := Completion(x, timed, x.app.dispatcher(x.past, call.ctx, call.value));
    CompletionFollows(x, timed, x.app.dispatcher(x.past, call.ctx, call.value));
  }

  /** A request that meets everything runs through all stages, is dispatched, and is answered by what
      the dispatcher said. */
  lemma ServedRequestIsAnswered(x: Exchange, ctx: Ctx, timed: Ctx, v: Value) returns (events: seq<Event>)
    requires HooksSee(x, ctx) && Timed(x.app, x.config, ctx, timed)
    requires MeetsAll(x) && Decodes(x, v)
    ensures var call := Call(timed, x.app.enrich(timed, v));
            && Follows(x, timed, x.app.dispatcher(x.past, call.ctx, call.value), events)
            && ExpectedTrace(x) == Opened(x) + RUNS + ([Dispatched(call)] + events)
  {
    MetIsNoObjection(x, |RUNS| - 1);
    CutWhere(x, |RUNS| - 1);
    assert RUNS[..|RUNS|] == RUNS;
    events := DispatchIsAnswered(x, ctx, timed, v);
  }

  /** A request is served as it came, after what has been dispatched by then, except that an extracted
      user fills in a missing one, and a missing actor with it. */
  lemma ExtractorFillsIn(x: Exchange, log: seq<Call>)
    ensures var served, r := Served(x, log), x.r;
            var found := if x.app.userIDExtractor.Some? then x.app.userIDExtractor.value(r) else None;
            && served == x.(r := served.r, past := log)
            && (r.ctx.user != "" || found.None? || found.value == "" ==> served.r == r)
            && (r.ctx.user == "" && found.Some? && found.value != "" ==>
                  && served.r.ctx.user == found.value
                  && (r.ctx.actor != "" ==> served.r.ctx.actor == r.ctx.actor)
                  && (r.ctx.actor == "" ==> served.r.ctx.actor == "user:" + found.value)
                  && served.r.(ctx := served.r.ctx.(user := "", actor := r.ctx.actor)) == r)
  {
  }
}

/** The write half of the sync protocol: a batch of queued commands, each replayed through its
    endpoint's stages, and each answered with its own outcome. */
module SyncPush {
  import opened Prelude
  import opened Errors
  import opened Pipeline

  const MAX_SYNC_PUSH_BATCH := 100
  const CONTENT_TYPE_JSON := "application/json"

  const CONFIRMED := "confirmed"
  const REJECTED := "rejected"

  datatype Envelope = Envelope(commandId: string, typ: string, body: string, contentType: string)

  /** The error detail, without its human-readable message. */
  datatype PushError = PushError(code: string, family: string)

  datatype PushResult = PushResult(commandId: string, status: string, error: Option<PushError>)

  datatype Reply = Refused(httpStatus: int, code: string) | Results(results: seq<PushResult>)

  function FamilyText(f: Family): string {
    match f
    case Rejection => "rejection"
    case Conflict => "conflict"
    case Transient => "transient"
    case Corruption => "corruption"
    case Infrastructure => "infrastructure"
    case Unknown => "unknown"
  }

  /** The families a client knows how to treat: permanent, or worth a retry. */
  const RETRY_CONTRACT: set<string> := {"rejection", "conflict", "transient", "corruption", "infrastructure"}

  /** The union the decoder enforces: an error is present exactly on a rejected outcome. */
  predicate WellFormedResult(r: PushResult) {
    (r.status == CONFIRMED && r.error.None?) || (r.status == REJECTED && r.error.Some?)
  }

  /** SyncPushResult.UnmarshalJSONFrom, after the JSON itself has been read. */
  method CheckUnion(r: PushResult) returns (err: Option<Error>)
    ensures err.None? <==> WellFormedResult(r)
    ensures err.None? <==> (r.status == "confirmed" && r.error == None) || (r.status == "rejected" && r.error != None)
    ensures err.Some? ==> err.value == Coded("cqrshtmx.sync.push.status_union", Corruption, None)
  {
    var fault := Coded("cqrshtmx.sync.push.status_union", Corruption, None);
    if r.status == CONFIRMED {
      if r.error.Some? {
        return Some(fault);
      }
    } else if r.status == REJECTED {
      if r.error.None? {
        return Some(fault);
      }
    } else {
      return Some(fault);
    }
    return None;
  }

  // ---------- the registry ----------

  /** What a history of registrations leaves behind. */
  function Remembered(history: seq<(string, HandlerConfig)>): map<string, HandlerConfig> {
    if history == [] then map[]
    else
      var last := history[|history| - 1];
      Remembered(history[..|history| - 1])[last.0 := last.1]
  }

  predicate LastOf(history: seq<(string, HandlerConfig)>, typ: string, i: int) {
    0 <= i < |history| && history[i].0 == typ && forall j :: i < j < |history| ==> history[j].0 != typ
  }

  /** The last registration of a type is the live one ... */
  lemma {:induction false} LastRegistrationWins(history: seq<(string, HandlerConfig)>, typ: string, i: int)
    requires LastOf(history, typ, i)
    ensures typ in Remembered(history) && Remembered(history)[typ] == history[i].1
    decreases |history|
  {
    var n := |history| - 1;
    if i < n {
      assert history[n].0 != typ;
      LastRegistrationWins(history[..n], typ, i);
    }
  }

  /** ... and a type never registered is unknown. */
  lemma {:induction false} OnlyRegisteredTypesAreKnown(history: seq<(string, HandlerConfig)>, typ: string)
    requires forall i :: 0 <= i < |history| ==> history[i].0 != typ
    ensures typ !in Remembered(history)
    decreases |history|
  {
    if history != [] {
      OnlyRegisteredTypesAreKnown(history[..|history| - 1], typ);
    }
  }

  // ---------- one envelope ----------

  /** synthesizeSyncPushRequest: the outer request with the envelope's body and headers. */
  function Inner(r: HttpReq, e: Envelope): HttpReq {
    r.(contentType := if e.contentType == "" then CONTENT_TYPE_JSON else e.contentType,
       commandId := e.commandId,
       body := Some(e.body),
       contentLength := |e.body|)
  }

  /** The endpoint exchange an envelope stands for, as App.Command would run it. */
  function Replay(app: AppConfig, config: HandlerConfig, log: seq<Call>, r: HttpReq, e: Envelope): Exchange {
    Exchange(app, config, Inner(r, e), COMMAND, None, log)
  }

  /** The stages of the endpoint that an envelope goes through. */
  predicate Replayable(x: Exchange) {
    && Objection(x, Authorization).None?
    && Objection(x, DecoderCheck).None?
    && Objection(x, Decode).None?
    && Objection(x, NilCheck).None?
    && Objection(x, GuardCheck).None?
  }

  /** An envelope's call: unlike the endpoint's, its context never passes BeforeDispatch. */
  function PushCall(x: Exchange): Call
    requires DecodedValue(x).Some?
  {
    var ctx := TimeoutCtx(x.app, x.config, x.r.ctx);
    Call(ctx, x.app.enrich(ctx, DecodedValue(x).value))
  }

  function PushAnswer(x: Exchange): DispatchAnswer
    requires DecodedValue(x).Some?
  {
    x.app.dispatcher(x.past, PushCall(x).ctx, PushCall(x).value)
  }

  function Rejected(commandId: string, code: string, family: Family): PushResult {
    PushResult(commandId, REJECTED, Some(PushError(code, FamilyText(if family == Unknown then Rejection else family))))
  }

  function RejectedFor(x: Exchange, commandId: string, err: Error): PushResult {
    Rejected(commandId, DeepestCode(Some(err)), x.app.classify(err))
  }

  function Reached(registry: map<string, HandlerConfig>, e: Envelope): bool {
    e.commandId != "" && e.typ in registry
  }

  /** Whether an envelope is dispatched at all, after what has been dispatched by then. */
  predicate Accepted(app: AppConfig, registry: map<string, HandlerConfig>, log: seq<Call>, r: HttpReq, e: Envelope) {
    Reached(registry, e) && Replayable(Replay(app, registry[e.typ], log, r, e))
  }

  predicate Confirms(app: AppConfig, registry: map<string, HandlerConfig>, log: seq<Call>, r: HttpReq, e: Envelope) {
    Accepted(app, registry, log, r, e) && PushAnswer(Replay(app, registry[e.typ], log, r, e)).Result?
  }

  function CallsOf(app: AppConfig, registry: map<string, HandlerConfig>, log: seq<Call>, r: HttpReq, e: Envelope)
    : seq<Call>
  {
    if Accepted(app, registry, log, r, e) then [PushCall(Replay(app, registry[e.typ], log, r, e))] else []
  }

  /** The reason a rejected envelope gives, by the first stage that objects. */
  function Reason(x: Exchange, commandId: string): PushResult {
    if Objection(x, Authorization).Some? then RejectedFor(x, commandId, Objection(x, Authorization).value.reported)
    else if DecodedValue(x).None? then Rejected(commandId, "cqrshtmx.sync.push.decode_failed", Rejection)
    else if GuardError(x).Some? then RejectedFor(x, commandId, GuardError(x).value)
    else if PushAnswer(x).DispatchError? then RejectedFor(x, commandId, PushAnswer(x).err)
    else PushResult(commandId, CONFIRMED, None)
  }

  function Outcome(app: AppConfig, registry: map<string, HandlerConfig>, log: seq<Call>, r: HttpReq, e: Envelope)
    : PushResult
  {
    if e.commandId == "" then Rejected("", "cqrshtmx.sync.push.command_id_missing", Rejection)
    else if e.typ !in registry || registry[e.typ].decoder.None? then
      Rejected(e.commandId, "cqrshtmx.sync.push.unknown_type", Rejection)
    else Reason(Replay(app, registry[e.typ], log, r, e), e.commandId)
  }

  /** The hook runs once per dispatched envelope, with the dispatcher's own error. */
  function HookAfter(x: Exchange): seq<Event>
    requires DecodedValue(x).Some?
  {
    var answer := PushAnswer(x);
    AfterEvents(x, PushCall(x).ctx, if answer.Result? then None else Some(answer.err))
  }

  function HooksOf(app: AppConfig, registry: map<string, HandlerConfig>, log: seq<Call>, r: HttpReq, e: Envelope)
    : seq<Event>
  {
    if Accepted(app, registry, log, r, e) then HookAfter(Replay(app, registry[e.typ], log, r, e)) else []
  }

  /** The outcome reported is the outcome reached: confirmed exactly if the command was
      dispatched and accepted; and every outcome is one the client can act on. */
  lemma OutcomeIsHonest(app: AppConfig, registry: map<string, HandlerConfig>, log: seq<Call>, r: HttpReq, e: Envelope)
    ensures Outcome(app, registry, log, r, e).status == CONFIRMED <==> Confirms(app, registry, log, r, e)
    ensures WellFormedResult(Outcome(app, registry, log, r, e))
    ensures Outcome(app, registry, log, r, e).commandId == e.commandId
    ensures Outcome(app, registry, log, r, e).error.Some? ==>
              Outcome(app, registry, log, r, e).error.value.family in RETRY_CONTRACT
  {
  }

  // ---------- a batch ----------

  /** What replaying one envelope does: the calls it makes, the outcome it gets and the hooks it
      triggers, all by the calls made before it. */
  datatype Replayer = Replayer(
    calls: (seq<Call>, Envelope) -> seq<Call>,
    outcome: (seq<Call>, Envelope) -> PushResult,
    hooks: (seq<Call>, Envelope) -> seq<Event>)

  function ReplayerOf(app: AppConfig, registry: map<string, HandlerConfig>, r: HttpReq): Replayer {
    Replayer(
      (log: seq<Call>, e: Envelope) => CallsOf(app, registry, log, r, e),
      (log: seq<Call>, e: Envelope) => Outcome(app, registry, log, r, e),
      (log: seq<Call>, e: Envelope) => HooksOf(app, registry, log, r, e))
  }

  function BatchCalls(p: Replayer, log: seq<Call>, es: seq<Envelope>): seq<Call>
    decreases |es|
  {
    if es == [] then []
    else
      var n := |es| - 1;
      BatchCalls(p, log, es[..n]) + p.calls(log + BatchCalls(p, log, es[..n]), es[n])
  }

  function BatchResults(p: Replayer, log: seq<Call>, es: seq<Envelope>): seq<PushResult>
    decreases |es|
  {
    if es == [] then []
    else
      var n := |es| - 1;
      BatchResults(p, log, es[..n]) + [p.outcome(log + BatchCalls(p, log, es[..n]), es[n])]
  }

  function BatchHooks(p: Replayer, log: seq<Call>, es: seq<Envelope>): seq<Event>
    decreases |es|
  {
    if es == [] then []
    else
      var n := |es| - 1;
      BatchHooks(p, log, es[..n]) + p.hooks(log + BatchCalls(p, log, es[..n]), es[n])
  }

  /** What answering one more envelope adds to a batch. */
  ghost predicate Extends(p: Replayer, log: seq<Call>, done: seq<Envelope>, e: Envelope, longer: seq<Envelope>) {
    && BatchCalls(p, log, longer) == BatchCalls(p, log, done) + p.calls(log + BatchCalls(p, log, done), e)
    && BatchResults(p, log, longer) == BatchResults(p, log, done) + [p.outcome(log + BatchCalls(p, log, done), e)]
    && BatchHooks(p, log, longer) == BatchHooks(p, log, done) + p.hooks(log + BatchCalls(p, log, done), e)
  }

  lemma BatchGrows(p: Replayer, log: seq<Call>, es: seq<Envelope>, i: nat)
    requires i < |es|
    ensures Extends(p, log, es[..i], es[i], es[..i + 1])
  {
    assert es[..i + 1][..i] == es[..i];
  }

  class PushApp {
    const app: AppConfig
    var registry: map<string, HandlerConfig>
    ghost var history: seq<(string, HandlerConfig)>
    var log: seq<Call>
    var trace: seq<Event>

    ghost predicate Valid()
      reads this
    {
      registry == Remembered(history)
    }

    constructor (app: AppConfig)
      ensures this.app == app && log == [] && trace == [] && history == [] && Valid()
    {
      this.app := app;
      registry, history, log, trace := map[], [], [], [];
    }

    /** commandRegistry.remember, under its mutex. */
    method Remember(typ: string, config: HandlerConfig)
      requires Valid()
      modifies this`registry, this`history
      ensures Valid() && history == old(history) + [(typ, config)]
    {
      registry := registry[typ := config];
      history := history + [(typ, config)];
      assert history[..|history| - 1] == old(history);
    }

    method Lookup(typ: string) returns (config: Option<HandlerConfig>)
      ensures config == if typ in registry then Some(registry[typ]) else None
    {
      return if typ in registry then Some(registry[typ]) else None;
    }

    /** A rejection the client can act on: it names a known family, the given one if there is one,
        and satisfies the union the decoder enforces. */
    method RejectedSyncPushResult(commandId: string, code: string, family: Family) returns (result: PushResult)
      ensures WellFormedResult(result) && result.status == REJECTED && result.commandId == commandId
      ensures result.error.Some? && result.error.value.code == code
      ensures result.error.value.family in RETRY_CONTRACT
      ensures family != Unknown ==> result.error.value.family == FamilyText(family)
      ensures family == Unknown ==> result.error.value.family == FamilyText(Rejection)
    {
      var known := family;
      if FamilyText(known) == "unknown" {
        known := Rejection;
      }
      result := PushResult(commandId, REJECTED, Some(PushError(code, FamilyText(known))));
    }

    method RejectedError(commandId: string, err: Error) returns (result: PushResult)
      ensures result == Rejected(commandId, DeepestCode(Some(err)), app.classify(err))
    {
      var code := ErrorCode(Some(err));
      result := RejectedSyncPushResult(commandId, code, app.classify(err));
    }

    /** dispatchSyncPushEnvelope. */
    method DispatchEnvelope(r: HttpReq, e: Envelope) returns (result: PushResult)
      modifies this`log, this`trace
      ensures result == Outcome(app, registry, old(log), r, e)
      ensures log == old(log) + CallsOf(app, registry, old(log), r, e)
      ensures trace == old(trace) + HooksOf(app, registry, old(log), r, e)
    {
      if e.commandId == "" {
        result := RejectedSyncPushResult("", "cqrshtmx.sync.push.command_id_missing", Rejection);
        return;
      }
      var config := Lookup(e.typ);
      if config.None? || config.value.decoder.None? {
        result := RejectedSyncPushResult(e.commandId, "cqrshtmx.sync.push.unknown_type", Rejection);
        return;
      }
      result := ReplayEnvelope(Replay(app, config.value, log, r, e), e.commandId);
    }

    /** The stages of a known type's envelope, in the endpoint's order. */
    method ReplayEnvelope(x: Exchange, commandId: string) returns (result: PushResult)
      requires x.app == app && x.past == log && x.config.decoder.Some? && x.wantType.None?
      modifies this`log, this`trace
      ensures result == Reason(x, commandId)
      ensures log == old(log) + if Replayable(x) then [PushCall(x)] else []
      ensures trace == old(trace) + if Replayable(x) then HookAfter(x) else []
    {
      var refused := AuthorizationError(x);
      if refused.Some? {
        result := RejectedError(commandId, refused.value);
        return;
      }
      var decoding := x.config.decoder.value(log, x.r);
      if decoding.DecodeError? || decoding.value.None? {
        result := RejectedSyncPushResult(commandId, "cqrshtmx.sync.push.decode_failed", Rejection);
        return;
      }
      var command := decoding.value.value;
      if x.config.guard.Some? {
        var guardErr := x.config.guard.value(log, x.r, command);
        if guardErr.Some? {
          result := RejectedError(commandId, guardErr.value);
          return;
        }
      }
      result := DispatchCommand(x, commandId, command);
    }

    method DispatchCommand(x: Exchange, commandId: string, command: Value) returns (result: PushResult)
      requires x.app == app && x.past == log && DecodedValue(x) == Some(command)
      modifies this`log, this`trace
      ensures log == old(log) + [PushCall(x)]
      ensures trace == old(trace) + HookAfter(x)
      ensures match PushAnswer(x)
              case Result(_) => result == PushResult(commandId, CONFIRMED, None)
              case DispatchError(err) => result == RejectedFor(x, commandId, err)
    {
      var ctx := TimeoutCtx(app, x.config, x.r.ctx);
      var call := Call(ctx, app.enrich(ctx, command));
      var answer := app.dispatcher(log, call.ctx, call.value);
      log := log + [call];
      if app.afterDispatch {
        trace := trace + [AfterHook(ctx, if answer.Result? then None else Some(answer.err))];
      }
      if answer.DispatchError? {
        result := RejectedError(commandId, answer.err);
        return;
      }
      result := PushResult(commandId, CONFIRMED, None);
    }

    /** SyncPushHandler; commands is None when the body is not a JSON batch or is too long. */
    method Serve(r: HttpReq, commands: Option<seq<Envelope>>) returns (reply: Reply)
      modifies this`log, this`trace
      ensures reply.Results? <==>
                r.httpMethod == "POST" && app.hasDispatcher
                && commands.Some? && 1 <= |commands.value| <= MAX_SYNC_PUSH_BATCH
      ensures reply.Refused? ==> log == old(log) && trace == old(trace)
      ensures r.httpMethod != "POST" ==> reply == Refused(405, "cqrshtmx.sync.push.method_not_allowed")
      ensures r.httpMethod == "POST" && !app.hasDispatcher ==> reply == Refused(503, "cqrshtmx.sync.push.no_commands")
      ensures r.httpMethod == "POST" && app.hasDispatcher && commands.None? ==>
                reply == Refused(400, "cqrshtmx.sync.push.decode")
      ensures r.httpMethod == "POST" && app.hasDispatcher && commands == Some([]) ==>
                reply == Refused(400, "cqrshtmx.sync.push.empty")
      ensures r.httpMethod == "POST" && app.hasDispatcher && commands.Some? && |commands.value| > 100 ==>
                reply == Refused(400, "cqrshtmx.sync.push.too_large")
      ensures reply.Results? ==> reply.results == BatchResults(ReplayerOf(app, registry, r), old(log), commands.value)
      ensures reply.Results? ==> log == old(log) + BatchCalls(ReplayerOf(app, registry, r), old(log), commands.value)
      ensures reply.Results? ==>
                trace == old(trace) + BatchHooks(ReplayerOf(app, registry, r), old(log), commands.value)
    {
      if r.httpMethod != "POST" {
        return Refused(405, "cqrshtmx.sync.push.method_not_allowed");
      }
      if !app.hasDispatcher {
        return Refused(503, "cqrshtmx.sync.push.no_commands");
      }
      if commands.None? {
        return Refused(400, "cqrshtmx.sync.push.decode");
      }
      if |commands.value| == 0 {
        return Refused(400, "cqrshtmx.sync.push.empty");
      }
      if |commands.value| > MAX_SYNC_PUSH_BATCH {
        return Refused(400, "cqrshtmx.sync.push.too_large");
      }
      var results := DispatchBatch(r, commands.value);
      return Results(results);
    }

    method DispatchBatch(r: HttpReq, es: seq<Envelope>) returns (results: seq<PushResult>)
      modifies this`log, this`trace
      ensures results == BatchResults(ReplayerOf(app, registry, r), old(log), es)
      ensures log == old(log) + BatchCalls(ReplayerOf(app, registry, r), old(log), es)
      ensures trace == old(trace) + BatchHooks(ReplayerOf(app, registry, r), old(log), es)
    {
      results := [];
      var i := 0;
      while i < |es|
        invariant 0 <= i <= |es|
        invariant Answered(old(log), old(trace), r, es[..i], results)
      {
        BatchGrows(ReplayerOf(app, registry, r), old(log), es, i);
        results := DispatchNext(old(log), old(trace), r, es[..i], es[i], es[..i + 1], results);
        i := i + 1;
      }
      assert es[..i] == es;
    }

    /** Exactly the envelopes `done` have been answered since log0 and trace0. */
    ghost predicate Answered(log0: seq<Call>, trace0: seq<Event>, r: HttpReq, done: seq<Envelope>,
                             results: seq<PushResult>)
      reads this
    {
      && results == BatchResults(ReplayerOf(app, registry, r), log0, done)
      && log == log0 + BatchCalls(ReplayerOf(app, registry, r), log0, done)
      && trace == trace0 + BatchHooks(ReplayerOf(app, registry, r), log0, done)
    }

    method DispatchNext(ghost log0: seq<Call>, ghost trace0: seq<Event>, r: HttpReq, ghost done: seq<Envelope>,
                        e: Envelope, ghost longer: seq<Envelope>, results: seq<PushResult>)
      returns (grown: seq<PushResult>)
      requires Answered(log0, trace0, r, done, results)
      requires Extends(ReplayerOf(app, registry, r), log0, done, e, longer)
      modifies this`log, this`trace
      ensures Answered(log0, trace0, r, longer, grown)
    {
      var result := DispatchEnvelope(r, e);
      grown := results + [result];
    }
  }
}

/** What becomes of one envelope of a batch, and of a batch envelope by envelope, in terms of the
    registry, the App and the envelope itself. */
module Envelopes {
  import opened Prelude
  import opened Errors
  import opened Pipeline
  import opened SyncPush
  import opened Endpoints
  import opened PushLaws

  /** The request an envelope stands for: its own body, its own content type or JSON, and its own
      command ID; everything else is the outer request's. */
  ghost predicate Carries(q: HttpReq, r: HttpReq, e: Envelope) {
    && q.body == Some(e.body) && q.contentLength == |e.body| && q.commandId == e.commandId
    && (e.contentType != "" ==> q.contentType == e.contentType)
    && (e.contentType == "" ==> q.contentType == "application/json")
    && q.httpMethod == r.httpMethod && q.isHtmx == r.isHtmx && q.ctx == r.ctx
  }

  lemma InnerCarries(q: HttpReq, r: HttpReq, e: Envelope)
    ensures Carries(q, r, e) <==> q == Inner(r, e)
  {
  }

  /** The registered endpoint's decoder reads v from that request. */
  ghost predicate Reads(registry: Registry, log: seq<Call>, q: HttpReq, e: Envelope, v: Value) {
    && e.typ in registry && registry[e.typ].decoder.Some?
    && registry[e.typ].decoder.value(log, q) == Decoded(Some(v))
  }

  ghost function Refusal(app: AppConfig, registry: Registry, log: seq<Call>, q: HttpReq, e: Envelope): Option<Error>
    requires e.typ in registry
  {
    var caller := Authz.HttpRequest(q.ctx.user, app.seen(log, q.ctx.tag));
    Authz.ExecuteAuthorization(app.enforcer(log), app.classify, caller, registry[e.typ].auth)
  }

  ghost function Guarded(registry: Registry, log: seq<Call>, q: HttpReq, e: Envelope, v: Value): Option<Error>
    requires e.typ in registry
  {
    if registry[e.typ].guard.Some? then registry[e.typ].guard.value(log, q, v) else None
  }

  lemma ReadsIsTheValue(app: AppConfig, registry: Registry, log: seq<Call>, r: HttpReq, q: HttpReq, e: Envelope,
                        v: Value)
    requires Carries(q, r, e) && e.typ in registry
    ensures Reads(registry, log, q, e, v) <==> DecodedValue(Replay(app, registry[e.typ], log, r, e)) == Some(v)
  {
    InnerCarries(q, r, e);
  }

  /** An envelope is dispatched exactly if it has a command ID and a known type, and that type's
      authorization, decoder and guard accept the request it stands for; and what is dispatched is
      what was read from it, in the outer request's context under the deadline. */
  lemma EnvelopeIsDispatchedIff(app: AppConfig, registry: Registry, log: seq<Call>, r: HttpReq, e: Envelope,
                                q: HttpReq, timed: Ctx)
    requires Carries(q, r, e) && (e.typ in registry ==> Timed(app, registry[e.typ], r.ctx, timed))
    ensures CallsOf(app, registry, log, r, e) != []
            <==> e.commandId != "" && e.typ in registry && Refusal(app, registry, log, q, e) == None
                 && exists v :: Reads(registry, log, q, e, v) && Guarded(registry, log, q, e, v) == None
    ensures forall v | CallsOf(app, registry, log, r, e) != [] && Reads(registry, log, q, e, v) ::
              CallsOf(app, registry, log, r, e) == [Call(timed, app.enrich(timed, v))]
  {
    InnerCarries(q, r, e);
    if e.typ in registry {
      var x := Replay(app, registry[e.typ], log, r, e);
      forall v ensures Reads(registry, log, q, e, v) <==> DecodedValue(x) == Some(v) {
        ReadsIsTheValue(app, registry, log, r, q, e, v);
      }
      if DecodedValue(x).Some? {
        assert Reads(registry, log, q, e, DecodedValue(x).value);
      }
    }
  }

  /** A rejection with this code, under the family's name. */
  predicate RejectedAs(result: PushResult, e: Envelope, code: string, family: string) {
    result == PushResult(e.commandId, "rejected", Some(PushError(code, family)))
  }

  /** The name a client is told: an unclassified error counts as a rejection. */
  predicate Named(family: Family, name: string) {
    match family
    case Rejection => name == "rejection"
    case Conflict => name == "conflict"
    case Transient => name == "transient"
    case Corruption => name == "corruption"
    case Infrastructure => name == "infrastructure"
    case Unknown => name == "rejection"
  }

  ghost predicate RejectedFor(app: AppConfig, result: PushResult, e: Envelope, err: Error) {
    exists name :: Named(app.classify(err), name) && RejectedAs(result, e, DeepestCode(Some(err)), name)
  }

  lemma RejectionIsNamed(app: AppConfig, e: Envelope, err: Error)
    ensures RejectedFor(app, Rejected(e.commandId, DeepestCode(Some(err)), app.classify(err)), e, err)
  {
    var family := app.classify(err);
    assert Named(family, FamilyText(if family == Unknown then Rejection else family));
  }

  /** The outcome names the first thing that failed: the missing ID, the unknown type, the
      authorization, the decoding, the guard, the dispatch; and it is confirmed if nothing did. */
  lemma OutcomeNamesTheFirstFailure(app: AppConfig, registry: Registry, log: seq<Call>, r: HttpReq, e: Envelope,
                                    q: HttpReq, timed: Ctx)
    requires Carries(q, r, e) && (e.typ in registry ==> Timed(app, registry[e.typ], r.ctx, timed))
    ensures var result := Outcome(app, registry, log, r, e);
            var known := e.typ in registry && registry[e.typ].decoder.Some?;
            && (e.commandId == "" ==>
                  RejectedAs(result, e, "cqrshtmx.sync.push.command_id_missing", "rejection"))
            && (e.commandId != "" && !known ==>
                  RejectedAs(result, e, "cqrshtmx.sync.push.unknown_type", "rejection"))
            && (e.commandId != "" && known && Refusal(app, registry, log, q, e).Some? ==>
                  RejectedFor(app, result, e, Refusal(app, registry, log, q, e).value))
            && (e.commandId != "" && known && Refusal(app, registry, log, q, e).None?
                && (forall v :: !Reads(registry, log, q, e, v)) ==>
                  RejectedAs(result, e, "cqrshtmx.sync.push.decode_failed", "rejection"))
    ensures forall v | e.commandId != "" && Reads(registry, log, q, e, v) && Refusal(app, registry, log, q, e).None? ::
              var result := Outcome(app, registry, log, r, e);
              var answer := app.dispatcher(log, timed, app.enrich(timed, v));
              && (Guarded(registry, log, q, e, v).Some? ==>
                    RejectedFor(app, result, e, Guarded(registry, log, q, e, v).value))
              && (Guarded(registry, log, q, e, v).None? && answer.DispatchError? ==>
                    RejectedFor(app, result, e, answer.err))
              && (Guarded(registry, log, q, e, v).None? && answer.Result? ==>
                    result == PushResult(e.commandId, "confirmed", None))
  {
    InnerCarries(q, r, e);
    forall err: Error
      ensures RejectedFor(app, Rejected(e.commandId, DeepestCode(Some(err)), app.classify(err)), e, err)
    {
      RejectionIsNamed(app, e, err);
    }
    if e.typ in registry {
      var x := Replay(app, registry[e.typ], log, r, e);
      forall v ensures Reads(registry, log, q, e, v) <==> DecodedValue(x) == Some(v) {
        ReadsIsTheValue(app, registry, log, r, q, e, v);
      }
      if DecodedValue(x).Some? {
        assert Reads(registry, log, q, e, DecodedValue(x).value);
      }
    }
  }

  /** So the calls of a batch are read from its envelopes: call k is what the k-th accepted envelope's
      own request decodes to, after the calls before it. */
  lemma CallsAreReadFromTheirEnvelopes(app: AppConfig, registry: Registry, log: seq<Call>, r: HttpReq,
                                       es: seq<Envelope>, k: nat)
    returns (i: nat, q: HttpReq, v: Value)
    requires k < |BatchCalls(ReplayerOf(app, registry, r), log, es)|
    ensures var p := ReplayerOf(app, registry, r);
            && i < |es| && Carries(q, r, es[i]) && Reads(registry, PastAt(p, log, es, i), q, es[i], v)
            && Timed(app, registry[es[i].typ], r.ctx, BatchCalls(p, log, es)[k].ctx)
            && BatchCalls(p, log, es)[k].value == app.enrich(BatchCalls(p, log, es)[k].ctx, v)
  {
    var p := ReplayerOf(app, registry, r);
    var at := DispatchesAreASubsequence(app, registry, log, r, es);
    i := at[k];
    var past := PastAt(p, log, es, i);
    q := Inner(r, es[i]);
    InnerCarries(q, r, es[i]);
    assert CallsOf(app, registry, past, r, es[i]) == [BatchCalls(p, log, es)[k]];
    var timed := TimeoutCtx(app, registry[es[i].typ], r.ctx);
    EnvelopeIsDispatchedIff(app, registry, past, r, es[i], q, timed);
    v :| Reads(registry, past, q, es[i], v) && Guarded(registry, past, q, es[i], v) == None;
  }

  /** The hook hears of every dispatched envelope, and of no other, with the dispatcher's own error. */
  lemma HookHearsOfDispatches(app: AppConfig, registry: Registry, log: seq<Call>, r: HttpReq, e: Envelope)
    ensures var calls := CallsOf(app, registry, log, r, e);
            var hooks := HooksOf(app, registry, log, r, e);
            && |hooks| == (if app.afterDispatch then |calls| else 0)
            && (hooks != [] ==>
                  var answer := app.dispatcher(log, calls[0].ctx, calls[0].value);
                  hooks[0] == AfterHook(calls[0].ctx, if answer.DispatchError? then Some(answer.err) else None))
  {
  }
}

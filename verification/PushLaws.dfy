/** The batch push against the endpoints it replays: what a batch answers and dispatches, and
    when an envelope succeeds exactly where its own endpoint would. */
module PushLaws {
  import opened Prelude
  import opened Errors
  import opened Pipeline
  import PipelineLaws
  import opened SyncPush

  type Registry = map<string, HandlerConfig>

  // ---------- one outcome per envelope ----------

  lemma {:induction false} BatchLength(p: Replayer, log: seq<Call>, es: seq<Envelope>)
    ensures |BatchResults(p, log, es)| == |es|
    decreases |es|
  {
    if es != [] {
      BatchLength(p, log, es[..|es| - 1]);
    }
  }

  /** What has been dispatched when envelope k of a batch has its turn. */
  function PastAt(p: Replayer, log: seq<Call>, es: seq<Envelope>, k: nat): seq<Call>
    requires k <= |es|
  {
    log + BatchCalls(p, log, es[..k])
  }

  lemma {:induction false} OutcomeAt(p: Replayer, log: seq<Call>, es: seq<Envelope>, k: nat)
    requires k < |es|
    ensures |BatchResults(p, log, es)| == |es|
    ensures BatchResults(p, log, es)[k] == p.outcome(PastAt(p, log, es, k), es[k])
    decreases |es|
  {
    var n := |es| - 1;
    BatchLength(p, log, es[..n]);
    if k < n {
      assert es[..n][..k] == es[..k];
      OutcomeAt(p, log, es[..n], k);
    }
  }

  /** One outcome per envelope, in order, each for its own command, each decidable, and each
      reached knowing only the commands dispatched before it. */
  lemma OneOutcomeEach(app: AppConfig, registry: Registry, log: seq<Call>, r: HttpReq, es: seq<Envelope>, k: nat)
    requires k < |es|
    ensures var p := ReplayerOf(app, registry, r);
            && |BatchResults(p, log, es)| == |es|
            && BatchResults(p, log, es)[k] == Outcome(app, registry, PastAt(p, log, es, k), r, es[k])
            && BatchResults(p, log, es)[k].commandId == es[k].commandId
            && WellFormedResult(BatchResults(p, log, es)[k])
  {
    var p := ReplayerOf(app, registry, r);
    OutcomeAt(p, log, es, k);
    OutcomeIsHonest(app, registry, PastAt(p, log, es, k), r, es[k]);
  }

  // ---------- dispatches keep the batch order ----------

  /** The positions of the envelopes that make a call. */
  function CallingAt(p: Replayer, log: seq<Call>, es: seq<Envelope>): (at: seq<nat>)
    ensures forall k :: 0 <= k < |at| ==> at[k] < |es|
    decreases |es|
  {
    if es == [] then []
    else
      var n: nat := |es| - 1;
      CallingAt(p, log, es[..n]) + if |p.calls(PastAt(p, log, es, n), es[n])| > 0 then [n] else []
  }

  predicate Ascending(at: seq<nat>) {
    forall j, k :: 0 <= j < k < |at| ==> at[j] < at[k]
  }

  lemma {:induction false} CallingAscends(p: Replayer, log: seq<Call>, es: seq<Envelope>)
    ensures Ascending(CallingAt(p, log, es))
    decreases |es|
  {
    if es != [] {
      CallingAscends(p, log, es[..|es| - 1]);
    }
  }

  lemma {:induction false} CallingIsExact(p: Replayer, log: seq<Call>, es: seq<Envelope>, i: nat)
    requires i < |es|
    ensures i in CallingAt(p, log, es) <==> |p.calls(PastAt(p, log, es, i), es[i])| > 0
    decreases |es|
  {
    var n := |es| - 1;
    if i < n {
      assert es[..n][..i] == es[..i];
      CallingIsExact(p, log, es[..n], i);
    }
  }

  /** The i-th call of a batch is the one made by the i-th calling envelope. */
  predicate MadeAt(p: Replayer, log: seq<Call>, es: seq<Envelope>, i: nat, call: Call) {
    i < |es| && p.calls(PastAt(p, log, es, i), es[i]) == [call]
  }

  lemma MadeAtLonger(p: Replayer, log: seq<Call>, es: seq<Envelope>, n: nat, i: nat, call: Call)
    requires n <= |es| && MadeAt(p, log, es[..n], i, call)
    ensures MadeAt(p, log, es, i, call)
  {
    assert es[..n][..i] == es[..i];
  }

  lemma {:induction false} CallsAtPositions(p: Replayer, log: seq<Call>, es: seq<Envelope>)
    requires forall past, e :: |p.calls(past, e)| <= 1
    ensures |BatchCalls(p, log, es)| == |CallingAt(p, log, es)|
    ensures forall k :: 0 <= k < |CallingAt(p, log, es)| ==>
              MadeAt(p, log, es, CallingAt(p, log, es)[k], BatchCalls(p, log, es)[k])
    decreases |es|
  {
    if es != [] {
      var n := |es| - 1;
      CallsAtPositions(p, log, es[..n]);
      var at, calls := CallingAt(p, log, es[..n]), BatchCalls(p, log, es[..n]);
      forall k | 0 <= k < |at| ensures MadeAt(p, log, es, at[k], calls[k]) {
        MadeAtLonger(p, log, es, n, at[k], calls[k]);
      }
      var last := p.calls(PastAt(p, log, es, n), es[n]);
      assert |last| == 1 ==> last == [last[0]];
    }
  }

  /** The calls a batch makes are those of the envelopes accepted at their turn, each once, in
      batch order. */
  lemma DispatchesAreASubsequence(app: AppConfig, registry: Registry, log: seq<Call>, r: HttpReq, es: seq<Envelope>)
    returns (at: seq<nat>)
    ensures Ascending(at) && forall k :: 0 <= k < |at| ==> at[k] < |es|
    ensures var p := ReplayerOf(app, registry, r);
            && |BatchCalls(p, log, es)| == |at|
            && (forall i: nat :: i < |es| ==>
                  (i in at <==> Accepted(app, registry, PastAt(p, log, es, i), r, es[i])))
            && (forall k :: 0 <= k < |at| ==>
                  CallsOf(app, registry, PastAt(p, log, es, at[k]), r, es[at[k]]) == [BatchCalls(p, log, es)[k]])
  {
    var p := ReplayerOf(app, registry, r);
    at := CallingAt(p, log, es);
    CallingAscends(p, log, es);
    forall i: nat | i < |es| ensures i in at <==> Accepted(app, registry, PastAt(p, log, es, i), r, es[i]) {
      CallingIsExact(p, log, es, i);
    }
    CallsAtPositions(p, log, es);
    forall k | 0 <= k < |at|
      ensures CallsOf(app, registry, PastAt(p, log, es, at[k]), r, es[at[k]]) == [BatchCalls(p, log, es)[k]]
    {
      assert MadeAt(p, log, es, at[k], BatchCalls(p, log, es)[k]);
    }
  }

  // ---------- failures are isolated ----------

  lemma Regroup(a: seq<Call>, b: seq<Call>, c: seq<Call>)
    ensures (a + b) + c == a + (b + c)
  {
  }

  /** A batch in two parts: the second starts where the first has left the system. */
  lemma {:induction false} BatchCallsConcat(p: Replayer, log: seq<Call>, a: seq<Envelope>, b: seq<Envelope>)
    ensures BatchCalls(p, log, a + b)
         == BatchCalls(p, log, a) + BatchCalls(p, log + BatchCalls(p, log, a), b)
    decreases |b|
  {
    var first := BatchCalls(p, log, a);
    if b == [] {
      assert a + b == a;
    } else {
      var n := |b| - 1;
      var second := BatchCalls(p, log + first, b[..n]);
      assert (a + b)[..|a| + n] == a + b[..n];
      BatchCallsConcat(p, log, a, b[..n]);
      Regroup(log, first, second);
      Regroup(first, second, p.calls(log + first + second, b[n]));
    }
  }

  /** An envelope that makes no call when its turn comes. */
  predicate MakesNoCall(p: Replayer, log: seq<Call>, a: seq<Envelope>, bad: Envelope) {
    p.calls(log + BatchCalls(p, log, a), bad) == []
  }

  lemma RefusedAddsNothing(p: Replayer, log: seq<Call>, a: seq<Envelope>, bad: Envelope, b: seq<Envelope>)
    requires MakesNoCall(p, log, a, bad)
    ensures BatchCalls(p, log, a + [bad] + b) == BatchCalls(p, log, a + b)
  {
    assert (a + [bad])[..|a|] == a;
    assert BatchCalls(p, log, a + [bad]) == BatchCalls(p, log, a);
    BatchCallsConcat(p, log, a + [bad], b);
    BatchCallsConcat(p, log, a, b);
  }

  lemma IsolatedOutcome(p: Replayer, log: seq<Call>, a: seq<Envelope>, bad: Envelope, b: seq<Envelope>, k: nat)
    requires MakesNoCall(p, log, a, bad) && k < |a + b|
    ensures |BatchResults(p, log, a + [bad] + b)| == |BatchResults(p, log, a + b)| + 1 == |a + b| + 1
    ensures BatchResults(p, log, a + b)[k] == BatchResults(p, log, a + [bad] + b)[if k < |a| then k else k + 1]
  {
    var with := a + [bad] + b;
    OutcomeAt(p, log, a + b, k);
    if k < |a| {
      OutcomeAt(p, log, with, k);
      assert with[..k] == (a + b)[..k];
    } else {
      OutcomeAt(p, log, with, k + 1);
      var j := k - |a|;
      assert (a + b)[..k] == a + b[..j];
      assert with[..k + 1] == a + [bad] + b[..j];
      RefusedAddsNothing(p, log, a, bad, b[..j]);
    }
  }

  /** An envelope that is not dispatched at its turn leaves the rest of the batch as if it were
      not there: the same calls, and the same outcome for every other envelope. */
  lemma FailuresAreIsolated(app: AppConfig, registry: Registry, log: seq<Call>, r: HttpReq,
                            a: seq<Envelope>, bad: Envelope, b: seq<Envelope>, k: nat)
    requires !Accepted(app, registry, log + BatchCalls(ReplayerOf(app, registry, r), log, a), r, bad)
    requires k < |a + b|
    ensures var p := ReplayerOf(app, registry, r);
            && BatchCalls(p, log, a + [bad] + b) == BatchCalls(p, log, a + b)
            && |BatchResults(p, log, a + [bad] + b)| == |BatchResults(p, log, a + b)| + 1 == |a + b| + 1
            && BatchResults(p, log, a + b)[k] == BatchResults(p, log, a + [bad] + b)[if k < |a| then k else k + 1]
  {
    var p := ReplayerOf(app, registry, r);
    RefusedAddsNothing(p, log, a, bad, b);
    IsolatedOutcome(p, log, a, bad, b, k);
  }

  // ---------- the push refines the single endpoint ----------

  /** The endpoint the envelope's type was registered with; wantType is None for App.Command. */
  function Endpoint(app: AppConfig, config: HandlerConfig, log: seq<Call>, r: HttpReq, e: Envelope,
                    wantType: Option<string>): Exchange
  {
    Exchange(app, config, EnrichUserID(app, Inner(r, e)), COMMAND, wantType, log)
  }

  /** The guards only the endpoint has. */
  predicate OwnGuardsPass(x: Exchange) {
    && Objection(x, MethodGuard).None?
    && Objection(x, CsrfCheck).None?
    && Objection(x, ContentTypeCheck).None?
  }

  predicate TypeFits(x: Exchange, wantType: Option<string>) {
    wantType.Some? && DecodedValue(x).Some? ==> DecodedValue(x).value.goType == wantType.value
  }

  lemma ClearStep(x: Exchange, s: Stage)
    requires s != Dispatch
    ensures Clear(x, s) <==> Objection(x, s).None? && Clear(x, Next(s))
  {
  }

  lemma ClearIsEveryStage(x: Exchange)
    ensures Clear(x, MethodGuard) <==> OwnGuardsPass(x) && Replayable(x)
  {
    ClearStep(x, MethodGuard);
    ClearStep(x, Authorization);
    ClearStep(x, CsrfCheck);
    ClearStep(x, ContentTypeCheck);
    ClearStep(x, DecoderCheck);
    ClearStep(x, Decode);
    ClearStep(x, NilCheck);
    ClearStep(x, GuardCheck);
  }

  /** The typed endpoint decodes what the untyped one does, or refuses it for its type. */
  lemma TypedDecoding(x: Exchange, wantType: Option<string>)
    requires x.wantType.None? && x.config.decoder.Some?
    ensures var typed := x.(wantType := wantType);
            && (Objection(x, Decode).None? && Objection(x, NilCheck).None? && TypeFits(x, wantType) ==>
                  DecodedValue(typed) == DecodedValue(x) && Objection(typed, Decode).None?)
            && (Objection(typed, Decode).None? && Objection(typed, NilCheck).None? ==>
                  DecodedValue(typed) == DecodedValue(x) && TypeFits(x, wantType) && Objection(x, Decode).None?)
  {
  }

  lemma TypedReplay(x: Exchange, wantType: Option<string>)
    requires x.wantType.None?
    ensures Replayable(x.(wantType := wantType)) <==> Replayable(x) && TypeFits(x, wantType)
    ensures Replayable(x.(wantType := wantType)) ==> DecodedValue(x.(wantType := wantType)) == DecodedValue(x)
    ensures OwnGuardsPass(x.(wantType := wantType)) <==> OwnGuardsPass(x)
  {
    if x.config.decoder.Some? {
      TypedDecoding(x, wantType);
    }
  }

  /** Whatever hooks are configured: with no user left to extract, the endpoint comes to dispatch
      exactly when the envelope is accepted and the guards that only the endpoint has would pass. */
  lemma PushAcceptanceAgrees(app: AppConfig, registry: Registry, log: seq<Call>, r: HttpReq, e: Envelope,
                             wantType: Option<string>)
    requires Reached(registry, e) && EnrichUserID(app, Inner(r, e)) == Inner(r, e)
    ensures var x := Endpoint(app, registry[e.typ], log, r, e, wantType);
            Clear(x, MethodGuard)
            <==> Accepted(app, registry, log, r, e) && OwnGuardsPass(x)
                 && TypeFits(Replay(app, registry[e.typ], log, r, e), wantType)
  {
    ClearIsEveryStage(Endpoint(app, registry[e.typ], log, r, e, wantType));
    TypedReplay(Replay(app, registry[e.typ], log, r, e), wantType);
  }

  /** With no BeforeDispatch hook and no user left to extract, the endpoint dispatches exactly
      when the envelope does and the guards that only the endpoint has would pass too - and it
      is then the same command in the same context. */
  lemma PushRefinesEndpoint(app: AppConfig, registry: Registry, log: seq<Call>, r: HttpReq, e: Envelope,
                            wantType: Option<string>)
    requires Reached(registry, e)
    requires app.beforeDispatch.None? && EnrichUserID(app, Inner(r, e)) == Inner(r, e)
    ensures var x := Endpoint(app, registry[e.typ], log, r, e, wantType);
            CallsFrom(x, MethodGuard)
            == if OwnGuardsPass(x) && TypeFits(Replay(app, registry[e.typ], log, r, e), wantType)
               then CallsOf(app, registry, log, r, e) else []
    ensures var x := Endpoint(app, registry[e.typ], log, r, e, wantType);
            PipelineLaws.Succeeds(x, MethodGuard)
            <==> Outcome(app, registry, log, r, e).status == CONFIRMED
                 && OwnGuardsPass(x) && TypeFits(Replay(app, registry[e.typ], log, r, e), wantType)
  {
    var x := Endpoint(app, registry[e.typ], log, r, e, wantType);
    ClearIsEveryStage(x);
    TypedReplay(Replay(app, registry[e.typ], log, r, e), wantType);
    OutcomeIsHonest(app, registry, log, r, e);
  }

  /** Without the precondition on the user the two can part: a push never extracts one. Where an
      extractor would have found the user, the endpoint lets a RequireAuth command pass and the
      envelope is rejected as unauthorized. */
  lemma PushDoesNotExtractUsers(app: AppConfig, registry: Registry, log: seq<Call>, r: HttpReq, e: Envelope)
    requires Reached(registry, e) && registry[e.typ].decoder.Some?
    requires r.ctx.user == "" && EnrichUserID(app, Inner(r, e)).ctx.user != ""
    requires registry[e.typ].auth.mode == Authz.AuthRequired && registry[e.typ].auth.authzRequest.None?
    ensures Objection(Endpoint(app, registry[e.typ], log, r, e, None), Authorization).None?
    ensures Outcome(app, registry, log, r, e).status == REJECTED
    ensures Outcome(app, registry, log, r, e).error.value.code == "unauthorized"
  {
    var x := Replay(app, registry[e.typ], log, r, e);
    assert AuthorizationError(x) == Some(ERR_UNAUTHORIZED);
    assert Objection(x, Authorization).value.reported == ERR_UNAUTHORIZED;
  }
}

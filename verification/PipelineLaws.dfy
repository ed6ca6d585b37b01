/** What every trace of the dispatch pipeline has in common. */
module PipelineLaws {
  import opened Prelude
  import opened Errors
  import opened Pipeline

  // ---------- the canonical order ----------

  function RanBetween(from: nat, to: nat): seq<Event>
    requires from <= to <= |STAGES|
    decreases |STAGES| - from
  {
    if from == to then [] else [Ran(STAGES[from])] + RanBetween(from + 1, to)
  }

  function Ending(x: Exchange, last: Stage): seq<Event> {
    if last == Dispatch then DispatchTrace(x)
    else if Objection(x, last).Some? then Aftermath(x, last, Objection(x, last).value)
    else []
  }

  predicate NoObjection(x: Exchange, from: nat, to: nat)
    requires from <= to <= |STAGES|
  {
    forall i | from <= i < to :: Objection(x, STAGES[i]).None?
  }

  lemma StageAt(k: nat)
    requires k < |STAGES|
    ensures Position(STAGES[k]) == k
    ensures STAGES[k] != Dispatch ==> k + 1 < |STAGES| && Next(STAGES[k]) == STAGES[k + 1]
    ensures STAGES[k] == Dispatch <==> k == |STAGES| - 1
  {
  }

  lemma CutHere(x: Exchange, k: nat)
    requires k < |STAGES| && (STAGES[k] == Dispatch || Objection(x, STAGES[k]).Some?)
    ensures TraceFrom(x, STAGES[k]) == RanBetween(k, k + 1) + Ending(x, STAGES[k])
  {
    assert RanBetween(k, k + 1) == [Ran(STAGES[k])] + RanBetween(k + 1, k + 1) == [Ran(STAGES[k])];
    if STAGES[k] != Dispatch {
      Stops(x, STAGES[k]);
    }
  }

  lemma CutStep(x: Exchange, k: nat, n: nat)
    requires k + 1 < n <= |STAGES| && Objection(x, STAGES[k]).None?
    requires TraceFrom(x, STAGES[k + 1]) == RanBetween(k + 1, n) + Ending(x, STAGES[n - 1])
    ensures TraceFrom(x, STAGES[k]) == RanBetween(k, n) + Ending(x, STAGES[n - 1])
  {
    StageAt(k);
    Continues(x, STAGES[k]);
    Concat([Ran(STAGES[k])], RanBetween(k + 1, n), Ending(x, STAGES[n - 1]));
  }

  lemma {:induction false} CutFrom(x: Exchange, k: nat) returns (n: nat)
    requires k < |STAGES|
    ensures k < n <= |STAGES|
    ensures NoObjection(x, k, n - 1)
    ensures n < |STAGES| ==> Objection(x, STAGES[n - 1]).Some?
    ensures TraceFrom(x, STAGES[k]) == RanBetween(k, n) + Ending(x, STAGES[n - 1])
    decreases |STAGES| - k
  {
    StageAt(k);
    var s := STAGES[k];
    if s == Dispatch || Objection(x, s).Some? {
      n := k + 1;
      CutHere(x, k);
    } else {
      n := CutFrom(x, k + 1);
      CutStep(x, k, n);
    }
  }

  /** Every trace is the BeforeDispatch hook, a prefix of the canonical stage order, and what
      follows the last stage reached: the stages before it did not object, and it did unless
      it is the dispatch. */
  lemma TraceIsACutPipeline(x: Exchange) returns (n: nat)
    ensures 0 < n <= |STAGES|
    ensures ExpectedTrace(x) == Prologue(x) + RanBetween(0, n) + Ending(x, STAGES[n - 1])
    ensures NoObjection(x, 0, n - 1)
    ensures n < |STAGES| ==> Objection(x, STAGES[n - 1]).Some?
  {
    n := CutFrom(x, 0);
    Concat(Prologue(x), RanBetween(0, n), Ending(x, STAGES[n - 1]));
  }

  // ---------- counting events ----------

  function Picked(e: Event, p: Event -> bool): seq<Event> {
    if p(e) then [e] else []
  }

  function Kept(events: seq<Event>, p: Event -> bool): seq<Event> {
    if events == [] then [] else Picked(events[0], p) + Kept(events[1..], p)
  }

  lemma {:induction false} KeptConcat(a: seq<Event>, b: seq<Event>, p: Event -> bool)
    ensures Kept(a + b, p) == Kept(a, p) + Kept(b, p)
  {
    if a == [] {
      assert a + b == b;
    } else {
      assert (a + b)[0] == a[0];
      assert (a + b)[1..] == a[1..] + b;
      KeptConcat(a[1..], b, p);
      Concat(Picked(a[0], p), Kept(a[1..], p), Kept(b, p));
    }
  }

  lemma KeptOne(e: Event, p: Event -> bool)
    ensures Kept([e], p) == if p(e) then [e] else []
  {
  }

  const IS_CALL: Event -> bool := (e: Event) => e.Dispatched?
  const IS_RESPONSE: Event -> bool := (e: Event) => e.SuccessResponse? || e.ErrorResponse? || e.CsrfResponse?
  const IS_HOOK: Event -> bool := (e: Event) => e.AfterHook?

  lemma KeptAfter(x: Exchange, ctx: Ctx, err: Option<Error>)
    ensures Kept(AfterEvents(x, ctx, err), IS_HOOK) == AfterEvents(x, ctx, err)
    ensures Kept(AfterEvents(x, ctx, err), IS_RESPONSE) == []
    ensures Kept(AfterEvents(x, ctx, err), IS_CALL) == []
  {
    KeptOne(AfterHook(ctx, err), IS_HOOK);
    KeptOne(AfterHook(ctx, err), IS_RESPONSE);
    KeptOne(AfterHook(ctx, err), IS_CALL);
  }

  /** An answer followed by the hook: one response, the hook's events, no call. */
  lemma KeptAnswer(x: Exchange, answer: Event, ctx: Ctx, err: Option<Error>)
    requires IS_RESPONSE(answer)
    ensures Kept([answer] + AfterEvents(x, ctx, err), IS_RESPONSE) == [answer]
    ensures Kept([answer] + AfterEvents(x, ctx, err), IS_HOOK) == AfterEvents(x, ctx, err)
    ensures Kept([answer] + AfterEvents(x, ctx, err), IS_CALL) == []
  {
    KeptAfter(x, ctx, err);
    KeptConcat([answer], AfterEvents(x, ctx, err), IS_RESPONSE);
    KeptConcat([answer], AfterEvents(x, ctx, err), IS_HOOK);
    KeptConcat([answer], AfterEvents(x, ctx, err), IS_CALL);
  }

  lemma KeptHandled(x: Exchange, ctx: Ctx, err: Error)
    ensures Kept(HandledError(x, ctx, err), IS_RESPONSE) == [ErrorResponse(err)]
    ensures Kept(HandledError(x, ctx, err), IS_HOOK) == AfterEvents(x, ctx, Some(err))
    ensures Kept(HandledError(x, ctx, err), IS_CALL) == []
  {
    var told := [ErrorResponse(err)] + if x.config.onError then [OnError(err)] else [];
    KeptTold(x, err, IS_RESPONSE);
    KeptTold(x, err, IS_HOOK);
    KeptTold(x, err, IS_CALL);
    KeptAfter(x, ctx, Some(err));
    KeptConcat(told, AfterEvents(x, ctx, Some(err)), IS_RESPONSE);
    KeptConcat(told, AfterEvents(x, ctx, Some(err)), IS_HOOK);
    KeptConcat(told, AfterEvents(x, ctx, Some(err)), IS_CALL);
  }

  lemma KeptTold(x: Exchange, err: Error, p: Event -> bool)
    requires !p(OnError(err))
    ensures Kept([ErrorResponse(err)] + if x.config.onError then [OnError(err)] else [], p)
         == if p(ErrorResponse(err)) then [ErrorResponse(err)] else []
  {
    KeptConcat([ErrorResponse(err)], if x.config.onError then [OnError(err)] else [], p);
    KeptOne(ErrorResponse(err), p);
    KeptOne(OnError(err), p);
  }

  /** The renderer of a query whose dispatch succeeded was asked and failed. */
  predicate RenderFails(x: Exchange, answer: DispatchAnswer) {
    answer.Result? && RenderError(x, answer.value).Some?
  }

  /** It failed after it had begun to write. */
  predicate RenderBreaksOff(x: Exchange, answer: DispatchAnswer) {
    RenderFails(x, answer) && RenderWrites(x, answer.value)
  }

  lemma KeptAnswering(x: Exchange, ctx: Ctx, result: Value)
    ensures |Kept(Answering(x, ctx, result), IS_RESPONSE)| == if RenderBreaksOff(x, Result(result)) then 2 else 1
    ensures Kept(Answering(x, ctx, result), IS_CALL) == []
    ensures Kept(Answering(x, ctx, result), IS_HOOK)
         == if RenderError(x, result).Some? then AfterEvents(x, ctx, RenderError(x, result)) else []
  {
    var written := if RenderWrites(x, result) then [SuccessResponse(Rendered)] else [];
    if RenderError(x, result).Some? {
      var handled := HandledError(x, ctx, RenderError(x, result).value);
      KeptHandled(x, ctx, RenderError(x, result).value);
      KeptConcat(written, handled, IS_RESPONSE);
      KeptConcat(written, handled, IS_HOOK);
      KeptConcat(written, handled, IS_CALL);
    } else if RenderWrites(x, result) {
      assert Answering(x, ctx, result) == written;
    } else {
      assert Answering(x, ctx, result) == [SuccessResponse(SuccessAnswer(x))];
    }
  }

  lemma KeptCompletion(x: Exchange, ctx: Ctx, answer: DispatchAnswer)
    ensures |Kept(Completion(x, ctx, answer), IS_RESPONSE)| == if RenderBreaksOff(x, answer) then 2 else 1
    ensures Kept(Completion(x, ctx, answer), IS_CALL) == []
    ensures !RenderFails(x, answer) ==>
              Kept(Completion(x, ctx, answer), IS_HOOK)
              == AfterEvents(x, ctx, if answer.Result? then None else Some(DispatchFailure(x, answer.err)))
    ensures RenderFails(x, answer) ==>
              Kept(Completion(x, ctx, answer), IS_HOOK)
              == AfterEvents(x, ctx, RenderError(x, answer.value)) + AfterEvents(x, ctx, None)
  {
    match answer
    case DispatchError(err) => KeptHandled(x, ctx, DispatchFailure(x, err));
    case Result(result) =>
      var answering := Answering(x, ctx, result);
      KeptAnswering(x, ctx, result);
      KeptAfter(x, ctx, None);
      KeptConcat(answering, AfterEvents(x, ctx, None), IS_RESPONSE);
      KeptConcat(answering, AfterEvents(x, ctx, None), IS_HOOK);
      KeptConcat(answering, AfterEvents(x, ctx, None), IS_CALL);
  }

  lemma KeptAftermath(x: Exchange, s: Stage, f: Failure)
    requires Position(s) >= 4 ==> f.response == Some(f.reported)
    ensures |Kept(Aftermath(x, s, f), IS_RESPONSE)| == 1
    ensures Kept(Aftermath(x, s, f), IS_HOOK) == AfterEvents(x, HookCtx(x), Some(f.reported))
    ensures Kept(Aftermath(x, s, f), IS_CALL) == []
  {
    if Position(s) < 4 {
      KeptAnswer(x, CheckResponse(f), HookCtx(x), Some(f.reported));
    } else {
      KeptHandled(x, HookCtx(x), f.reported);
    }
  }

  lemma KeptSkip(e: Event, rest: seq<Event>, p: Event -> bool)
    requires !p(e)
    ensures Kept([e] + rest, p) == Kept(rest, p)
  {
    KeptOne(e, p);
    KeptConcat([e], rest, p);
  }

  lemma KeptStep(s: Stage, rest: seq<Event>)
    ensures Kept([Ran(s)] + rest, IS_RESPONSE) == Kept(rest, IS_RESPONSE)
    ensures Kept([Ran(s)] + rest, IS_HOOK) == Kept(rest, IS_HOOK)
    ensures Kept([Ran(s)] + rest, IS_CALL) == Kept(rest, IS_CALL)
  {
    KeptSkip(Ran(s), rest, IS_RESPONSE);
    KeptSkip(Ran(s), rest, IS_HOOK);
    KeptSkip(Ran(s), rest, IS_CALL);
  }

  /** A stage that lets the nil check pass leaves a value to dispatch. */
  predicate HasValueAt(x: Exchange, s: Stage) {
    Position(s) > Position(NilCheck) ==> DecodedValue(x).Some?
  }

  function TheCall(x: Exchange): Call
    requires DecodedValue(x).Some?
  {
    CallWith(x, DecodedValue(x).value)
  }

  function AnswerTo(x: Exchange): DispatchAnswer
    requires DecodedValue(x).Some?
  {
    x.app.dispatcher(x.past, TheCall(x).ctx, TheCall(x).value)
  }

  lemma {:induction false} ClearMeansAValue(x: Exchange, s: Stage)
    requires Clear(x, s) && HasValueAt(x, s)
    ensures DecodedValue(x).Some?
    decreases |STAGES| - Position(s)
  {
    if s != Dispatch {
      ClearMeansAValue(x, Next(s));
    }
  }

  lemma KeptDispatch(x: Exchange)
    requires DecodedValue(x).Some?
    ensures var done := Completion(x, TheCall(x).ctx, AnswerTo(x));
            && Kept(TraceFrom(x, Dispatch), IS_RESPONSE) == Kept(done, IS_RESPONSE)
            && Kept(TraceFrom(x, Dispatch), IS_HOOK) == Kept(done, IS_HOOK)
            && Kept(TraceFrom(x, Dispatch), IS_CALL) == [Dispatched(TheCall(x))] + Kept(done, IS_CALL)
  {
    var call, done := [Dispatched(TheCall(x))], Completion(x, TheCall(x).ctx, AnswerTo(x));
    KeptStep(Dispatch, call + done);
    KeptConcat(call, done, IS_RESPONSE);
    KeptConcat(call, done, IS_HOOK);
    KeptConcat(call, done, IS_CALL);
  }

  /** How often the AfterDispatch hook must be called. */
  function HookCalls(x: Exchange, clear: bool): nat {
    if !x.app.afterDispatch then 0
    else if clear && DecodedValue(x).Some? && RenderFails(x, AnswerTo(x)) then 2
    else 1
  }

  /** How many responses are written. */
  function ResponsesWritten(x: Exchange, clear: bool): nat {
    if clear && DecodedValue(x).Some? && RenderBreaksOff(x, AnswerTo(x)) then 2 else 1
  }

  /** The due number of responses and hook calls, and the one call if nothing objects. */
  predicate CountsOf(x: Exchange, events: seq<Event>, clear: bool) {
    && |Kept(events, IS_RESPONSE)| == ResponsesWritten(x, clear)
    && |Kept(events, IS_HOOK)| == HookCalls(x, clear)
    && Kept(events, IS_CALL) == if clear && DecodedValue(x).Some? then [Dispatched(TheCall(x))] else []
  }

  predicate CountsHold(x: Exchange, s: Stage) {
    CountsOf(x, TraceFrom(x, s), Clear(x, s))
  }

  lemma CountsSkip(x: Exchange, s: Stage, rest: seq<Event>, clear: bool)
    requires CountsOf(x, rest, clear)
    ensures CountsOf(x, [Ran(s)] + rest, clear)
  {
    KeptStep(s, rest);
  }

  lemma CountsAtDispatch(x: Exchange)
    requires DecodedValue(x).Some?
    ensures CountsHold(x, Dispatch)
  {
    KeptDispatch(x);
    KeptCompletion(x, TheCall(x).ctx, AnswerTo(x));
  }

  lemma CountsAtStop(x: Exchange, s: Stage)
    requires s != Dispatch && Objection(x, s).Some?
    ensures CountsHold(x, s)
  {
    Stops(x, s);
    KeptAftermath(x, s, Objection(x, s).value);
    KeptStep(s, Aftermath(x, s, Objection(x, s).value));
  }

  lemma ClearAtStep(x: Exchange, s: Stage)
    requires s != Dispatch && Objection(x, s).None?
    ensures Clear(x, s) == Clear(x, Next(s))
  {
  }

  lemma CountsAtStep(x: Exchange, s: Stage)
    requires s != Dispatch && Objection(x, s).None?
    requires CountsHold(x, Next(s))
    ensures CountsHold(x, s)
  {
    var rest := TraceFrom(x, Next(s));
    ClearAtStep(x, s);
    Continues(x, s);
    CountsSkip(x, s, rest, Clear(x, Next(s)));
  }

  lemma ValueAtNext(x: Exchange, s: Stage)
    requires s != Dispatch && Objection(x, s).None? && HasValueAt(x, s)
    ensures HasValueAt(x, Next(s))
  {
  }

  lemma {:induction false} CountsFrom(x: Exchange, s: Stage)
    requires HasValueAt(x, s)
    ensures CountsHold(x, s)
    decreases |STAGES| - Position(s)
  {
    if s == Dispatch {
      CountsAtDispatch(x);
    } else if Objection(x, s).Some? {
      CountsAtStop(x, s);
    } else {
      ValueAtNext(x, s);
      CountsFrom(x, Next(s));
      CountsAtStep(x, s);
    }
  }

  lemma KeptPrologue(x: Exchange, rest: seq<Event>, p: Event -> bool)
    requires !p(BeforeHook)
    ensures Kept(Prologue(x) + rest, p) == Kept(rest, p)
  {
    KeptOne(BeforeHook, p);
    KeptConcat(Prologue(x), rest, p);
  }

  /** The dispatcher is called exactly when no earlier stage objects, and then once, with the
      decoded value and the hook's context under its deadline. */
  lemma DispatchedIffNothingObjects(x: Exchange)
    ensures Clear(x, MethodGuard) ==> DecodedValue(x).Some?
    ensures Kept(ExpectedTrace(x), IS_CALL) == if Clear(x, MethodGuard) then [Dispatched(TheCall(x))] else []
  {
    CountsFrom(x, MethodGuard);
    KeptPrologue(x, TraceFrom(x, MethodGuard), IS_CALL);
    if Clear(x, MethodGuard) {
      ClearMeansAValue(x, MethodGuard);
    }
  }

  /** The client gets exactly one answer - a success response, an error response or the CSRF
      validator's - unless a query's renderer wrote and then failed: then the error response
      follows what it wrote. A command is always answered once. */
  lemma OneResponseUnlessRenderingBreaksOff(x: Exchange)
    ensures Clear(x, MethodGuard) ==> DecodedValue(x).Some?
    ensures |Kept(ExpectedTrace(x), IS_RESPONSE)|
         == if Clear(x, MethodGuard) && RenderBreaksOff(x, AnswerTo(x)) then 2 else 1
    ensures x.kind != QUERY ==> |Kept(ExpectedTrace(x), IS_RESPONSE)| == 1
  {
    CountsFrom(x, MethodGuard);
    KeptPrologue(x, TraceFrom(x, MethodGuard), IS_RESPONSE);
    if Clear(x, MethodGuard) {
      ClearMeansAValue(x, MethodGuard);
    }
  }

  /** A configured AfterDispatch hook is called once, except that a query whose result fails to
      render calls it twice; a command always calls it once. */
  lemma HookIsCalledOnceUnlessRenderingFails(x: Exchange)
    ensures |Kept(ExpectedTrace(x), IS_HOOK)| == HookCalls(x, Clear(x, MethodGuard))
    ensures x.kind != QUERY && x.app.afterDispatch ==> |Kept(ExpectedTrace(x), IS_HOOK)| == 1
  {
    CountsFrom(x, MethodGuard);
    KeptPrologue(x, TraceFrom(x, MethodGuard), IS_HOOK);
  }

  // ---------- the hook has the last word ----------

  /** Dispatched and answered without an error. */
  predicate Succeeds(x: Exchange, s: Stage) {
    Clear(x, s) && DecodedValue(x).Some? && AnswerTo(x).Result?
  }

  ghost predicate EndsWithHook(events: seq<Event>, success: bool) {
    |events| > 0 && events[|events| - 1].AfterHook? && (events[|events| - 1].outcome.None? <==> success)
  }

  lemma PrependKeepsEnd(a: seq<Event>, b: seq<Event>, success: bool)
    requires EndsWithHook(b, success)
    ensures EndsWithHook(a + b, success)
  {
    assert (a + b)[|a + b| - 1] == b[|b| - 1];
  }

  lemma CompletionEnds(x: Exchange, ctx: Ctx, answer: DispatchAnswer)
    requires x.app.afterDispatch
    ensures EndsWithHook(Completion(x, ctx, answer), answer.Result?)
  {
  }

  lemma {:induction false} EndFrom(x: Exchange, s: Stage)
    requires x.app.afterDispatch && HasValueAt(x, s)
    ensures EndsWithHook(TraceFrom(x, s), Succeeds(x, s))
    decreases |STAGES| - Position(s)
  {
    if s == Dispatch {
      var done := Completion(x, TheCall(x).ctx, AnswerTo(x));
      CompletionEnds(x, TheCall(x).ctx, AnswerTo(x));
      PrependKeepsEnd([Ran(s)] + [Dispatched(TheCall(x))], done, AnswerTo(x).Result?);
      Concat([Ran(s)], [Dispatched(TheCall(x))], done);
    } else if Objection(x, s).Some? {
      Stops(x, s);
      PrependKeepsEnd([Ran(s)], Aftermath(x, s, Objection(x, s).value), false);
    } else {
      EndFrom(x, Next(s));
      Continues(x, s);
      PrependKeepsEnd([Ran(s)], TraceFrom(x, Next(s)), Succeeds(x, s));
    }
  }

  /** The hook is the last thing that happens, and its last word is "no error" exactly when the
      dispatch succeeded - even for a query whose rendering failed. */
  lemma HookHasTheLastWord(x: Exchange)
    requires x.app.afterDispatch
    ensures EndsWithHook(ExpectedTrace(x), Succeeds(x, MethodGuard))
  {
    EndFrom(x, MethodGuard);
    PrependKeepsEnd(Prologue(x), TraceFrom(x, MethodGuard), Succeeds(x, MethodGuard));
  }
}

/** What a readiness probe answers, and when it answers at all. */
module ReadinessLaws {
  import opened Prelude
  import opened Readiness

  // ---------- the answer ----------

  predicate DistinctNames(cs: seq<NamedCheck>) {
    forall i, j :: 0 <= i < j < |cs| ==> cs[i].name != cs[j].name
  }

  predicate Unbounded(cs: seq<NamedCheck>) {
    forall i :: 0 <= i < |cs| ==> cs[i].timeout <= 0
  }

  lemma AnsweredState(cs: seq<NamedCheck>, steps: seq<Step>, s: State)
    requires Runs(cs, Init(cs), steps, s) && s.reply.Some?
    ensures Inv(cs, s) && AllDone(cs, s)
  {
    InitInv(cs);
    RunKeepsInv(cs, Init(cs), steps, s);
  }

  /** In whatever order the goroutines run, when the probe answers every check has an outcome,
      its own result or (if bounded) a timeout, and the answer is 200 exactly if all passed. */
  lemma StatusIsTruthful(cs: seq<NamedCheck>, steps: seq<Step>, s: State)
    requires Runs(cs, Init(cs), steps, s) && s.reply.Some?
    ensures Sized(cs, s) && AllDone(cs, s)
    ensures forall i :: 0 <= i < |cs| ==> Possible(cs[i], s.procs[i].phase.outcome)
    ensures s.reply.value.httpStatus == 200 <==> forall i :: 0 <= i < |cs| ==> s.procs[i].phase.outcome.None?
    ensures s.reply.value.httpStatus != 200 ==> s.reply.value.httpStatus == 503
  {
    AnsweredState(cs, steps, s);
    assert forall i :: 0 <= i < |cs| ==> ProcInv(cs[i], s.procs[i]);
    assert forall i :: 0 <= i < |cs| ==> (HasFlagged(s.procs[i].phase) <==> s.procs[i].phase.outcome.Some?);
  }

  function Names(cs: seq<NamedCheck>): set<string> {
    set i | 0 <= i < |cs| :: cs[i].name
  }

  /** What an entry says: "ok" for a check that passed, "fail" with its error's text for one that did
      not. */
  predicate Tells(entry: Detail, outcome: Option<string>) {
    && (entry.status == "ok" <==> outcome.None?)
    && (outcome.None? ==> entry.error == "")
    && (outcome.Some? ==> entry.status == "fail" && entry.error == outcome.value)
  }

  /** A check of this name, by now done, whose outcome its entry tells. */
  predicate ReportedAs(cs: seq<NamedCheck>, s: State, name: string, i: int)
    requires Sized(cs, s) && AllDone(cs, s) && name in s.checks
  {
    0 <= i < |cs| && cs[i].name == name && Tells(s.checks[name], s.procs[i].phase.outcome)
  }

  lemma EntryIsReported(cs: seq<NamedCheck>, s: State, name: string, i: int)
    requires Sized(cs, s) && AllDone(cs, s) && EntryOf(cs, s, name, i)
    ensures ReportedAs(cs, s, name, i)
  {
  }

  lemma BodyNames(cs: seq<NamedCheck>, steps: seq<Step>, s: State)
    requires Runs(cs, Init(cs), steps, s) && s.reply.Some?
    ensures Sized(cs, s) && AllDone(cs, s) && s.reply.value.checks == s.checks
    ensures s.checks.Keys == Names(cs)
  {
    AnsweredState(cs, steps, s);
    forall name | name in s.checks ensures name in Names(cs) {
      var i :| EntryOf(cs, s, name, i);
      assert cs[i].name in Names(cs);
    }
    forall name | name in Names(cs) ensures name in s.checks {
      var i :| 0 <= i < |cs| && cs[i].name == name;
      assert IsRecorded(s.procs[i].phase);
    }
  }

  /** The body names exactly the checks, and reports under each name the outcome of a check of
      that name ... */
  lemma BodyIsTruthful(cs: seq<NamedCheck>, steps: seq<Step>, s: State)
    requires Runs(cs, Init(cs), steps, s) && s.reply.Some?
    ensures Sized(cs, s) && AllDone(cs, s) && s.reply.value.checks == s.checks
    ensures s.checks.Keys == Names(cs)
    ensures forall name | name in s.checks :: exists i :: ReportedAs(cs, s, name, i)
  {
    AnsweredState(cs, steps, s);
    BodyNames(cs, steps, s);
    forall name | name in s.checks ensures exists i :: ReportedAs(cs, s, name, i) {
      var i :| EntryOf(cs, s, name, i);
      EntryIsReported(cs, s, name, i);
    }
  }

  /** ... which is that check's own outcome, when names are distinct: its own result, or, if it is
      bounded, possibly a timeout that names it. */
  lemma EachEntryIsItsOwn(cs: seq<NamedCheck>, steps: seq<Step>, s: State, i: nat)
    requires Runs(cs, Init(cs), steps, s) && s.reply.Some?
    requires DistinctNames(cs) && i < |cs|
    ensures Sized(cs, s) && AllDone(cs, s) && cs[i].name in s.reply.value.checks
    ensures var entry := s.reply.value.checks[cs[i].name];
            && Tells(entry, s.procs[i].phase.outcome)
            && (cs[i].timeout <= 0 ==> cs[i].terminates && Tells(entry, cs[i].result))
            && ((cs[i].terminates && Tells(entry, cs[i].result)) || entry == Detail("fail", cs[i].name + ": timed out"))
  {
    BodyIsTruthful(cs, steps, s);
    StatusIsTruthful(cs, steps, s);
    assert cs[i].name in Names(cs);
    assert cs[i].name in s.checks;
    var j :| ReportedAs(cs, s, cs[i].name, j);
    assert i == j;
    assert Possible(cs[i], s.procs[i].phase.outcome);
  }

  /** The status and the body agree: a probe that answers 200 reports "ok" throughout, and with
      distinct names it answers 200 exactly then. */
  lemma StatusAgreesWithBody(cs: seq<NamedCheck>, steps: seq<Step>, s: State)
    requires Runs(cs, Init(cs), steps, s) && s.reply.Some?
    ensures var reply := s.reply.value;
            && (reply.httpStatus == 200 ==> forall name | name in reply.checks :: reply.checks[name].status == "ok")
            && (DistinctNames(cs) && (forall name | name in reply.checks :: reply.checks[name].status == "ok") ==>
                  reply.httpStatus == 200)
  {
    StatusIsTruthful(cs, steps, s);
    BodyIsTruthful(cs, steps, s);
    var reply := s.reply.value;
    if reply.httpStatus == 200 {
      forall name | name in reply.checks ensures reply.checks[name].status == "ok" {
        var i :| ReportedAs(cs, s, name, i);
      }
    }
    if DistinctNames(cs) && forall name | name in reply.checks :: reply.checks[name].status == "ok" {
      forall i | 0 <= i < |cs| ensures s.procs[i].phase.outcome.None? {
        EachEntryIsItsOwn(cs, steps, s, i);
      }
    }
  }

  /** Without bounds the schedule does not show: any two probes of the same checks that answer
      give the same status, and with distinct names the same body. */
  lemma ScheduleDoesNotShow(cs: seq<NamedCheck>, steps1: seq<Step>, s1: State, steps2: seq<Step>, s2: State)
    requires Runs(cs, Init(cs), steps1, s1) && s1.reply.Some?
    requires Runs(cs, Init(cs), steps2, s2) && s2.reply.Some?
    requires Unbounded(cs)
    ensures s1.reply.value.httpStatus == s2.reply.value.httpStatus
    ensures DistinctNames(cs) ==> s1.reply == s2.reply
  {
    StatusIsTruthful(cs, steps1, s1);
    StatusIsTruthful(cs, steps2, s2);
    assert forall i :: 0 <= i < |cs| ==> s1.procs[i].phase.outcome == cs[i].result;
    assert forall i :: 0 <= i < |cs| ==> s2.procs[i].phase.outcome == cs[i].result;
    if DistinctNames(cs) {
      BodyIsTruthful(cs, steps1, s1);
      BodyIsTruthful(cs, steps2, s2);
      forall i | 0 <= i < |cs| ensures s1.checks[cs[i].name] == s2.checks[cs[i].name] {
        EachEntryIsItsOwn(cs, steps1, s1, i);
        EachEntryIsItsOwn(cs, steps2, s2, i);
      }
      SameEntries(cs, s1.reply.value.checks, s2.reply.value.checks);
    }
  }

  lemma SameEntries(cs: seq<NamedCheck>, a: map<string, Detail>, b: map<string, Detail>)
    requires a.Keys == Names(cs) == b.Keys
    requires forall i :: 0 <= i < |cs| ==> a[cs[i].name] == b[cs[i].name]
    ensures a == b
  {
    forall name | name in a ensures name in b && a[name] == b[name] {
      assert name in a.Keys;
      var i :| 0 <= i < |cs| && cs[i].name == name;
    }
    assert a.Keys == b.Keys;
  }

  /** The goroutine of a bounded check, even one long abandoned, is never held up by its send. */
  lemma SendNeverBlocks(cs: seq<NamedCheck>, steps: seq<Step>, s: State, i: nat)
    requires Runs(cs, Init(cs), steps, s) && i < |cs|
    ensures Sized(cs, s)
    ensures s.procs[i].inner.Working? && cs[i].terminates ==> Enabled(cs, s, Send(i))
  {
    InitInv(cs);
    RunKeepsInv(cs, Init(cs), steps, s);
    assert ProcInv(cs[i], s.procs[i]);
  }

  // ---------- termination ----------

  /** How much a goroutine can still do. */
  const WORK_LEFT: Proc -> nat := (p: Proc) =>
    (match p.phase
     case Waiting => 8
     case Started => 7
     case Selecting => 5
     case Got(_) => 3
     case Flagged(_) => 2
     case Recorded(_) => 1
     case Done(_) => 0)
    + (if p.inner.Working? then 1 else 0)
    + (if p.fired then 0 else 1)

  function Measure(s: State): nat {
    Total(s.procs, WORK_LEFT) + if s.reply.None? then 1 else 0
  }

  lemma MoversHaveLess(cs: seq<NamedCheck>, s: State, st: Step)
    requires Inv(cs, s) && Enabled(cs, s, st) && !st.Return?
    ensures WORK_LEFT(Moved(cs, s, st).1) < WORK_LEFT(s.procs[Moved(cs, s, st).0])
  {
  }

  lemma StepsAreFinite(cs: seq<NamedCheck>, s: State, st: Step)
    requires Inv(cs, s) && Enabled(cs, s, st)
    ensures Measure(Apply(cs, s, st)) < Measure(s)
  {
    if !st.Return? {
      var (i, p) := Moved(cs, s, st);
      MoversHaveLess(cs, s, st);
      TotalUpdate(s.procs, i, p, WORK_LEFT);
    }
  }

  /** A check that ends by itself, or is cut off. */
  predicate CanEnd(c: NamedCheck) {
    c.terminates || c.timeout > 0
  }

  function NextStep(cs: seq<NamedCheck>, s: State, i: nat): Step
    requires Sized(cs, s) && i < |cs|
  {
    match s.procs[i].phase
    case Waiting => Spawn
    case Started => if cs[i].timeout > 0 then Launch(i) else RunInline(i)
    case Selecting => if s.procs[i].fired then TimeOut(i) else Fire(i)
    case Got(outcome) => if outcome.Some? then Flag(i) else Record(i)
    case Flagged(_) => Record(i)
    case Recorded(_) => Finish(i)
    case Done(_) => Return
  }

  lemma NotDoneCanMove(cs: seq<NamedCheck>, s: State, i: nat)
    requires Inv(cs, s) && s.reply.None? && i < |cs|
    requires !s.procs[i].phase.Done? && CanEnd(cs[i])
    ensures Enabled(cs, s, NextStep(cs, s, i))
  {
    assert ProcInv(cs[i], s.procs[i]);
  }

  lemma {:induction false} LiveOfDone(procs: seq<Proc>)
    requires forall p :: p in procs ==> p.phase.Done?
    ensures Total(procs, IS_LIVE) == 0
  {
    TotalOfEqual(procs, IS_LIVE);
  }

  lemma SomeoneCanMove(cs: seq<NamedCheck>, s: State) returns (st: Step)
    requires Inv(cs, s) && s.reply.None?
    requires forall i :: 0 <= i < |cs| ==> CanEnd(cs[i])
    ensures Enabled(cs, s, st)
  {
    if s.spawned < |cs| {
      st := Spawn;
    } else if AllDone(cs, s) {
      LiveOfDone(s.procs);
      st := Return;
    } else {
      var i: nat :| i < |cs| && !s.procs[i].phase.Done?;
      NotDoneCanMove(cs, s, i);
      st := NextStep(cs, s, i);
    }
  }

  /** From any reachable state the probe can go on to an answer, if every check can end. */
  lemma {:induction false} ProbeFinishes(cs: seq<NamedCheck>, s: State) returns (steps: seq<Step>, t: State)
    requires Inv(cs, s)
    requires forall i :: 0 <= i < |cs| ==> CanEnd(cs[i])
    ensures Runs(cs, s, steps, t) && t.reply.Some?
    decreases Measure(s)
  {
    if s.reply.Some? {
      steps, t := [], s;
    } else {
      var st := SomeoneCanMove(cs, s);
      StepKeepsInv(cs, s, st);
      StepsAreFinite(cs, s, st);
      var rest;
      rest, t := ProbeFinishes(cs, Apply(cs, s, st));
      steps := [st] + rest;
      assert steps[0] == st && steps[1..] == rest;
    }
  }

  /** No schedule runs forever: a run is at most as long as what was left to do. */
  lemma {:induction false} RunsAreBounded(cs: seq<NamedCheck>, s: State, steps: seq<Step>, t: State)
    requires Inv(cs, s) && Runs(cs, s, steps, t)
    ensures |steps| + Measure(t) <= Measure(s)
    decreases |steps|
  {
    if steps != [] {
      StepKeepsInv(cs, s, steps[0]);
      StepsAreFinite(cs, s, steps[0]);
      RunsAreBounded(cs, Apply(cs, s, steps[0]), steps[1..], t);
    }
  }

  /** One unbounded check that never returns, and no schedule produces an answer. */
  lemma OneHungCheckHangsTheProbe(cs: seq<NamedCheck>, steps: seq<Step>, s: State, i: nat)
    requires Runs(cs, Init(cs), steps, s)
    requires i < |cs| && !CanEnd(cs[i])
    ensures s.reply.None?
  {
    InitInv(cs);
    RunKeepsInv(cs, Init(cs), steps, s);
    assert ProcInv(cs[i], s.procs[i]);
  }

  /** A run that cannot go on. */
  ghost predicate Stuck(cs: seq<NamedCheck>, s: State)
    requires Sized(cs, s)
  {
    forall st :: !Enabled(cs, s, st)
  }

  /** A schedule carried to its end. */
  ghost predicate Ends(cs: seq<NamedCheck>, steps: seq<Step>, s: State) {
    Runs(cs, Init(cs), steps, s) && Sized(cs, s) && Stuck(cs, s)
  }

  /** Whatever the schedule, a run of checks that can all end does not stop before the answer. */
  lemma EndedRunHasAnswered(cs: seq<NamedCheck>, steps: seq<Step>, s: State)
    requires Ends(cs, steps, s)
    requires forall i :: 0 <= i < |cs| ==> CanEnd(cs[i])
    ensures s.reply.Some?
  {
    InitInv(cs);
    RunKeepsInv(cs, Init(cs), steps, s);
    if s.reply.None? {
      var st := SomeoneCanMove(cs, s);
    }
  }

  /** Any state can be run to an end. */
  lemma {:induction false} RunToTheEnd(cs: seq<NamedCheck>, s: State) returns (steps: seq<Step>, t: State)
    requires Inv(cs, s)
    ensures Runs(cs, s, steps, t) && Sized(cs, t) && Stuck(cs, t)
    decreases Measure(s)
  {
    if Stuck(cs, s) {
      steps, t := [], s;
    } else {
      var st :| Enabled(cs, s, st);
      StepKeepsInv(cs, s, st);
      StepsAreFinite(cs, s, st);
      var rest;
      rest, t := RunToTheEnd(cs, Apply(cs, s, st));
      steps := [st] + rest;
      assert steps[0] == st && steps[1..] == rest;
    }
  }

  ghost predicate EveryScheduleAnswers(cs: seq<NamedCheck>) {
    forall steps, s :: Ends(cs, steps, s) ==> s.reply.Some?
  }

  /** Every schedule, carried to its end, answers if and only if every check is bounded or returns;
      with RunsAreBounded, every schedule does come to an end. */
  lemma ProbeEndsIffEveryCheckCanEnd(cs: seq<NamedCheck>)
    ensures EveryScheduleAnswers(cs) <==> forall i :: 0 <= i < |cs| ==> CanEnd(cs[i])
  {
    if forall i :: 0 <= i < |cs| ==> CanEnd(cs[i]) {
      forall steps, s | Ends(cs, steps, s) ensures s.reply.Some? {
        EndedRunHasAnswered(cs, steps, s);
      }
    } else {
      var i: nat :| i < |cs| && !CanEnd(cs[i]);
      InitInv(cs);
      var steps, s := RunToTheEnd(cs, Init(cs));
      OneHungCheckHangsTheProbe(cs, steps, s, i);
      assert Ends(cs, steps, s);
    }
  }

  ghost predicate Answers(cs: seq<NamedCheck>, steps: seq<Step>, s: State) {
    Runs(cs, Init(cs), steps, s) && s.reply.Some?
  }

  /** And if one check can not end, not even a lucky schedule answers. */
  lemma ProbeAnswersIffEveryCheckCanEnd(cs: seq<NamedCheck>)
    ensures (exists steps, s :: Answers(cs, steps, s)) <==> (forall i :: 0 <= i < |cs| ==> CanEnd(cs[i]))
  {
    if forall i :: 0 <= i < |cs| ==> CanEnd(cs[i]) {
      InitInv(cs);
      var steps, s := ProbeFinishes(cs, Init(cs));
      assert Answers(cs, steps, s);
    } else {
      var i: nat :| i < |cs| && !CanEnd(cs[i]);
      forall steps, s | Runs(cs, Init(cs), steps, s) ensures !Answers(cs, steps, s) {
        OneHungCheckHangsTheProbe(cs, steps, s, i);
      }
    }
  }

  // ---------- whatever can come out does ----------

  /** The goroutine has this outcome, or is on its way to it. */
  predicate Headed(c: NamedCheck, outcome: Option<string>, p: Proc) {
    && (HasOutcome(p.phase) ==> p.phase.outcome == outcome)
    && (p.phase.Selecting? && c.terminates && outcome == c.result ==> p.inner.Working? || p.channel != [])
  }

  predicate AllHeaded(cs: seq<NamedCheck>, outcomes: seq<Option<string>>, s: State)
    requires Sized(cs, s) && |outcomes| == |cs|
  {
    forall i :: 0 <= i < |cs| ==> Possible(cs[i], outcomes[i]) && Headed(cs[i], outcomes[i], s.procs[i])
  }

  /** The step that takes a check further towards this outcome. */
  function StepTowards(c: NamedCheck, outcome: Option<string>, p: Proc, i: nat): Step {
    match p.phase
    case Waiting => Spawn
    case Started => if c.timeout > 0 then Launch(i) else RunInline(i)
    case Selecting =>
      if c.terminates && outcome == c.result then (if p.channel == [] then Send(i) else Receive(i))
      else if p.fired then TimeOut(i) else Fire(i)
    case Got(o) => if o.Some? then Flag(i) else Record(i)
    case Flagged(_) => Record(i)
    case Recorded(_) => Finish(i)
    case Done(_) => Return
  }

  lemma StepTowardsIsEnabled(cs: seq<NamedCheck>, outcomes: seq<Option<string>>, s: State, i: nat)
    requires Inv(cs, s) && |outcomes| == |cs| && AllHeaded(cs, outcomes, s)
    requires s.reply.None? && i < |cs| && !s.procs[i].phase.Done? && !s.procs[i].phase.Waiting?
    ensures var st := StepTowards(cs[i], outcomes[i], s.procs[i], i);
            && Enabled(cs, s, st) && !st.Return? && Moved(cs, s, st).0 == i
            && Headed(cs[i], outcomes[i], Moved(cs, s, st).1)
  {
    assert ProcInv(cs[i], s.procs[i]);
  }

  lemma SpawnIsHeaded(cs: seq<NamedCheck>, outcomes: seq<Option<string>>, s: State)
    requires Inv(cs, s) && |outcomes| == |cs| && AllHeaded(cs, outcomes, s) && s.reply.None? && s.spawned < |cs|
    ensures Enabled(cs, s, Spawn) && Headed(cs[s.spawned], outcomes[s.spawned], Moved(cs, s, Spawn).1)
  {
  }

  /** Moving one check further towards its outcome leaves the others headed for theirs. */
  lemma MovedStaysHeaded(cs: seq<NamedCheck>, outcomes: seq<Option<string>>, s: State, st: Step)
    requires Inv(cs, s) && |outcomes| == |cs| && AllHeaded(cs, outcomes, s) && Enabled(cs, s, st)
    requires !st.Return? ==>
               Headed(cs[Moved(cs, s, st).0], outcomes[Moved(cs, s, st).0], Moved(cs, s, st).1)
    ensures Sized(cs, Apply(cs, s, st)) && AllHeaded(cs, outcomes, Apply(cs, s, st))
  {
    StepKeepsProcs(cs, s, st);
  }

  lemma HeadedStep(cs: seq<NamedCheck>, outcomes: seq<Option<string>>, s: State) returns (st: Step)
    requires Inv(cs, s) && |outcomes| == |cs| && AllHeaded(cs, outcomes, s) && s.reply.None?
    ensures Enabled(cs, s, st) && Sized(cs, Apply(cs, s, st)) && AllHeaded(cs, outcomes, Apply(cs, s, st))
  {
    if s.spawned < |cs| {
      st := Spawn;
      SpawnIsHeaded(cs, outcomes, s);
    } else if AllDone(cs, s) {
      LiveOfDone(s.procs);
      st := Return;
    } else {
      var i: nat :| i < |cs| && !s.procs[i].phase.Done?;
      StepTowardsIsEnabled(cs, outcomes, s, i);
      st := StepTowards(cs[i], outcomes[i], s.procs[i], i);
    }
    MovedStaysHeaded(cs, outcomes, s, st);
  }

  lemma {:induction false} HeadedRun(cs: seq<NamedCheck>, outcomes: seq<Option<string>>, s: State)
    returns (steps: seq<Step>, t: State)
    requires Inv(cs, s) && |outcomes| == |cs| && AllHeaded(cs, outcomes, s)
    ensures Runs(cs, s, steps, t) && t.reply.Some? && Sized(cs, t) && AllHeaded(cs, outcomes, t)
    decreases Measure(s)
  {
    if s.reply.Some? {
      steps, t := [], s;
    } else {
      var st := HeadedStep(cs, outcomes, s);
      StepKeepsInv(cs, s, st);
      StepsAreFinite(cs, s, st);
      var rest;
      rest, t := HeadedRun(cs, outcomes, Apply(cs, s, st));
      steps := [st] + rest;
      assert steps[0] == st && steps[1..] == rest;
    }
  }

  /** Just the outcomes that are possible happen: whichever each check may have, its own result or a
      timeout, some schedule answers with all of them. */
  lemma EveryPossibleOutcomeHappens(cs: seq<NamedCheck>, outcomes: seq<Option<string>>)
    returns (steps: seq<Step>, s: State)
    requires |outcomes| == |cs| && forall i :: 0 <= i < |cs| ==> Possible(cs[i], outcomes[i])
    ensures Runs(cs, Init(cs), steps, s) && s.reply.Some? && Sized(cs, s) && AllDone(cs, s)
    ensures forall i :: 0 <= i < |cs| ==> s.procs[i].phase.outcome == outcomes[i]
  {
    InitInv(cs);
    steps, s := HeadedRun(cs, outcomes, Init(cs));
    AnsweredState(cs, steps, s);
    forall i | 0 <= i < |cs| ensures s.procs[i].phase.outcome == outcomes[i] {
      assert Headed(cs[i], outcomes[i], s.procs[i]);
    }
  }

  // ---------- a check over projections ----------

  datatype ProjectionStatus = ProjectionStatus(name: string, status: string, lastError: string)

  const LIVE := "live"
  const STOPPED := "stopped"
  const FAILED := "failed"

  predicate ProjectionDrainReady(status: string) {
    status == LIVE || status == STOPPED
  }

  datatype Drain = Ready | NilProvider | HasFailed(name: string, lastError: string) | Draining(names: seq<string>)

  predicate FirstFailed(statuses: seq<ProjectionStatus>, k: int) {
    0 <= k < |statuses| && statuses[k].status == FAILED && forall j :: 0 <= j < k ==> statuses[j].status != FAILED
  }

  /** The names of the projections that are still catching up, in order. */
  function StillDraining(statuses: seq<ProjectionStatus>): seq<string> {
    if statuses == [] then []
    else
      var n := |statuses| - 1;
      StillDraining(statuses[..n])
      + if ProjectionDrainReady(statuses[n].status) then [] else [statuses[n].name]
  }

  predicate AllReady(statuses: seq<ProjectionStatus>) {
    forall k :: 0 <= k < |statuses| ==> ProjectionDrainReady(statuses[k].status)
  }

  lemma {:induction false} NothingDraining(statuses: seq<ProjectionStatus>)
    ensures StillDraining(statuses) == [] <==> AllReady(statuses)
  {
    if statuses != [] {
      var n := |statuses| - 1;
      NothingDraining(statuses[..n]);
      assert forall k :: 0 <= k < n ==> statuses[..n][k] == statuses[k];
      assert StillDraining(statuses) == []
        <==> StillDraining(statuses[..n]) == [] && ProjectionDrainReady(statuses[n].status);
    }
  }

  /** ProjectionReadinessCheck: the first failed projection is reported even if others before it
      are only draining; otherwise exactly the draining ones are; a missing provider fails. */
  method ProjectionReadinessCheck(provider: Option<seq<ProjectionStatus>>) returns (drain: Drain)
    ensures provider.None? <==> drain.NilProvider?
    ensures provider.Some? ==> (drain.Ready? <==> AllReady(provider.value))
    ensures provider.Some? ==>
              (drain.HasFailed? <==> exists k :: FirstFailed(provider.value, k))
    ensures drain.HasFailed? ==>
              exists k :: FirstFailed(provider.value, k)
                          && drain == HasFailed(provider.value[k].name, provider.value[k].lastError)
    ensures drain.Draining? ==> drain.names == StillDraining(provider.value) != []
  {
    if provider.None? {
      return NilProvider;
    }
    var statuses := provider.value;
    var draining: seq<string> := [];
    for k := 0 to |statuses|
      invariant forall j :: 0 <= j < k ==> statuses[j].status != FAILED
      invariant draining == StillDraining(statuses[..k])
    {
      assert statuses[..k + 1][..k] == statuses[..k];
      if ProjectionDrainReady(statuses[k].status) {
        continue;
      }
      if statuses[k].status == FAILED {
        NothingDraining(statuses);
        assert FirstFailed(statuses, k);
        return HasFailed(statuses[k].name, statuses[k].lastError);
      }
      draining := draining + [statuses[k].name];
    }
    assert statuses[..|statuses|] == statuses;
    NothingDraining(statuses);
    if |draining| > 0 {
      return Draining(draining);
    }
    return Ready;
  }
}

/** The readiness probe: every check in its own goroutine, two critical sections each, and a wait
    group, over all interleavings. */
module Readiness {
  import opened Prelude

  /** A check as one probe sees it: whether its function returns, and what it then returns
      (None is nil, Some the error's text). A timeout of 0 or less is no bound. */
  datatype NamedCheck = NamedCheck(name: string, timeout: int, terminates: bool, result: Option<string>)

  /** The error of a check that is overdue; its text names the check and the bound. */
  function TimedOut(c: NamedCheck): Option<string> {
    Some(c.name + ": timed out")
  }

  datatype Detail = Detail(status: string, error: string)

  function DetailOf(outcome: Option<string>): Detail {
    match outcome
    case None => Detail("ok", "")
    case Some(text) => Detail("fail", text)
  }

  /** One check's goroutine: not spawned yet, before its check, in the select of a bounded check,
      holding the outcome, past the first critical section, past the second, and done. */
  datatype Phase =
    | Waiting
    | Started
    | Selecting
    | Got(outcome: Option<string>)
    | Flagged(outcome: Option<string>)
    | Recorded(outcome: Option<string>)
    | Done(outcome: Option<string>)

  /** The goroutine that runs a bounded check and sends its result. */
  datatype Inner = NoInner | Working | Sent

  datatype Proc = Proc(phase: Phase, inner: Inner, channel: seq<Option<string>>, fired: bool)

  const CHANNEL_CAPACITY := 1

  datatype Reply = Reply(httpStatus: int, checks: map<string, Detail>)

  datatype State = State(
    procs: seq<Proc>,
    spawned: nat,
    waitGroup: int,
    allOK: bool,
    checks: map<string, Detail>,
    reply: Option<Reply>)

  datatype Step =
    | Spawn
    | RunInline(i: nat)
    | Launch(i: nat)
    | Send(i: nat)
    | Fire(i: nat)
    | Receive(i: nat)
    | TimeOut(i: nat)
    | Flag(i: nat)
    | Record(i: nat)
    | Finish(i: nat)
    | Return

  function Fresh(n: nat): seq<Proc> {
    seq(n, i => Proc(Waiting, NoInner, [], false))
  }

  /** Without checks the probe answers at once. */
  function Init(cs: seq<NamedCheck>): State {
    State(Fresh(|cs|), 0, 0, true, map[], if cs == [] then Some(Reply(200, map[])) else None)
  }

  predicate Sized(cs: seq<NamedCheck>, s: State) {
    |s.procs| == |cs| && s.spawned <= |cs|
  }

  predicate Enabled(cs: seq<NamedCheck>, s: State, st: Step)
    requires Sized(cs, s)
  {
    match st
    case Spawn => s.reply.None? && s.spawned < |cs|
    case RunInline(i) => i < |cs| && s.procs[i].phase.Started? && cs[i].timeout <= 0 && cs[i].terminates
    case Launch(i) => i < |cs| && s.procs[i].phase.Started? && cs[i].timeout > 0
    case Send(i) => i < |cs| && s.procs[i].inner.Working? && cs[i].terminates && |s.procs[i].channel| < CHANNEL_CAPACITY
    case Fire(i) => i < |cs| && s.procs[i].phase.Selecting? && !s.procs[i].fired
    case Receive(i) => i < |cs| && s.procs[i].phase.Selecting? && |s.procs[i].channel| > 0
    case TimeOut(i) => i < |cs| && s.procs[i].phase.Selecting? && s.procs[i].fired
    case Flag(i) => i < |cs| && s.procs[i].phase.Got? && s.procs[i].phase.outcome.Some?
    case Record(i) =>
      i < |cs| && (s.procs[i].phase.Flagged? || (s.procs[i].phase.Got? && s.procs[i].phase.outcome.None?))
    case Finish(i) => i < |cs| && s.procs[i].phase.Recorded?
    case Return => s.reply.None? && s.spawned == |cs| && s.waitGroup == 0
  }

  /** The goroutine a step belongs to, and what it leaves of it. */
  function Moved(cs: seq<NamedCheck>, s: State, st: Step): (nat, Proc)
    requires Sized(cs, s) && Enabled(cs, s, st) && !st.Return?
    ensures Moved(cs, s, st).0 < |cs|
  {
    if st.Spawn? then (s.spawned, s.procs[s.spawned].(phase := Started))
    else
      var p := s.procs[st.i];
      (st.i,
       match st
       case RunInline(i) => p.(phase := Got(cs[i].result))
       case Launch(_) => p.(phase := Selecting, inner := Working)
       case Send(i) => p.(inner := Sent, channel := p.channel + [cs[i].result])
       case Fire(_) => p.(fired := true)
       case Receive(_) => p.(phase := Got(p.channel[0]), channel := p.channel[1..])
       case TimeOut(i) => p.(phase := Got(TimedOut(cs[i])))
       case Flag(_) => p.(phase := Flagged(p.phase.outcome))
       case Record(_) => p.(phase := Recorded(p.phase.outcome))
       case Finish(_) => p.(phase := Done(p.phase.outcome)))
  }

  function Apply(cs: seq<NamedCheck>, s: State, st: Step): State
    requires Sized(cs, s) && Enabled(cs, s, st)
  {
    if st.Return? then s.(reply := Some(Reply(if s.allOK then 200 else 503, s.checks)))
    else
      var (i, p) := Moved(cs, s, st);
      var moved := s.(procs := s.procs[i := p]);
      match st
      case Spawn => moved.(spawned := s.spawned + 1, waitGroup := s.waitGroup + 1)
      case Flag(_) => moved.(allOK := false)
      case Record(_) => moved.(checks := s.checks[cs[i].name := DetailOf(p.phase.outcome)])
      case Finish(_) => moved.(waitGroup := s.waitGroup - 1)
      case _ => moved
  }

  predicate Runs(cs: seq<NamedCheck>, s: State, steps: seq<Step>, t: State)
    requires Sized(cs, s)
    decreases |steps|
  {
    if steps == [] then s == t
    else
      && Enabled(cs, s, steps[0]) && Sized(cs, Apply(cs, s, steps[0]))
      && Runs(cs, Apply(cs, s, steps[0]), steps[1..], t)
  }

  // ---------- sums over the goroutines ----------

  function Total(procs: seq<Proc>, weight: Proc -> nat): nat {
    if procs == [] then 0 else weight(procs[0]) + Total(procs[1..], weight)
  }

  lemma {:induction false} TotalUpdate(procs: seq<Proc>, i: nat, p: Proc, weight: Proc -> nat)
    requires i < |procs|
    ensures Total(procs[i := p], weight) + weight(procs[i]) == Total(procs, weight) + weight(p)
  {
    if i == 0 {
      assert procs[0 := p][1..] == procs[1..];
    } else {
      assert procs[i := p][1..] == procs[1..][i - 1 := p];
      TotalUpdate(procs[1..], i - 1, p, weight);
    }
  }

  lemma {:induction false} TotalZero(procs: seq<Proc>, weight: Proc -> nat, i: nat)
    requires i < |procs| && Total(procs, weight) == 0
    ensures weight(procs[i]) == 0
  {
    if i > 0 {
      TotalZero(procs[1..], weight, i - 1);
    }
  }

  lemma {:induction false} TotalOfEqual(procs: seq<Proc>, weight: Proc -> nat)
    requires forall p :: p in procs ==> weight(p) == 0
    ensures Total(procs, weight) == 0
  {
    if procs != [] {
      assert procs[0] in procs;
      TotalOfEqual(procs[1..], weight);
    }
  }

  // ---------- the invariant ----------

  /** Counted by the wait group: spawned and not done. */
  const IS_LIVE: Proc -> nat := (p: Proc) => if p.phase.Waiting? || p.phase.Done? then 0 else 1

  predicate HasOutcome(p: Phase) {
    p.Got? || p.Flagged? || p.Recorded? || p.Done?
  }

  predicate IsRecorded(p: Phase) {
    p.Recorded? || p.Done?
  }

  /** Its failure has been published. */
  predicate HasFlagged(p: Phase) {
    p.Flagged? || (IsRecorded(p) && p.outcome.Some?)
  }

  /** A check's own result, or a timeout where it has a bound. */
  predicate Possible(c: NamedCheck, outcome: Option<string>) {
    (c.terminates && outcome == c.result) || (c.timeout > 0 && outcome == TimedOut(c))
  }

  predicate ProcInv(c: NamedCheck, p: Proc) {
    && (HasOutcome(p.phase) ==> Possible(c, p.phase.outcome))
    && (p.phase.Flagged? ==> p.phase.outcome.Some?)
    && (p.phase.Selecting? ==> c.timeout > 0)
    && (p.phase.Waiting? || p.phase.Started? ==> p.inner.NoInner?)
    && (!p.inner.Sent? ==> p.channel == [])
    && (p.channel != [] ==> p.channel == [c.result] && c.terminates)
  }

  predicate Spawned(cs: seq<NamedCheck>, s: State)
    requires Sized(cs, s)
  {
    forall i :: 0 <= i < |cs| ==> (s.procs[i].phase.Waiting? <==> i >= s.spawned)
  }

  predicate ProcsInv(cs: seq<NamedCheck>, s: State)
    requires Sized(cs, s)
  {
    forall i :: 0 <= i < |cs| ==> ProcInv(cs[i], s.procs[i])
  }

  predicate FlagInv(cs: seq<NamedCheck>, s: State)
    requires Sized(cs, s)
  {
    !s.allOK <==> exists i :: 0 <= i < |cs| && HasFlagged(s.procs[i].phase)
  }

  /** The entry under a name is the outcome of some recorded check of that name. */
  predicate EntryOf(cs: seq<NamedCheck>, s: State, name: string, i: int)
    requires Sized(cs, s)
  {
    && 0 <= i < |cs| && cs[i].name == name && IsRecorded(s.procs[i].phase)
    && name in s.checks && s.checks[name] == DetailOf(s.procs[i].phase.outcome)
  }

  /** Every recorded check has an entry ... */
  predicate NamesInv(cs: seq<NamedCheck>, s: State)
    requires Sized(cs, s)
  {
    forall i :: 0 <= i < |cs| && IsRecorded(s.procs[i].phase) ==> cs[i].name in s.checks
  }

  /** ... and every entry comes from one. */
  ghost predicate EntriesInv(cs: seq<NamedCheck>, s: State)
    requires Sized(cs, s)
  {
    forall name :: name in s.checks ==> exists i :: EntryOf(cs, s, name, i)
  }

  predicate AllDone(cs: seq<NamedCheck>, s: State)
    requires Sized(cs, s)
  {
    forall i :: 0 <= i < |cs| ==> s.procs[i].phase.Done?
  }

  predicate ReplyInv(cs: seq<NamedCheck>, s: State)
    requires Sized(cs, s)
  {
    s.reply.Some? ==> AllDone(cs, s) && s.reply.value == Reply(if s.allOK then 200 else 503, s.checks)
  }

  ghost predicate Inv(cs: seq<NamedCheck>, s: State) {
    && Sized(cs, s)
    && Spawned(cs, s)
    && ProcsInv(cs, s)
    && s.waitGroup == Total(s.procs, IS_LIVE)
    && FlagInv(cs, s)
    && NamesInv(cs, s)
    && EntriesInv(cs, s)
    && ReplyInv(cs, s)
  }

  // ---------- every step keeps it ----------

  lemma InitInv(cs: seq<NamedCheck>)
    ensures Inv(cs, Init(cs))
  {
    TotalOfEqual(Fresh(|cs|), IS_LIVE);
  }

  lemma MovedKeepsProc(cs: seq<NamedCheck>, s: State, st: Step)
    requires Inv(cs, s) && Enabled(cs, s, st) && !st.Return?
    ensures ProcInv(cs[Moved(cs, s, st).0], Moved(cs, s, st).1)
  {
    assert ProcInv(cs[Moved(cs, s, st).0], s.procs[Moved(cs, s, st).0]);
  }

  lemma StepKeepsProcs(cs: seq<NamedCheck>, s: State, st: Step)
    requires Inv(cs, s) && Enabled(cs, s, st)
    ensures Sized(cs, Apply(cs, s, st)) && ProcsInv(cs, Apply(cs, s, st)) && Spawned(cs, Apply(cs, s, st))
  {
    if !st.Return? {
      MovedKeepsProc(cs, s, st);
    }
  }

  lemma StepKeepsCount(cs: seq<NamedCheck>, s: State, st: Step)
    requires Inv(cs, s) && Enabled(cs, s, st)
    ensures Apply(cs, s, st).waitGroup == Total(Apply(cs, s, st).procs, IS_LIVE)
  {
    if !st.Return? {
      var (i, p) := Moved(cs, s, st);
      TotalUpdate(s.procs, i, p, IS_LIVE);
    }
  }

  lemma StepKeepsFlag(cs: seq<NamedCheck>, s: State, st: Step)
    requires Inv(cs, s) && Enabled(cs, s, st)
    requires Sized(cs, Apply(cs, s, st))
    ensures FlagInv(cs, Apply(cs, s, st))
  {
    if !st.Return? {
      var t := Apply(cs, s, st);
      var (i, p) := Moved(cs, s, st);
      assert ProcInv(cs[i], s.procs[i]);
      assert t.procs[i] == p;
      assert HasFlagged(s.procs[i].phase) ==> HasFlagged(p.phase);
      assert st.Flag? || HasFlagged(s.procs[i].phase) == HasFlagged(p.phase);
      if !s.allOK {
        var j :| 0 <= j < |cs| && HasFlagged(s.procs[j].phase);
        assert HasFlagged(t.procs[j].phase);
      }
    }
  }

  lemma StepKeepsNames(cs: seq<NamedCheck>, s: State, st: Step)
    requires Inv(cs, s) && Enabled(cs, s, st)
    requires Sized(cs, Apply(cs, s, st))
    ensures NamesInv(cs, Apply(cs, s, st))
  {
    if !st.Return? {
      var (i, p) := Moved(cs, s, st);
      assert Apply(cs, s, st).procs[i] == p;
      assert IsRecorded(p.phase) ==> st.Record? || IsRecorded(s.procs[i].phase);
    }
  }

  lemma EntryStays(cs: seq<NamedCheck>, s: State, st: Step, name: string, j: int)
    requires Inv(cs, s) && Enabled(cs, s, st) && !st.Return?
    requires Sized(cs, Apply(cs, s, st))
    requires EntryOf(cs, s, name, j) && !(st.Record? && cs[st.i].name == name)
    ensures EntryOf(cs, Apply(cs, s, st), name, j)
  {
    var (i, p) := Moved(cs, s, st);
    if i == j {
      assert p.phase.outcome == s.procs[i].phase.outcome;
    }
  }

  lemma StepKeepsEntries(cs: seq<NamedCheck>, s: State, st: Step)
    requires Inv(cs, s) && Enabled(cs, s, st)
    requires Sized(cs, Apply(cs, s, st))
    ensures EntriesInv(cs, Apply(cs, s, st))
  {
    var t := Apply(cs, s, st);
    if st.Return? {
      forall name | name in t.checks ensures exists j :: EntryOf(cs, t, name, j) {
        var j :| EntryOf(cs, s, name, j);
        assert EntryOf(cs, t, name, j);
      }
    } else {
      forall name | name in t.checks ensures exists j :: EntryOf(cs, t, name, j) {
        if st.Record? && name == cs[st.i].name {
          assert EntryOf(cs, t, name, st.i);
        } else {
          var j :| EntryOf(cs, s, name, j);
          EntryStays(cs, s, st, name, j);
        }
      }
    }
  }

  lemma NoStepAfterDone(cs: seq<NamedCheck>, s: State, st: Step)
    requires Sized(cs, s) && AllDone(cs, s) && Enabled(cs, s, st) && s.reply.Some?
    ensures st.Send?
  {
  }

  lemma StepKeepsReply(cs: seq<NamedCheck>, s: State, st: Step)
    requires Inv(cs, s) && Enabled(cs, s, st)
    requires Sized(cs, Apply(cs, s, st))
    ensures ReplyInv(cs, Apply(cs, s, st))
  {
    if st.Return? {
      forall i | 0 <= i < |cs| ensures s.procs[i].phase.Done? {
        TotalZero(s.procs, IS_LIVE, i);
      }
    } else if s.reply.Some? {
      NoStepAfterDone(cs, s, st);
    }
  }

  lemma StepKeepsInv(cs: seq<NamedCheck>, s: State, st: Step)
    requires Inv(cs, s) && Enabled(cs, s, st)
    ensures Inv(cs, Apply(cs, s, st))
  {
    StepKeepsProcs(cs, s, st);
    StepKeepsCount(cs, s, st);
    StepKeepsFlag(cs, s, st);
    StepKeepsNames(cs, s, st);
    StepKeepsEntries(cs, s, st);
    StepKeepsReply(cs, s, st);
  }

  lemma {:induction false} RunKeepsInv(cs: seq<NamedCheck>, s: State, steps: seq<Step>, t: State)
    requires Inv(cs, s) && Runs(cs, s, steps, t)
    ensures Inv(cs, t)
    decreases |steps|
  {
    if steps != [] {
      StepKeepsInv(cs, s, steps[0]);
      RunKeepsInv(cs, Apply(cs, s, steps[0]), steps[1..], t);
    }
  }
}

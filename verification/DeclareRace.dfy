/** Concurrent Declare calls and dispatches: writers take a mutex and publish a copy through
    an atomic pointer, readers load the pointer without a lock. */
module DeclareRace {
  import opened Prelude
  import opened Postures
  import opened DispatchGating
  import opened GateLaws

  /** Where one Declare call is. */
  datatype Phase =
    | Waiting
    | Locked
    | Loaded(current: Declarations)
    | Built(next: Declarations)
    | Stored
    | Refusing
    | Returned(accepted: bool)

  datatype Writer = Writer(decl: DispatchPosture, phase: Phase)

  /** accepted lists the declarations in the order their tables were published; snapshots are
      the tables dispatches have loaded. */
  datatype State = State(
    table: Declarations,
    holder: Option<nat>,
    writers: map<nat, Writer>,
    accepted: seq<DispatchPosture>,
    snapshots: set<Declarations>)

  datatype Step = Lock(w: nat) | Load(w: nat) | Build(w: nat) | Store(w: nat) | Unlock(w: nat) | DispatchLoad

  predicate InSection(phase: Phase) {
    phase.Locked? || phase.Loaded? || phase.Built? || phase.Stored? || phase.Refusing?
  }

  ghost predicate Enabled(s: State, step: Step) {
    match step
    case Lock(w) => w in s.writers && s.writers[w].phase.Waiting? && s.holder.None?
    case Load(w) => w in s.writers && s.writers[w].phase.Locked?
    case Build(w) => w in s.writers && s.writers[w].phase.Loaded?
    case Store(w) => w in s.writers && s.writers[w].phase.Built?
    case Unlock(w) => w in s.writers && (s.writers[w].phase.Stored? || s.writers[w].phase.Refusing?)
    case DispatchLoad => true
  }

  function Moved(s: State, w: nat, phase: Phase): map<nat, Writer>
    requires w in s.writers
  {
    s.writers[w := s.writers[w].(phase := phase)]
  }

  ghost function Apply(s: State, step: Step): State
    requires Enabled(s, step)
  {
    match step
    case Lock(w) => s.(holder := Some(w), writers := Moved(s, w, Locked))
    case Load(w) => s.(writers := Moved(s, w, Loaded(s.table)))
    case Build(w) =>
      var d, current := s.writers[w].decl, s.writers[w].phase.current;
      s.(writers := Moved(s, w, if Conflicts(current, d) then Refusing else Built(current[KeyOf(d) := RowFor(d)])))
    case Store(w) =>
      s.(table := s.writers[w].phase.next, accepted := s.accepted + [s.writers[w].decl], writers := Moved(s, w, Stored))
    case Unlock(w) => s.(holder := None, writers := Moved(s, w, Returned(s.writers[w].phase.Stored?)))
    case DispatchLoad => s.(snapshots := s.snapshots + {s.table})
  }

  ghost predicate Init(s: State) {
    && s.table == map[] && s.holder == None && s.accepted == [] && s.snapshots == {}
    && forall w | w in s.writers :: s.writers[w].phase == Waiting
  }

  ghost predicate Runs(s: State, steps: seq<Step>, t: State)
    decreases |steps|
  {
    if steps == [] then s == t else Enabled(s, steps[0]) && Runs(Apply(s, steps[0]), steps[1..], t)
  }

  /** What a Declare call in each phase may rely on while others run. */
  ghost predicate WriterOk(s: State, w: nat)
    requires w in s.writers
  {
    var d := s.writers[w].decl;
    && (InSection(s.writers[w].phase) <==> s.holder == Some(w))
    && match s.writers[w].phase
       case Loaded(current) => current == s.table
       case Built(next) => !Conflicts(s.table, d) && next == Declaring(s.table, d)
       case Stored => KeyOf(d) in s.table && s.table[KeyOf(d)] == RowFor(d)
       case Returned(true) => KeyOf(d) in s.table && s.table[KeyOf(d)] == RowFor(d)
       case Returned(false) => Conflicts(s.table, d)
       case Refusing => Conflicts(s.table, d)
       case _ => true
  }

  ghost predicate Inv(s: State) {
    && s.table == TableOf(s.accepted)
    && WellFormed(s.table)
    && AllAccepted(s.accepted)
    && (forall w | w in s.writers :: WriterOk(s, w))
    && (forall t | t in s.snapshots :: Extends(s.table, t) && PrefixTable(s.accepted, t))
  }

  lemma StoreKeepsInv(s: State, w: nat)
    requires Inv(s) && Enabled(s, Store(w))
    ensures Inv(Apply(s, Store(w)))
  {
    var s' := Apply(s, Store(w));
    var d := s.writers[w].decl;
    assert WriterOk(s, w);
    DeclaringLaws(s.table, d);
    assert s'.accepted[..|s.accepted|] == s.accepted;
    forall v | v in s'.writers ensures WriterOk(s', v) {
      assert WriterOk(s, v);
    }
  }

  lemma QuietStepKeepsInv(s: State, step: Step)
    requires Inv(s) && Enabled(s, step) && !step.Store?
    ensures Inv(Apply(s, step))
  {
    var s' := Apply(s, step);
    forall v | v in s'.writers ensures WriterOk(s', v) {
      assert WriterOk(s, v);
      if !step.DispatchLoad? {
        assert WriterOk(s, step.w);
      }
    }
  }

  lemma {:induction false} RunKeepsInv(s: State, steps: seq<Step>, t: State)
    requires Inv(s) && Runs(s, steps, t)
    ensures Inv(t)
    decreases |steps|
  {
    if steps != [] {
      if steps[0].Store? {
        StoreKeepsInv(s, steps[0].w);
      } else {
        QuietStepKeepsInv(s, steps[0]);
      }
      RunKeepsInv(Apply(s, steps[0]), steps[1..], t);
    }
  }

  /** Over every interleaving: the published table is the accepted declarations applied one
      after the other, so no update is lost; an accepted call's row is in the table, with its
      rendered object, and stays; a refused call still conflicts; and every table a dispatch
      ever loaded is one of those states, all of whose rows are still there. */
  lemma DeclareIsLinearizable(s: State, steps: seq<Step>, t: State)
    requires Init(s) && Runs(s, steps, t)
    ensures t.table == TableOf(t.accepted) && AllAccepted(t.accepted) && WellFormed(t.table)
    ensures forall w | w in t.writers ::
              && (t.writers[w].phase == Returned(true) ==>
                    var d := t.writers[w].decl; KeyOf(d) in t.table && t.table[KeyOf(d)] == RowFor(d))
              && (t.writers[w].phase == Returned(false) ==> Conflicts(t.table, t.writers[w].decl))
    ensures forall loaded | loaded in t.snapshots ::
              Extends(t.table, loaded) && PrefixTable(t.accepted, loaded)
  {
    RunKeepsInv(s, steps, t);
    forall w | w in t.writers ensures WriterOk(t, w) {
    }
  }

  /** Two Declare calls are never inside the critical section together. */
  lemma SectionIsExclusive(s: State, steps: seq<Step>, t: State, v: nat, w: nat)
    requires Init(s) && Runs(s, steps, t)
    requires v in t.writers && w in t.writers
    requires InSection(t.writers[v].phase) && InSection(t.writers[w].phase)
    ensures v == w
  {
    RunKeepsInv(s, steps, t);
    assert WriterOk(t, v) && WriterOk(t, w);
  }
}

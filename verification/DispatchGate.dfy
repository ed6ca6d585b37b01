/** The dispatch gate: a copy-on-write declaration table and the one verdict path that both
    dispatchers share. */
module DispatchGating {
  import opened Prelude
  import opened Errors
  import opened Authz
  import opened Postures

  const ACTION_EXECUTE := "execute"
  const ACTION_READ := "read"

  function DispatchObject(kind: string, name: string): string {
    kind + "/" + name
  }

  function DispatchAction(kind: string): string {
    if kind == QUERY_KIND then ACTION_READ else ACTION_EXECUTE
  }

  // ---------- the context of a dispatch ----------

  /** A user actor is spelled by its raw ID, a machine actor with its kind prefix. */
  datatype Actor = UserActor(raw: string) | MachineActor(prefixed: string)

  /** user is "" when the context carries no user ID. */
  datatype Context = Context(user: string, actor: Option<Actor>)

  function DispatchSubject(ctx: Context): string {
    if ctx.user != "" then ctx.user
    else
      match ctx.actor
      case None => ""
      case Some(UserActor(raw)) => raw
      case Some(MachineActor(prefixed)) => prefixed
  }

  /** The question of one dispatch; overlay is the answer of a payload's PolicyContext. */
  function DeriveDispatchRequest(obj: string, action: string, subject: string, overlay: Option<Request>): Request {
    var req := Request(subject, WILDCARD_DOMAIN, Resource(obj, ""), action);
    if overlay.None? then req
    else
      var o := overlay.value;
      Request(
        if o.subject != "" then o.subject else req.subject,
        if o.domain != "" then o.domain else req.domain,
        if o.resource.typ != "" || o.resource.id != "" then o.resource else req.resource,
        if o.action != "" then o.action else req.action)
  }

  // ---------- declarations ----------

  datatype Row = Row(decl: DispatchPosture, obj: string)

  type Declarations = map<Key, Row>

  function RowFor(d: DispatchPosture): Row {
    Row(d, DispatchObject(d.kind, d.name))
  }

  predicate Conflicts(table: Declarations, d: DispatchPosture) {
    KeyOf(d) in table && table[KeyOf(d)].decl != d
  }

  /** One declaration on a table: a conflicting one is refused and changes nothing. */
  function Declaring(table: Declarations, d: DispatchPosture): Declarations {
    if Conflicts(table, d) then table else table[KeyOf(d) := RowFor(d)]
  }

  /** Every row sits under its own key with its own rendered object. */
  predicate WellFormed(table: Declarations) {
    forall k | k in table :: KeyOf(table[k].decl) == k && table[k].obj == DispatchObject(k.kind, k.name)
  }

  // ---------- the verdict ----------

  datatype Judgement =
    | Judged(posture: string, request: Request, decision: Decision, denial: Option<Error>)
    | EngineError(err: Error)

  function DenyDispatch(decision: Decision): Error {
    if decision.reason == ReasonNotAuthenticated then Coded(UNAUTHORIZED, Rejection, Some(ERR_UNAUTHORIZED))
    else Coded(FORBIDDEN, Rejection, Some(ERR_FORBIDDEN))
  }

  const UNDECLARED := Coded(FORBIDDEN, Rejection, Some(ERR_FORBIDDEN))

  /** row is None for a type the gate was never told about. */
  function QuestionOf(kind: string, name: string, row: Option<Row>, subject: string, overlay: Option<Request>)
    : Request
  {
    var obj := if row.Some? && row.value.obj != "" then row.value.obj else DispatchObject(kind, name);
    DeriveDispatchRequest(obj, DispatchAction(kind), subject, overlay)
  }

  function Judge(checker: Option<Checker>, kind: string, name: string, row: Option<Row>,
                 subject: string, overlay: Option<Request>): Judgement
  {
    var req := QuestionOf(kind, name, row, subject, overlay);
    if row.None? then
      Judged(ROLE_GATED, req, Decision(false, ReasonNoMatchingPolicy, []), Some(UNDECLARED))
    else
      var posture := row.value.decl.posture;
      if posture == PUBLIC then Judged(posture, req, Decision(true, ReasonAllowed, []), None)
      else if req.subject == "" then
        var decision := Decision(false, ReasonNotAuthenticated, []);
        Judged(posture, req, decision, Some(DenyDispatch(decision)))
      else if posture == AUTHENTICATED then Judged(posture, req, Decision(true, ReasonAllowed, []), None)
      else if checker.None? then EngineError(Coded("enforcer_nil", Infrastructure, Some(ERR_ENFORCER_NIL)))
      else
        match Decide(checker, req)
        case EngineFailed(err) => EngineError(err)
        case Answered(decision) =>
          Judged(posture, req, decision, if decision.allowed then None else Some(DenyDispatch(decision)))
  }

  datatype Outcome = Outcome(kind: string, name: string, posture: string, request: Request,
                             decision: Decision, audit: bool)

  /** What the dispatch is answered: audit mode lets denials pass, never engine errors. */
  function Settled(auditOnly: bool, j: Judgement): Option<Error> {
    match j
    case EngineError(err) => Some(err)
    case Judged(_, _, _, denial) => if auditOnly then None else denial
  }

  /** What the observer is handed. */
  function Observed(auditOnly: bool, kind: string, name: string, j: Judgement): seq<Outcome> {
    match j
    case EngineError(_) => []
    case Judged(posture, req, decision, denial) =>
      [Outcome(kind, name, posture, req, decision, denial.Some? && auditOnly)]
  }

  /** One published declaration table. */
  class Table {
    var rows: Declarations

    constructor (rows: Declarations)
      ensures this.rows == rows
    {
      this.rows := rows;
    }
  }

  class DispatchGate {
    var published: Table?
    const checker: Option<Checker>
    const auditOnly: bool
    const observes: bool
    var observed: seq<Outcome>

    constructor (checker: Option<Checker>, auditOnly: bool, observes: bool)
      ensures published == null && observed == []
      ensures this.checker == checker && this.auditOnly == auditOnly && this.observes == observes
    {
      this.checker := checker;
      this.auditOnly := auditOnly;
      this.observes := observes;
      published := null;
      observed := [];
    }

    ghost function Declared(): Declarations
      reads this, published
    {
      if published == null then map[] else published.rows
    }

    /** Copy, write into the copy, publish: a table that was ever published is never written,
        so a dispatch that loaded it keeps reading the same rows. */
    method Declare(d: DispatchPosture) returns (err: Option<Error>)
      modifies this`published
      ensures err.Some? <==> Conflicts(old(Declared()), d)
      ensures err.Some? ==> published == old(published)
      ensures err.None? ==> published != null && fresh(published)
      ensures Declared() == Declaring(old(Declared()), d)
      ensures old(published) != null ==> old(published).rows == old(Declared())
    {
      var current: Declarations := if published == null then map[] else published.rows;
      if KeyOf(d) in current && current[KeyOf(d)].decl != d {
        return Some(Coded("invalid_argument", Rejection, None));
      }
      var next := new Table(map[]);
      next.rows := current;
      next.rows := next.rows[KeyOf(d) := Row(d, DispatchObject(d.kind, d.name))];
      published := next;
      return None;
    }

    /** The enforcing middleware's check for one dispatch. */
    method Authorize(ctx: Context, kind: string, name: string, overlay: Option<Request>) returns (err: Option<Error>)
      modifies this`observed
      ensures var key := Key(kind, name);
              var row := if key in old(Declared()) then Some(old(Declared())[key]) else None;
              var j := Judge(checker, kind, name, row, DispatchSubject(ctx), overlay);
              && err == Settled(auditOnly, j)
              && observed == old(observed) + (if observes then Observed(auditOnly, kind, name, j) else [])
    {
      var table: Declarations := if published == null then map[] else published.rows;
      var row := if Key(kind, name) in table then Some(table[Key(kind, name)]) else None;
      err := AuthorizeRow(ctx, kind, name, overlay, row);
    }

    /** AuthorizeCommand and AuthorizeQuery: no table, every type is role-gated. */
    method AuthorizeUndeclaring(ctx: Context, kind: string, name: string, overlay: Option<Request>)
      returns (err: Option<Error>)
      modifies this`observed
      ensures var j := Judge(checker, kind, name, Some(ALL_GATED), DispatchSubject(ctx), overlay);
              && err == Settled(auditOnly, j)
              && observed == old(observed) + (if observes then Observed(auditOnly, kind, name, j) else [])
    {
      err := AuthorizeRow(ctx, kind, name, overlay, Some(ALL_GATED));
    }

    method AuthorizeRow(ctx: Context, kind: string, name: string, overlay: Option<Request>, row: Option<Row>)
      returns (err: Option<Error>)
      modifies this`observed
      ensures var j := Judge(checker, kind, name, row, DispatchSubject(ctx), overlay);
              && err == Settled(auditOnly, j)
              && observed == old(observed) + (if observes then Observed(auditOnly, kind, name, j) else [])
    {
      var posture := if row.Some? then row.value.decl.posture else ROLE_GATED;
      var obj := if row.Some? then row.value.obj else "";
      if obj == "" {
        obj := DispatchObject(kind, name);
      }
      var req := DeriveDispatchRequest(obj, DispatchAction(kind), DispatchSubject(ctx), overlay);
      if row.None? {
        err := Settle(kind, name, ROLE_GATED, req, Decision(false, ReasonNoMatchingPolicy, []), Some(UNDECLARED));
        return;
      }
      if posture == PUBLIC {
        err := Settle(kind, name, posture, req, Decision(true, ReasonAllowed, []), None);
        return;
      }
      if req.subject == "" {
        var refused := Decision(false, ReasonNotAuthenticated, []);
        err := Settle(kind, name, posture, req, refused, Some(DenyDispatch(refused)));
        return;
      }
      if posture == AUTHENTICATED {
        err := Settle(kind, name, posture, req, Decision(true, ReasonAllowed, []), None);
        return;
      }
      if checker.None? {
        return Some(Coded("enforcer_nil", Infrastructure, Some(ERR_ENFORCER_NIL)));
      }
      var answer := Decide(checker, req);
      if answer.EngineFailed? {
        return Some(answer.err);
      }
      var denial := None;
      if !answer.decision.allowed {
        denial := Some(DenyDispatch(answer.decision));
      }
      err := Settle(kind, name, posture, req, answer.decision, denial);
    }

    method Settle(kind: string, name: string, posture: string, req: Request, decision: Decision, denial: Option<Error>)
      returns (err: Option<Error>)
      modifies this`observed
      ensures var j := Judged(posture, req, decision, denial);
              && err == Settled(auditOnly, j)
              && observed == old(observed) + (if observes then Observed(auditOnly, kind, name, j) else [])
    {
      if denial.None? {
        if observes {
          observed := observed + [Outcome(kind, name, posture, req, decision, false)];
        }
        return None;
      }
      if !auditOnly {
        if observes {
          observed := observed + [Outcome(kind, name, posture, req, decision, false)];
        }
        return denial;
      }
      if observes {
        observed := observed + [Outcome(kind, name, posture, req, decision, true)];
      }
      return None;
    }

    /** The declared postures in canonical order, whatever order the map is walked in. */
    method Manifest() returns (out: seq<DispatchPosture>)
      requires WellFormed(Declared())
      ensures StrictlyOrdered(out)
      ensures forall d :: d in out <==> d in Declarees(Declared())
    {
      var table: Declarations := if published == null then map[] else published.rows;
      var listed := ListRows(table);
      var rows := new DispatchPosture[|listed|](i requires 0 <= i < |listed| => listed[i]);
      assert rows[..] == listed;
      SortDispatchPostures(rows);
      out := rows[..];
      SortedIsOrdered(listed);
      SortedIsPermutation(listed);
      assert forall d :: d in out <==> d in multiset(out);
      assert forall d :: d in listed <==> d in multiset(listed);
    }

    /** One error naming every problem, or none. */
    method Validate() returns (problems: nat)
      requires WellFormed(Declared())
      ensures problems == 0 <==>
              Declared() != map[] && forall d | d in Declarees(Declared()) :: Enforceable(d.posture) && !Blank(d.why)
    {
      var rows := Manifest();
      problems := 0;
      if |rows| == 0 {
        problems := problems + 1;
      }
      for i := 0 to |rows|
        invariant problems == 0 <==>
                  |rows| > 0 && forall k | 0 <= k < i :: Enforceable(rows[k].posture) && !Blank(rows[k].why)
      {
        if !ValidPosture(rows[i].posture) || rows[i].posture == UNGATED {
          problems := problems + 1;
        }
        if Blank(rows[i].why) {
          problems := problems + 1;
        }
      }
      ManifestCovers(Declared(), rows);
    }
  }

  const ALL_GATED := Row(DispatchPosture("", "", ROLE_GATED, ""), "")

  predicate ValidPosture(p: string) {
    p == PUBLIC || p == AUTHENTICATED || p == ROLE_GATED || p == UNGATED
  }

  predicate Enforceable(p: string) {
    p == PUBLIC || p == AUTHENTICATED || p == ROLE_GATED
  }

  /** unicode.IsSpace: the characters of Unicode's White_Space property. */
  predicate IsSpace(c: char) {
    || '\t' <= c <= '\r'
    || c == ' ' || c == '\U{85}' || c == '\U{A0}' || c == '\U{1680}'
    || '\U{2000}' <= c <= '\U{200A}'
    || c == '\U{2028}' || c == '\U{2029}' || c == '\U{202F}' || c == '\U{205F}' || c == '\U{3000}'
  }

  /** strings.TrimSpace leaves nothing. */
  predicate Blank(s: string) {
    forall c | c in s :: IsSpace(c)
  }

  /** The 25 of them, one by one. */
  lemma SpacesAreWhiteSpace(c: char)
    ensures IsSpace(c) <==>
            c as int in {0x9, 0xA, 0xB, 0xC, 0xD, 0x20, 0x85, 0xA0, 0x1680, 0x2000, 0x2001, 0x2002, 0x2003, 0x2004,
                         0x2005, 0x2006, 0x2007, 0x2008, 0x2009, 0x200A, 0x2028, 0x2029, 0x202F, 0x205F, 0x3000}
  {
  }

  ghost function Declarees(table: Declarations): set<DispatchPosture> {
    set k | k in table :: table[k].decl
  }

  /** The map walk of Manifest: any order of the keys. */
  method ListRows(table: Declarations) returns (out: seq<DispatchPosture>)
    requires WellFormed(table)
    ensures DistinctKeys(out)
    ensures forall d :: d in out <==> d in Declarees(table)
  {
    out := [];
    var left := table.Keys;
    while left != {}
      invariant left <= table.Keys
      invariant forall d :: d in out <==> d in Declarees(table) && KeyOf(d) !in left
      invariant DistinctKeys(out)
      decreases left
    {
      var k :| k in left;
      assert table[k].decl in Declarees(table);
      out := out + [table[k].decl];
      left := left - {k};
    }
  }

  lemma ManifestCovers(table: Declarations, rows: seq<DispatchPosture>)
    requires forall d :: d in rows <==> d in Declarees(table)
    ensures |rows| > 0 <==> table != map[]
    ensures (forall k | 0 <= k < |rows| :: Enforceable(rows[k].posture) && !Blank(rows[k].why))
            <==> (forall d | d in Declarees(table) :: Enforceable(d.posture) && !Blank(d.why))
  {
    if |rows| > 0 {
      assert rows[0] in Declarees(table);
    }
    if table != map[] {
      var k :| k in table;
      assert table[k].decl in Declarees(table);
      assert table[k].decl in rows;
    }
    if forall k | 0 <= k < |rows| :: Enforceable(rows[k].posture) && !Blank(rows[k].why) {
      forall d | d in Declarees(table) ensures Enforceable(d.posture) && !Blank(d.why) {
        assert d in rows;
      }
    }
    if forall d | d in Declarees(table) :: Enforceable(d.posture) && !Blank(d.why) {
      forall k | 0 <= k < |rows| ensures Enforceable(rows[k].posture) && !Blank(rows[k].why) {
        assert rows[k] in rows;
      }
    }
  }
}

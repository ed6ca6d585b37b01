/** The conformance suite of the dispatch gate: what it refuses to test, what it probes, and
    what a passing probe says about the gate behind it. */
module CommandSuites {
  import opened Prelude
  import opened Errors
  import opened Authz
  import opened Postures
  import opened DispatchGating
  import opened GateLaws

  type Dispatch = Context -> Option<Error>
  type Identity = Context -> Context

  datatype DispatchCase = DispatchCase(decl: DispatchPosture, dispatch: Option<Dispatch>)

  datatype CommandSuite = CommandSuite(
    cases: seq<DispatchCase>,
    anonymous: Option<Identity>,
    unprivileged: Option<Identity>,
    privileged: Option<Identity>)

  const BACKGROUND := Context("", None)

  function AsUser(user: string): Identity {
    (ctx: Context) => ctx.(user := user)
  }

  function NoIdentity(): Identity {
    (ctx: Context) => ctx
  }

  /** The two ready-made identities are what they are called, on any background context that
      carries no actor of its own. */
  lemma StandardIdentities(user: string)
    ensures DispatchSubject(NoIdentity()(BACKGROUND)) == ""
    ensures DispatchSubject(AsUser(user)(BACKGROUND)) == user
  {
  }

  datatype Problem =
    | CasesEmpty | AnonymousNil | DispatchNil | WhyEmpty | PostureUnknown | UnprivilegedNil | PrivilegedNil

  datatype Needs = Needs(unprivileged: bool, privileged: bool) | Unprovable(problem: Problem)

  function ValidateCase(c: DispatchCase): Needs {
    if c.dispatch.None? then Unprovable(DispatchNil)
    else if Blank(c.decl.why) then Unprovable(WhyEmpty)
    else if c.decl.posture == PUBLIC then Needs(false, false)
    else if c.decl.posture == AUTHENTICATED then Needs(false, true)
    else if c.decl.posture == ROLE_GATED then Needs(true, true)
    else Unprovable(PostureUnknown)
  }

  predicate Provable(c: DispatchCase) {
    c.dispatch.Some? && !Blank(c.decl.why) && Enforceable(c.decl.posture)
  }

  /** Every case can be probed with identities that are there. */
  ghost predicate Testable(s: CommandSuite) {
    && s.cases != [] && s.anonymous.Some?
    && forall c | c in s.cases ::
         && Provable(c)
         && (c.decl.posture == ROLE_GATED ==> s.unprivileged.Some?)
         && (c.decl.posture != PUBLIC ==> s.privileged.Some?)
  }

  method Verify(s: CommandSuite) returns (err: Option<Problem>)
    ensures err == None <==> Testable(s)
    ensures s.cases == [] ==> err == Some(CasesEmpty)
    ensures s.cases != [] && s.anonymous.None? ==> err == Some(AnonymousNil)
    ensures err == Some(UnprivilegedNil) ==>
              s.unprivileged.None? && exists c :: c in s.cases && c.decl.posture == ROLE_GATED
    ensures err == Some(PrivilegedNil) ==>
              s.privileged.None? && exists c :: c in s.cases && c.decl.posture in {AUTHENTICATED, ROLE_GATED}
  {
    if |s.cases| == 0 {
      return Some(CasesEmpty);
    }
    if s.anonymous.None? {
      return Some(AnonymousNil);
    }
    var wantsUnprivileged, wantsPrivileged := false, false;
    for i := 0 to |s.cases|
      invariant forall k | 0 <= k < i :: Provable(s.cases[k])
      invariant wantsUnprivileged <==> exists k :: 0 <= k < i && s.cases[k].decl.posture == ROLE_GATED
      invariant wantsPrivileged <==> exists k :: 0 <= k < i && s.cases[k].decl.posture in {AUTHENTICATED, ROLE_GATED}
    {
      var needs := ValidateCase(s.cases[i]);
      assert s.cases[i] in s.cases;
      if needs.Unprovable? {
        return Some(needs.problem);
      }
      wantsUnprivileged := wantsUnprivileged || needs.unprivileged;
      wantsPrivileged := wantsPrivileged || needs.privileged;
    }
    assert forall c :: c in s.cases <==> exists k :: 0 <= k < |s.cases| && s.cases[k] == c;
    if wantsUnprivileged && s.unprivileged.None? {
      return Some(UnprivilegedNil);
    }
    if wantsPrivileged && s.privileged.None? {
      return Some(PrivilegedNil);
    }
    return None;
  }

  // ---------- the probe ----------

  datatype Report = Refused(actor: string) | Admitted(actor: string) | WrongClass(actor: string) | CannotProbe

  /** A nil identity or dispatch is a nil function call: a panic. */
  datatype Probed = Reports(reports: seq<Report>) | NilCall

  method RequireAllowed(actor: string, err: Option<Error>) returns (reports: seq<Report>)
    ensures reports == [] <==> err.None?
  {
    return if err.Some? then [Refused(actor)] else [];
  }

  method RequireClass(actor: string, err: Option<Error>, code: string) returns (reports: seq<Report>)
    requires code != ""
    ensures reports == [] <==> Carries(err, code)
  {
    if err.None? {
      return [Admitted(actor)];
    }
    var carries := CarriesCode(err, code);
    return if carries then [] else [WrongClass(actor)];
  }

  /** The matrix for one declaration holds: each identity gets the class of answer the posture
      names. */
  ghost predicate MatrixHolds(s: CommandSuite, c: DispatchCase)
    requires Testable(s) && c in s.cases
  {
    var anonymous := c.dispatch.value(s.anonymous.value(BACKGROUND));
    if c.decl.posture == PUBLIC then
      anonymous == None && (s.privileged.Some? ==> c.dispatch.value(s.privileged.value(BACKGROUND)) == None)
    else if c.decl.posture == AUTHENTICATED then
      Carries(anonymous, UNAUTHORIZED) && c.dispatch.value(s.privileged.value(BACKGROUND)) == None
    else
      && Carries(anonymous, UNAUTHORIZED)
      && Carries(c.dispatch.value(s.unprivileged.value(BACKGROUND)), FORBIDDEN)
      && c.dispatch.value(s.privileged.value(BACKGROUND)) == None
  }

  method Probe(s: CommandSuite, c: DispatchCase) returns (outcome: Probed)
    ensures Testable(s) && c in s.cases ==> outcome.Reports? && (outcome.reports == [] <==> MatrixHolds(s, c))
    ensures outcome.NilCall? ==>
              s.anonymous.None? || c.dispatch.None? || s.privileged.None? || s.unprivileged.None?
    ensures c.dispatch.Some? && s.anonymous.Some? && !Enforceable(c.decl.posture) ==> outcome == Reports([CannotProbe])
  {
    if s.anonymous.None? || c.dispatch.None? {
      return NilCall;
    }
    var dispatch := c.dispatch.value;
    var anonErr := dispatch(s.anonymous.value(BACKGROUND));
    var first, second, third := [], [], [];
    if c.decl.posture == PUBLIC {
      first := RequireAllowed("anonymous", anonErr);
      if s.privileged.Some? {
        second := RequireAllowed("privileged", dispatch(s.privileged.value(BACKGROUND)));
      }
    } else if c.decl.posture == AUTHENTICATED {
      first := RequireClass("anonymous", anonErr, UNAUTHORIZED);
      if s.privileged.None? {
        return NilCall;
      }
      second := RequireAllowed("privileged", dispatch(s.privileged.value(BACKGROUND)));
    } else if c.decl.posture == ROLE_GATED {
      first := RequireClass("anonymous", anonErr, UNAUTHORIZED);
      if s.unprivileged.None? || s.privileged.None? {
        return NilCall;
      }
      second := RequireClass("unprivileged", dispatch(s.unprivileged.value(BACKGROUND)), FORBIDDEN);
      third := RequireAllowed("privileged", dispatch(s.privileged.value(BACKGROUND)));
    } else {
      first := [CannotProbe];
    }
    return Reports(first + second + third);
  }

  // ---------- the suite against a gate ----------

  /** What the payload's PolicyContext answers, which may depend on the context it is asked in;
      None for a payload that has none. */
  type Overlay = Context -> Option<Request>

  /** The row a table has for a type, if any. */
  function RowOf(table: Declarations, kind: string, name: string): Option<Row> {
    if Key(kind, name) in table then Some(table[Key(kind, name)]) else None
  }

  /** One dispatch of a type behind a gate whose handler always succeeds. */
  function BehindGate(checker: Option<Checker>, auditOnly: bool, table: Declarations,
                      kind: string, name: string, overlay: Overlay): Dispatch
  {
    (ctx: Context) =>
      Settled(auditOnly, Judge(checker, kind, name, RowOf(table, kind, name), DispatchSubject(ctx), overlay(ctx)))
  }

  /** The case dispatches its own type through this gate. */
  ghost predicate Wired(c: DispatchCase, checker: Option<Checker>, auditOnly: bool, table: Declarations,
                        overlay: Overlay)
  {
    c.dispatch.Some? &&
    forall ctx :: c.dispatch.value(ctx) == BehindGate(checker, auditOnly, table, c.decl.kind, c.decl.name, overlay)(ctx)
  }

  /** Whatever else the payload says about its question, it leaves the subject to the context. */
  predicate NamesNoSubject(overlay: Overlay, ctx: Context) {
    overlay(ctx).Some? ==> overlay(ctx).value.subject == ""
  }

  /** The question the gate asks about the case for a caller. */
  function AskedFor(c: DispatchCase, overlay: Overlay, ctx: Context): Request {
    QuestionOf(c.decl.kind, c.decl.name, Some(RowFor(c.decl)), DispatchSubject(ctx), overlay(ctx))
  }

  ghost predicate IsDenied(checker: Option<Checker>, req: Request) {
    checker.Some? && Decide(checker, req).Answered? && !Decide(checker, req).decision.allowed
  }

  /** Anonymous has no subject; unprivileged has one the engine denies, privileged one it allows,
      each asked the case's own question. */
  ghost predicate HonestIdentities(s: CommandSuite, c: DispatchCase, checker: Option<Checker>, overlay: Overlay) {
    && (s.anonymous.Some? ==>
          var ctx := s.anonymous.value(BACKGROUND);
          DispatchSubject(ctx) == "" && NamesNoSubject(overlay, ctx))
    && (s.unprivileged.Some? ==>
          var ctx := s.unprivileged.value(BACKGROUND);
          DispatchSubject(ctx) != "" && NamesNoSubject(overlay, ctx) && IsDenied(checker, AskedFor(c, overlay, ctx)))
    && (s.privileged.Some? ==>
          var ctx := s.privileged.value(BACKGROUND);
          && DispatchSubject(ctx) != "" && NamesNoSubject(overlay, ctx)
          && EngineAllows(checker, AskedFor(c, overlay, ctx)))
  }

  /** Completeness: against an enforcing gate declared as the case says, a verified suite with
      honest identities reports nothing. */
  lemma FaithfulGatePasses(s: CommandSuite, c: DispatchCase, checker: Option<Checker>, table: Declarations,
                           overlay: Overlay)
    requires Testable(s) && c in s.cases
    requires Wired(c, checker, false, table, overlay)
    requires Key(c.decl.kind, c.decl.name) in table && table[Key(c.decl.kind, c.decl.name)] == RowFor(c.decl)
    requires HonestIdentities(s, c, checker, overlay)
    ensures MatrixHolds(s, c)
  {
    var kind, name, row := c.decl.kind, c.decl.name, Some(RowFor(c.decl));
    var anonymous := s.anonymous.value(BACKGROUND);
    SharedCodes();
    RefusalClass(checker, kind, name, row, DispatchSubject(anonymous), overlay(anonymous));
    AdmissionRule(checker, kind, name, row, DispatchSubject(anonymous), overlay(anonymous));
    if s.privileged.Some? {
      var privileged := s.privileged.value(BACKGROUND);
      AdmissionRule(checker, kind, name, row, DispatchSubject(privileged), overlay(privileged));
    }
    if s.unprivileged.Some? {
      var unprivileged := s.unprivileged.value(BACKGROUND);
      RefusalClass(checker, kind, name, row, DispatchSubject(unprivileged), overlay(unprivileged));
    }
  }

  /** The dispatch did not reach a verdict: the engine failed. */
  ghost predicate EngineFails(checker: Option<Checker>, table: Declarations, kind: string, name: string,
                              overlay: Overlay, ctx: Context)
  {
    Judge(checker, kind, name, RowOf(table, kind, name), DispatchSubject(ctx), overlay(ctx)).EngineError?
  }

  /** What each refusal of a gate can be for one type, whoever dispatches. */
  lemma GateAnswers(checker: Option<Checker>, auditOnly: bool, table: Declarations, kind: string, name: string,
                    overlay: Overlay, ctx: Context)
    ensures RowOf(table, kind, name).None? ==>
              if auditOnly then BehindGate(checker, auditOnly, table, kind, name, overlay)(ctx) == None
              else VerdictOf(BehindGate(checker, auditOnly, table, kind, name, overlay)(ctx)) == Forbidden
    ensures RowOf(table, kind, name).None? ==>
              !Carries(BehindGate(checker, auditOnly, table, kind, name, overlay)(ctx), UNAUTHORIZED)
    ensures RowOf(table, kind, name).Some? && RowOf(table, kind, name).value.decl.posture == PUBLIC ==>
              BehindGate(checker, auditOnly, table, kind, name, overlay)(ctx) == None
    ensures RowOf(table, kind, name).Some? && RowOf(table, kind, name).value.decl.posture == AUTHENTICATED ==>
              !Carries(BehindGate(checker, auditOnly, table, kind, name, overlay)(ctx), FORBIDDEN)
    ensures auditOnly ==>
              BehindGate(checker, auditOnly, table, kind, name, overlay)(ctx) == None
              || EngineFails(checker, table, kind, name, overlay, ctx)
  {
    SharedCodes();
  }

  /** Soundness: a passing RoleGated case, whatever identities and payload it used, proves that
      the type is declared, that it is neither public nor merely authenticated, and - when the
      engine's failures do not pass for denials - that the gate is not in audit mode. */
  lemma PassingRoleGatedCaseIsGated(s: CommandSuite, c: DispatchCase, checker: Option<Checker>, auditOnly: bool,
                                    table: Declarations, overlay: Overlay)
    requires Testable(s) && c in s.cases && c.decl.posture == ROLE_GATED
    requires Wired(c, checker, auditOnly, table, overlay)
    requires MatrixHolds(s, c)
    ensures var row := RowOf(table, c.decl.kind, c.decl.name);
            && row.Some? && row.value.decl.posture != PUBLIC && row.value.decl.posture != AUTHENTICATED
            && (auditOnly ==>
                  EngineFails(checker, table, c.decl.kind, c.decl.name, overlay, s.anonymous.value(BACKGROUND)))
  {
    GateAnswers(checker, auditOnly, table, c.decl.kind, c.decl.name, overlay, s.anonymous.value(BACKGROUND));
    GateAnswers(checker, auditOnly, table, c.decl.kind, c.decl.name, overlay, s.unprivileged.value(BACKGROUND));
  }

  /** With an anonymous identity that really has no subject, from the context or the payload, the
      engine is never asked for it, so the passing case rules audit mode out for good. */
  lemma PassingRoleGatedCaseIsEnforced(s: CommandSuite, c: DispatchCase, checker: Option<Checker>, auditOnly: bool,
                                       table: Declarations, overlay: Overlay)
    requires Testable(s) && c in s.cases && c.decl.posture == ROLE_GATED
    requires Wired(c, checker, auditOnly, table, overlay)
    requires DispatchSubject(s.anonymous.value(BACKGROUND)) == ""
    requires NamesNoSubject(overlay, s.anonymous.value(BACKGROUND))
    requires MatrixHolds(s, c)
    ensures !auditOnly
  {
    var anonymous := s.anonymous.value(BACKGROUND);
    PassingRoleGatedCaseIsGated(s, c, checker, auditOnly, table, overlay);
    RefusalClass(checker, c.decl.kind, c.decl.name, RowOf(table, c.decl.kind, c.decl.name),
                 DispatchSubject(anonymous), overlay(anonymous));
  }

  /** An undeclared type is never refused as unauthenticated, so it fails the Authenticated and
      RoleGated matrices behind any gate, and the Public one exactly when the gate enforces. */
  lemma UndeclaredTypeFails(s: CommandSuite, c: DispatchCase, checker: Option<Checker>, auditOnly: bool,
                            table: Declarations, overlay: Overlay)
    requires Testable(s) && c in s.cases
    requires Wired(c, checker, auditOnly, table, overlay)
    requires Key(c.decl.kind, c.decl.name) !in table
    ensures MatrixHolds(s, c) <==> auditOnly && c.decl.posture == PUBLIC
  {
    GateAnswers(checker, auditOnly, table, c.decl.kind, c.decl.name, overlay, s.anonymous.value(BACKGROUND));
    if s.privileged.Some? {
      GateAnswers(checker, auditOnly, table, c.decl.kind, c.decl.name, overlay, s.privileged.value(BACKGROUND));
    }
  }
}

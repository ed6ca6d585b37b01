/** What the gate's verdict path promises, for every declaration, caller and engine. */
module GateLaws {
  import opened Prelude
  import opened Errors
  import opened Authz
  import opened Postures
  import opened DispatchGating

  ghost predicate EngineAllows(checker: Option<Checker>, req: Request) {
    checker.Some? && Decide(checker, req).Answered? && Decide(checker, req).decision.allowed
  }

  /** An enforcing gate lets a dispatch through exactly when its type is declared and its
      posture is met: public asks nothing, authenticated a subject, everything else the engine. */
  lemma AdmissionRule(checker: Option<Checker>, kind: string, name: string, row: Option<Row>,
                      subject: string, overlay: Option<Request>)
    ensures var req := QuestionOf(kind, name, row, subject, overlay);
            Settled(false, Judge(checker, kind, name, row, subject, overlay)) == None
            <==> row.Some? && (row.value.decl.posture == PUBLIC
                               || (req.subject != "" && (row.value.decl.posture == AUTHENTICATED
                                                         || EngineAllows(checker, req))))
  {
  }

  /** The question of a dispatch, part by part: the payload's own PolicyContext supplies the parts it
      fills in; otherwise the subject is the user, else the actor, a user by its ID and a machine with
      its prefix, the domain is any, the resource is "kind/name", and a query reads while everything
      else executes. */
  ghost predicate Asks(ctx: Context, kind: string, name: string, overlay: Option<Request>,
                       subject: string, domain: string, resource: string, action: string)
  {
    var o := if overlay.Some? then overlay.value else Request("", "", Resource("", ""), "");
    && (o.subject != "" ==> subject == o.subject)
    && (o.subject == "" && ctx.user != "" ==> subject == ctx.user)
    && (o.subject == "" && ctx.user == "" && ctx.actor.None? ==> subject == "")
    && (o.subject == "" && ctx.user == "" && ctx.actor.Some? && ctx.actor.value.UserActor? ==>
          subject == ctx.actor.value.raw)
    && (o.subject == "" && ctx.user == "" && ctx.actor.Some? && ctx.actor.value.MachineActor? ==>
          subject == ctx.actor.value.prefixed)
    && domain == (if o.domain != "" then o.domain else "*")
    && (o.resource.typ == "" && o.resource.id == "" ==> resource == kind + "/" + name)
    && (o.resource.typ != "" && o.resource.id == "" ==> resource == o.resource.typ)
    && (o.resource.typ == "" && o.resource.id != "" ==> resource == o.resource.id)
    && (o.resource.typ != "" && o.resource.id != "" ==> resource == o.resource.typ + ":" + o.resource.id)
    && (o.action != "" ==> action == o.action)
    && (o.action == "" && kind == "query" ==> action == "read")
    && (o.action == "" && kind != "query" ==> action == "execute")
  }

  lemma QuestionIsAsked(ctx: Context, kind: string, name: string, row: Option<Row>, overlay: Option<Request>,
                        subject: string, domain: string, resource: string, action: string)
    requires Asks(ctx, kind, name, overlay, subject, domain, resource, action)
    requires row.Some? ==> row.value.obj == DispatchObject(kind, name)
    ensures var req := QuestionOf(kind, name, row, DispatchSubject(ctx), overlay);
            && req.subject == subject && req.domain == domain && req.action == action
            && ResourceText(req.resource) == resource
            && req == QuestionOf(kind, name, None, DispatchSubject(ctx), overlay)
  {
    assert |DispatchObject(kind, name)| > 0;
  }

  ghost predicate SaysYes(checker: Option<Checker>, subject: string, domain: string, resource: string, action: string) {
    checker.Some? && checker.value(subject, domain, resource, action).Checked?
    && checker.value(subject, domain, resource, action).allowed
  }

  /** What an enforcing gate makes of a declared dispatch, in terms of that question: a public one
      passes, an authenticated one with a subject, any other if the engine says yes to exactly these
      four texts. */
  lemma EngineDecides(checker: Option<Checker>, ctx: Context, d: DispatchPosture, overlay: Option<Request>,
                      subject: string, domain: string, resource: string, action: string)
    requires Asks(ctx, d.kind, d.name, overlay, subject, domain, resource, action)
    ensures Settled(false, Judge(checker, d.kind, d.name, Some(RowFor(d)), DispatchSubject(ctx), overlay)) == None
            <==> d.posture == "public"
                 || (subject != "" && (d.posture == "authenticated"
                                       || SaysYes(checker, subject, domain, resource, action)))
  {
    QuestionIsAsked(ctx, d.kind, d.name, Some(RowFor(d)), overlay, subject, domain, resource, action);
    AdmissionRule(checker, d.kind, d.name, Some(RowFor(d)), DispatchSubject(ctx), overlay);
  }

  /** Where the engine is needed but missing or failing, that is what is answered, in either mode. */
  lemma EngineFaultIsAnswered(checker: Option<Checker>, auditOnly: bool, ctx: Context, d: DispatchPosture,
                              overlay: Option<Request>,
                              subject: string, domain: string, resource: string, action: string)
    requires Asks(ctx, d.kind, d.name, overlay, subject, domain, resource, action)
    requires d.posture !in {"public", "authenticated"} && subject != ""
    ensures var j := Judge(checker, d.kind, d.name, Some(RowFor(d)), DispatchSubject(ctx), overlay);
            var err := Settled(auditOnly, j);
            && (checker.None? ==>
                  err == Some(Coded("enforcer_nil", Infrastructure, Some(Coded("enforcer_nil", Infrastructure, None)))))
            && (checker.Some? && checker.value(subject, domain, resource, action).CheckFailed? ==>
                  err == Some(Coded("enforce_failed", Transient,
                                    Some(checker.value(subject, domain, resource, action).err))))
  {
    QuestionIsAsked(ctx, d.kind, d.name, Some(RowFor(d)), overlay, subject, domain, resource, action);
  }

  /** An undeclared type is forbidden, whoever asks; and what is reported, for it as for a declared
      one, is that question, under the posture it was judged by. */
  lemma QuestionIsReported(checker: Option<Checker>, ctx: Context, d: DispatchPosture, overlay: Option<Request>,
                           subject: string, domain: string, resource: string, action: string)
    requires Asks(ctx, d.kind, d.name, overlay, subject, domain, resource, action)
    ensures var unknown := Judge(checker, d.kind, d.name, None, DispatchSubject(ctx), overlay);
            && VerdictOf(Settled(false, unknown)) == Forbidden
            && unknown.Judged? && unknown.posture == "role"
            && unknown.request.subject == subject && unknown.request.domain == domain
            && ResourceText(unknown.request.resource) == resource && unknown.request.action == action
    ensures var unknown := Judge(checker, d.kind, d.name, None, DispatchSubject(ctx), overlay);
            var declared := Judge(checker, d.kind, d.name, Some(RowFor(d)), DispatchSubject(ctx), overlay);
            declared.Judged? ==> declared.posture == d.posture && declared.request == unknown.request
  {
    SharedCodes();
    QuestionIsAsked(ctx, d.kind, d.name, None, overlay, subject, domain, resource, action);
    QuestionIsAsked(ctx, d.kind, d.name, Some(RowFor(d)), overlay, subject, domain, resource, action);
  }

  /** The refusal's class: unauthorized exactly for a declared, non-public type whose question
      has no subject; an undeclared type is forbidden whoever asks. */
  lemma RefusalClass(checker: Option<Checker>, kind: string, name: string, row: Option<Row>,
                     subject: string, overlay: Option<Request>)
    ensures var req := QuestionOf(kind, name, row, subject, overlay);
            var j := Judge(checker, kind, name, row, subject, overlay);
            && (j.Judged? && j.denial.Some? ==>
                  VerdictOf(j.denial) == (if row.Some? && req.subject == "" then Unauthorized else Forbidden))
            && (j.Judged? ==> (j.denial.Some? <==> !j.decision.allowed))
            && (j.EngineError? ==> row.Some? && req.subject != ""
                                   && row.value.decl.posture != PUBLIC && row.value.decl.posture != AUTHENTICATED)
  {
    SharedCodes();
  }

  ghost predicate AdmitsUnder(checker: Option<Checker>, d: DispatchPosture, posture: string,
                              subject: string, overlay: Option<Request>)
  {
    Settled(false, Judge(checker, d.kind, d.name, Some(RowFor(d.(posture := posture))), subject, overlay)) == None
  }

  /** Tightening a declaration never admits more; a posture outside the three is role-gated. */
  lemma PosturesShrink(checker: Option<Checker>, d: DispatchPosture, other: string,
                       subject: string, overlay: Option<Request>)
    requires !Enforceable(other)
    ensures AdmitsUnder(checker, d, ROLE_GATED, subject, overlay) ==>
              AdmitsUnder(checker, d, AUTHENTICATED, subject, overlay)
    ensures AdmitsUnder(checker, d, AUTHENTICATED, subject, overlay) ==>
              AdmitsUnder(checker, d, PUBLIC, subject, overlay)
    ensures AdmitsUnder(checker, d, other, subject, overlay) <==> AdmitsUnder(checker, d, ROLE_GATED, subject, overlay)
  {
    AdmissionRule(checker, d.kind, d.name, Some(RowFor(d.(posture := ROLE_GATED))), subject, overlay);
    AdmissionRule(checker, d.kind, d.name, Some(RowFor(d.(posture := AUTHENTICATED))), subject, overlay);
    AdmissionRule(checker, d.kind, d.name, Some(RowFor(d.(posture := PUBLIC))), subject, overlay);
    AdmissionRule(checker, d.kind, d.name, Some(RowFor(d.(posture := other))), subject, overlay);
  }

  /** The declaration-free middleware is a gate on which everything is declared role-gated. */
  lemma UndeclaringIsRoleGated(checker: Option<Checker>, kind: string, name: string, why: string,
                               subject: string, overlay: Option<Request>)
    ensures Judge(checker, kind, name, Some(ALL_GATED), subject, overlay)
         == Judge(checker, kind, name, Some(RowFor(DispatchPosture(kind, name, ROLE_GATED, why))), subject, overlay)
  {
    assert |DispatchObject(kind, name)| > 0;
  }

  /** Audit mode sees what enforcement would decide: the same question, posture and decision
      are reported; it marks and admits exactly what enforcement denies; engine errors stop
      and silence both. */
  lemma AuditParity(kind: string, name: string, j: Judgement)
    ensures var enforced, audited := Observed(false, kind, name, j), Observed(true, kind, name, j);
            && |enforced| == |audited|
            && (forall i | 0 <= i < |enforced| :: enforced[i] == audited[i].(audit := false))
            && ((exists i :: 0 <= i < |audited| && audited[i].audit)
                <==> Settled(false, j).Some? && Settled(true, j).None?)
            && (Settled(true, j).Some? <==> j.EngineError?)
            && (j.EngineError? ==> Settled(false, j) == Settled(true, j) && audited == [])
            && (j.Judged? ==>
                  enforced == [Outcome(kind, name, j.posture, j.request, j.decision, false)]
                  && Settled(false, j) == j.denial)
  {
    if j.Judged? {
      assert Observed(true, kind, name, j)[0].audit <==> j.denial.Some?;
    }
  }

  /** An authenticated posture is met by a subject of either origin: the context's, or one the
      payload's own PolicyContext names. */
  lemma AuthenticatedAcceptsOverlaySubject(checker: Option<Checker>, d: DispatchPosture, ctx: Context,
                                           overlay: Option<Request>)
    ensures AdmitsUnder(checker, d, AUTHENTICATED, DispatchSubject(ctx), overlay)
            <==> DispatchSubject(ctx) != "" || (overlay.Some? && overlay.value.subject != "")
  {
    AdmissionRule(checker, d.kind, d.name, Some(RowFor(d.(posture := AUTHENTICATED))), DispatchSubject(ctx), overlay);
  }

  // ---------- declaring, one after the other ----------

  function TableOf(order: seq<DispatchPosture>): Declarations {
    if order == [] then map[] else Declaring(TableOf(order[..|order| - 1]), order[|order| - 1])
  }

  /** Every row of the one table is in the other, unchanged. */
  ghost predicate Extends(later: Declarations, earlier: Declarations) {
    forall k | k in earlier :: k in later && later[k] == earlier[k]
  }

  lemma DeclaringLaws(table: Declarations, d: DispatchPosture)
    requires WellFormed(table)
    ensures WellFormed(Declaring(table, d))
    ensures Extends(Declaring(table, d), table)
    ensures KeyOf(d) in Declaring(table, d)
    ensures Declaring(Declaring(table, d), d) == Declaring(table, d)
    ensures KeyOf(d) in table && table[KeyOf(d)].decl == d ==> Declaring(table, d) == table
    ensures Conflicts(table, d) <==> Conflicts(Declaring(table, d), d)
  {
    if KeyOf(d) in table && table[KeyOf(d)].decl == d {
      assert table[KeyOf(d)] == RowFor(d);
    }
  }

  /** Whatever is declared in between, a row once declared stays as it was. */
  lemma {:induction false} RowsAreStable(order: seq<DispatchPosture>, i: nat)
    requires i <= |order|
    ensures WellFormed(TableOf(order))
    ensures Extends(TableOf(order), TableOf(order[..i]))
    decreases |order|
  {
    if order != [] {
      var n := |order| - 1;
      RowsAreStable(order[..n], if i <= n then i else n);
      DeclaringLaws(TableOf(order[..n]), order[n]);
      if i <= n {
        assert order[..n][..i] == order[..i];
      } else {
        assert order[..i] == order;
      }
    }
  }

  /** No declaration of the sequence was refused. */
  ghost predicate AllAccepted(order: seq<DispatchPosture>) {
    order != [] ==>
      AllAccepted(order[..|order| - 1]) && !Conflicts(TableOf(order[..|order| - 1]), order[|order| - 1])
  }

  /** t is the table after some prefix of the declarations. */
  ghost predicate PrefixTable(order: seq<DispatchPosture>, t: Declarations) {
    t == TableOf(order) || (order != [] && PrefixTable(order[..|order| - 1], t))
  }

  lemma {:induction false} AcceptedTable(order: seq<DispatchPosture>)
    requires AllAccepted(order)
    ensures forall d | d in order :: KeyOf(d) in TableOf(order) && TableOf(order)[KeyOf(d)] == RowFor(d)
    ensures forall k | k in TableOf(order) :: TableOf(order)[k].decl in order && KeyOf(TableOf(order)[k].decl) == k
  {
    if order != [] {
      var front, last := order[..|order| - 1], order[|order| - 1];
      AcceptedTable(front);
      assert order == front + [last];
    }
  }

  /** Accepted declarations commute: the same set of rows, declared in any order and any
      number of times, gives the same table, hence the same manifest. */
  lemma DeclarationOrderIsIrrelevant(a: seq<DispatchPosture>, b: seq<DispatchPosture>)
    requires AllAccepted(a) && AllAccepted(b)
    requires forall d :: d in a <==> d in b
    ensures TableOf(a) == TableOf(b)
  {
    AcceptedTable(a);
    AcceptedTable(b);
    forall k ensures k in TableOf(a) <==> k in TableOf(b) {
      if k in TableOf(a) {
        assert TableOf(a)[k].decl in b;
      }
      if k in TableOf(b) {
        assert TableOf(b)[k].decl in a;
      }
    }
    forall k | k in TableOf(a) ensures TableOf(a)[k] == TableOf(b)[k] {
      assert TableOf(a)[k].decl in a;
      assert TableOf(a)[k].decl in b;
    }
  }

  /** Two manifests of one table are the same list. */
  lemma ManifestIsCanonical(table: Declarations, a: seq<DispatchPosture>, b: seq<DispatchPosture>)
    requires StrictlyOrdered(a) && forall d :: d in a <==> d in Declarees(table)
    requires StrictlyOrdered(b) && forall d :: d in b <==> d in Declarees(table)
    ensures a == b
  {
    OrderIsCanonical(a, b);
  }
}

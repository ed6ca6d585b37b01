/** The authorization contract: one question, two code paths that answer it for a route. */
module Authz {
  import opened Prelude
  import opened Errors

  const WILDCARD_DOMAIN := "*"

  datatype Resource = Resource(typ: string, id: string)

  /** Resource.String: "type:id", or the one part that is given. */
  function ResourceText(r: Resource): string {
    if r.typ == "" then r.id
    else if r.id == "" then r.typ
    else r.typ + ":" + r.id
  }

  datatype Request = Request(subject: string, domain: string, resource: Resource, action: string)

  datatype Reason = ReasonAllowed | ReasonDeniedByPolicy | ReasonNoMatchingPolicy | ReasonNotAuthenticated

  datatype Decision = Decision(allowed: bool, reason: Reason, matchedRules: seq<string>)

  /** PermissionChecker: an engine's answer to (subject, domain, resource, action). */
  datatype CheckAnswer = Checked(allowed: bool, matchedRules: seq<string>) | CheckFailed(err: Error)
  type Checker = (string, string, string, string) -> CheckAnswer

  datatype Decided = Answered(decision: Decision) | EngineFailed(err: Error)

  function Decide(checker: Option<Checker>, req: Request): Decided {
    if req.subject == "" then Answered(Decision(false, ReasonNotAuthenticated, []))
    else if checker.None? then EngineFailed(Coded("enforcer_nil", Infrastructure, Some(ERR_ENFORCER_NIL)))
    else
      var domain := if req.domain == "" then WILDCARD_DOMAIN else req.domain;
      match checker.value(req.subject, domain, ResourceText(req.resource), req.action)
      case CheckFailed(err) => EngineFailed(Coded("enforce_failed", Transient, Some(err)))
      case Checked(allowed, matched) =>
        if allowed then Answered(Decision(true, ReasonAllowed, matched))
        else Answered(Decision(false, if |matched| > 0 then ReasonDeniedByPolicy else ReasonNoMatchingPolicy, matched))
  }

  /** A decision's reason is the engine's: a denial that names rules is by them, one that names none is
      for want of a rule; and nobody is asked about a request without a subject. */
  lemma ReasonsAreTheEngines(checker: Option<Checker>, req: Request)
    ensures var decided := Decide(checker, req);
            && (req.subject == "" ==> decided == Answered(Decision(false, ReasonNotAuthenticated, [])))
            && (req.subject != "" && checker.Some? ==>
                  var domain := if req.domain == "" then "*" else req.domain;
                  match checker.value(req.subject, domain, ResourceText(req.resource), req.action)
                  case CheckFailed(err) => decided == EngineFailed(Coded("enforce_failed", Transient, Some(err)))
                  case Checked(true, rules) => decided == Answered(Decision(true, ReasonAllowed, rules))
                  case Checked(false, rules) =>
                    && decided.Answered? && !decided.decision.allowed && decided.decision.matchedRules == rules
                    && (rules == [] ==> decided.decision.reason == ReasonNoMatchingPolicy)
                    && (rules != [] ==> decided.decision.reason == ReasonDeniedByPolicy))
  {
  }

  // ---------- the enforcer, whose model may declare three or four fields ----------

  /** sizeMismatch: the error text contains "invalid request size". */
  datatype EnforceAnswer = Enforced(ok: bool) | EnforceError(err: Error, sizeMismatch: bool)

  datatype Enforcer = Enforcer(
    four: (string, string, string, string) -> EnforceAnswer,
    three: (string, string, string) -> EnforceAnswer)

  function EnforceRequest(e: Enforcer, subject: string, domain: string, resource: string, action: string)
    : EnforceAnswer
  {
    var answer := e.four(subject, domain, resource, action);
    if answer.EnforceError? && answer.sizeMismatch then e.three(subject, resource, action) else answer
  }

  /** An engine whose model has all four fields and answers this policy, unless it fails. */
  ghost predicate SpeaksFour(e: Enforcer, policy: (string, string, string, string) -> bool) {
    forall s, d, o, a :: e.four(s, d, o, a) == Enforced(policy(s, d, o, a))
                         || (e.four(s, d, o, a).EnforceError? && !e.four(s, d, o, a).sizeMismatch)
  }

  /** An engine whose model has no domain: it rejects a four-field call by its size. */
  ghost predicate SpeaksThree(e: Enforcer, policy: (string, string, string) -> bool) {
    && (forall s, d, o, a :: e.four(s, d, o, a).EnforceError? && e.four(s, d, o, a).sizeMismatch)
    && (forall s, o, a :: e.three(s, o, a) == Enforced(policy(s, o, a)) || e.three(s, o, a).EnforceError?)
  }

  function EnforceIn(e: Option<Enforcer>, subject: string, domain: string, resource: string, action: string)
    : Option<Error>
  {
    if e.None? then Some(Coded("enforcer_nil", Infrastructure, Some(ERR_ENFORCER_NIL)))
    else
      match EnforceRequest(e.value, subject, domain, resource, action)
      case EnforceError(err, _) => Some(Coded("enforce_failed", Transient, Some(err)))
      case Enforced(ok) => if ok then None else Some(Coded(FORBIDDEN, Rejection, Some(ERR_FORBIDDEN)))
  }

  /** enforcerChecker.Check: the enforcer seen as a permission checker that names no rules. */
  function EnforcerCheck(e: Option<Enforcer>, subject: string, domain: string, resource: string, action: string)
    : CheckAnswer
  {
    if e.None? then CheckFailed(Coded("enforcer_nil", Infrastructure, Some(ERR_ENFORCER_NIL)))
    else
      match EnforceRequest(e.value, subject, domain, resource, action)
      case EnforceError(err, _) => CheckFailed(Coded("enforce_failed", Transient, Some(err)))
      case Enforced(ok) => Checked(ok, [])
  }

  // ---------- authorizing one HTTP request ----------

  /** user is "" for a context without a user ID; tag stands for everything else a resolver sees. */
  datatype HttpRequest = HttpRequest(user: string, tag: string)

  datatype Resolved = Question(req: Request) | ResolveFailed(err: Error)

  datatype AuthMode = AuthNone | AuthRequired | AuthAuthorized

  datatype AuthConfig = AuthConfig(
    mode: AuthMode,
    domain: string,
    resource: string,
    action: string,
    authzRequest: Option<HttpRequest -> Resolved>)

  function DecisionError(decision: Decision): Error {
    if decision.reason == ReasonNotAuthenticated then Coded(UNAUTHORIZED, Rejection, Some(ERR_UNAUTHORIZED))
    else Coded(FORBIDDEN, Rejection, Some(ERR_FORBIDDEN))
  }

  /** classify is errorfamily.Classify, a library call. */
  function AuthorizeWithRequest(e: Option<Enforcer>, classify: Error -> Family, r: HttpRequest,
                                resolve: HttpRequest -> Resolved): Option<Error>
  {
    match resolve(r)
    case ResolveFailed(err) => Some(Coded("cqrshtmx.handler.authz_request", classify(err), Some(err)))
    case Question(asked) =>
      var req := if asked.subject == "" then asked.(subject := r.user) else asked;
      match Decide(Some((s, d, o, a) => EnforcerCheck(e, s, d, o, a)), req)
      case EngineFailed(err) => Some(err)
      case Answered(decision) => if decision.allowed then None else Some(DecisionError(decision))
  }

  function ExecuteAuthorization(e: Option<Enforcer>, classify: Error -> Family, r: HttpRequest, config: AuthConfig)
    : Option<Error>
  {
    if config.mode == AuthNone then None
    else if config.authzRequest.Some? then AuthorizeWithRequest(e, classify, r, config.authzRequest.value)
    else if r.user == "" then
      if config.mode == AuthAuthorized then Some(Coded(UNAUTHORIZED, Rejection, Some(ERR_UNAUTHORIZED)))
      else Some(ERR_UNAUTHORIZED)
    else if config.mode == AuthAuthorized then EnforceIn(e, r.user, config.domain, config.resource, config.action)
    else None
  }

  // ---------- the two paths agree ----------

  datatype Verdict = Allow | Unauthorized | Forbidden | EngineFailure

  /** What an error classifier makes of the outcome. */
  ghost function VerdictOf(err: Option<Error>): Verdict {
    if err.None? then Allow
    else if Carries(err, UNAUTHORIZED) then Unauthorized
    else if Carries(err, FORBIDDEN) then Forbidden
    else EngineFailure
  }

  /** The error declares neither of the two shared codes, at any depth. */
  ghost predicate Neutral(err: Error) {
    !Carries(Some(err), UNAUTHORIZED) && !Carries(Some(err), FORBIDDEN)
  }

  /** The handler configured with AuthorizeIn(domain, resource, action). */
  function InConfig(domain: string, resource: Resource, action: string): AuthConfig {
    AuthConfig(AuthAuthorized, domain, ResourceText(resource), action, None)
  }

  /** The handler configured with AuthorizeRequest answering the same question. */
  function RequestConfig(domain: string, resource: Resource, action: string): AuthConfig {
    AuthConfig(AuthAuthorized, "", "", "", Some((r: HttpRequest) => Question(Request("", domain, resource, action))))
  }

  lemma SharedCodes()
    ensures VerdictOf(Some(Coded(UNAUTHORIZED, Rejection, Some(ERR_UNAUTHORIZED)))) == Unauthorized
    ensures VerdictOf(Some(ERR_UNAUTHORIZED)) == Unauthorized
    ensures VerdictOf(Some(Coded(FORBIDDEN, Rejection, Some(ERR_FORBIDDEN)))) == Forbidden
    ensures !Carries(Some(Coded(UNAUTHORIZED, Rejection, Some(ERR_UNAUTHORIZED))), FORBIDDEN)
    ensures !Carries(Some(Coded(FORBIDDEN, Rejection, Some(ERR_FORBIDDEN))), UNAUTHORIZED)
  {
    ChainCodes(Coded(UNAUTHORIZED, Rejection, Some(ERR_UNAUTHORIZED)), UNAUTHORIZED);
    ChainCodes(Coded(UNAUTHORIZED, Rejection, Some(ERR_UNAUTHORIZED)), FORBIDDEN);
    ChainCodes(Coded(FORBIDDEN, Rejection, Some(ERR_FORBIDDEN)), FORBIDDEN);
    ChainCodes(Coded(FORBIDDEN, Rejection, Some(ERR_FORBIDDEN)), UNAUTHORIZED);
    ChainCodes(ERR_UNAUTHORIZED, UNAUTHORIZED);
    ChainCodes(ERR_UNAUTHORIZED, FORBIDDEN);
    ChainCodes(ERR_FORBIDDEN, UNAUTHORIZED);
    ChainCodes(ERR_FORBIDDEN, FORBIDDEN);
  }

  /** The two errors declare the same of the two shared codes. */
  ghost predicate SameReading(x: Error, y: Error) {
    && (Carries(Some(x), UNAUTHORIZED) <==> Carries(Some(y), UNAUTHORIZED))
    && (Carries(Some(x), FORBIDDEN) <==> Carries(Some(y), FORBIDDEN))
  }

  /** A wrap with another code leaves the reading of an error alone. */
  lemma WrapKeepsReading(err: Error, code: string, family: Family)
    requires code != UNAUTHORIZED && code != FORBIDDEN
    ensures SameReading(Coded(code, family, Some(err)), err)
  {
    ChainCodes(Coded(code, family, Some(err)), UNAUTHORIZED);
    ChainCodes(Coded(code, family, Some(err)), FORBIDDEN);
  }

  lemma NilEnforcerIsNeutral()
    ensures Neutral(ERR_ENFORCER_NIL)
  {
    ChainCodes(ERR_ENFORCER_NIL, UNAUTHORIZED);
    ChainCodes(ERR_ENFORCER_NIL, FORBIDDEN);
  }

  /** For every enforcer of either arity (or none), every user and every non-empty domain, the
      two code paths reach the same verdict. */
  lemma TwoPathsAgree(e: Option<Enforcer>, classify: Error -> Family, r: HttpRequest,
                      domain: string, resource: Resource, action: string)
    requires domain != ""
    ensures VerdictOf(ExecuteAuthorization(e, classify, r, InConfig(domain, resource, action)))
         == VerdictOf(ExecuteAuthorization(e, classify, r, RequestConfig(domain, resource, action)))
  {
    var x := ExecuteAuthorization(e, classify, r, InConfig(domain, resource, action));
    var y := ExecuteAuthorization(e, classify, r, RequestConfig(domain, resource, action));
    if r.user == "" {
      SharedCodes();
    } else {
      assert x == EnforceIn(e, r.user, domain, ResourceText(resource), action);
      assert y == AskedVerdict(EnforcerCheck(e, r.user, domain, ResourceText(resource), action));
      CheckMatchesEnforceIn(e, r.user, domain, ResourceText(resource), action);
    }
  }

  /** Through either path a request without a user is unauthorized; a known user's verdict is the
      answer the enforcer gave, and when it gave an error, never an allowance, and an engine failure
      exactly if that error declares neither shared code. */
  lemma VerdictIsTheEnforcers(e: Enforcer, classify: Error -> Family, r: HttpRequest,
                              domain: string, resource: Resource, action: string)
    requires domain != ""
    ensures var v := VerdictOf(ExecuteAuthorization(Some(e), classify, r, InConfig(domain, resource, action)));
            var w := VerdictOf(ExecuteAuthorization(Some(e), classify, r, RequestConfig(domain, resource, action)));
            var answer := EnforceRequest(e, r.user, domain, ResourceText(resource), action);
            && v == w
            && (r.user == "" ==> v == Unauthorized)
            && (r.user != "" && answer.Enforced? ==> v == if answer.ok then Allow else Forbidden)
            && (r.user != "" && answer.EnforceError? ==>
                  v != Allow && (v == EngineFailure <==> Neutral(answer.err)))
  {
    var answer := EnforceRequest(e, r.user, domain, ResourceText(resource), action);
    TwoPathsAgree(Some(e), classify, r, domain, resource, action);
    SharedCodes();
    if r.user != "" && answer.EnforceError? {
      WrapKeepsReading(answer.err, "enforce_failed", Transient);
    }
  }

  /** And the enforcer answers the policy of its engine, of either arity, on that very question; an
      error is the engine's own. */
  lemma EnforcerAnswersThePolicy(e: Enforcer, four: (string, string, string, string) -> bool,
                                 three: (string, string, string) -> bool,
                                 subject: string, domain: string, resource: string, action: string)
    ensures var answer := EnforceRequest(e, subject, domain, resource, action);
            && (SpeaksFour(e, four) ==> answer == e.four(subject, domain, resource, action))
            && (SpeaksFour(e, four) && answer.Enforced? ==> answer.ok == four(subject, domain, resource, action))
            && (SpeaksThree(e, three) ==> answer == e.three(subject, resource, action))
            && (SpeaksThree(e, three) && answer.Enforced? ==> answer.ok == three(subject, resource, action))
  {
  }

  /** The policy's verdict for a known user whose engine does not fail, through both paths. */
  lemma VerdictIsThePolicys(e: Enforcer, four: (string, string, string, string) -> bool,
                            three: (string, string, string) -> bool, classify: Error -> Family, r: HttpRequest,
                            domain: string, resource: Resource, action: string)
    requires domain != "" && r.user != ""
    requires EnforceRequest(e, r.user, domain, ResourceText(resource), action).Enforced?
    ensures var v := VerdictOf(ExecuteAuthorization(Some(e), classify, r, InConfig(domain, resource, action)));
            var w := VerdictOf(ExecuteAuthorization(Some(e), classify, r, RequestConfig(domain, resource, action)));
            && v == w
            && (SpeaksFour(e, four) ==>
                  v == if four(r.user, domain, ResourceText(resource), action) then Allow else Forbidden)
            && (SpeaksThree(e, three) ==>
                  v == if three(r.user, ResourceText(resource), action) then Allow else Forbidden)
  {
    VerdictIsTheEnforcers(e, classify, r, domain, resource, action);
    EnforcerAnswersThePolicy(e, four, three, r.user, domain, ResourceText(resource), action);
  }

  /** It happens: an engine whose own failure declares the forbidden code reads as a denial, through
      both paths and for every known user. */
  lemma BrokenEngineCanReadAsForbidden(classify: Error -> Family, r: HttpRequest, domain: string,
                                       resource: Resource, action: string) returns (e: Enforcer)
    requires domain != "" && r.user != ""
    ensures EnforceRequest(e, r.user, domain, ResourceText(resource), action).EnforceError?
    ensures VerdictOf(ExecuteAuthorization(Some(e), classify, r, InConfig(domain, resource, action))) == Forbidden
    ensures VerdictOf(ExecuteAuthorization(Some(e), classify, r, RequestConfig(domain, resource, action))) == Forbidden
  {
    e := Enforcer((s: string, d: string, o: string, a: string) => EnforceError(ERR_FORBIDDEN, false),
                  (s: string, o: string, a: string) => EnforceError(ERR_FORBIDDEN, false));
    TwoPathsAgree(Some(e), classify, r, domain, resource, action);
    WrapKeepsReading(ERR_FORBIDDEN, "enforce_failed", Transient);
    ChainCodes(ERR_FORBIDDEN, UNAUTHORIZED);
    ChainCodes(ERR_FORBIDDEN, FORBIDDEN);
  }

  /** The question as it reaches the engine: subject and domain defaults filled in. */
  function Asked(r: HttpRequest, asked: Request): Request {
    asked.(subject := if asked.subject == "" then r.user else asked.subject,
           domain := if asked.domain == "" then WILDCARD_DOMAIN else asked.domain)
  }

  lemma AskedPath(e: Option<Enforcer>, classify: Error -> Family, r: HttpRequest, resolve: HttpRequest -> Resolved)
    requires resolve(r).Question?
    ensures var req := Asked(r, resolve(r).req);
            AuthorizeWithRequest(e, classify, r, resolve)
            == if req.subject == "" then Some(Coded(UNAUTHORIZED, Rejection, Some(ERR_UNAUTHORIZED)))
               else AskedVerdict(EnforcerCheck(e, req.subject, req.domain, ResourceText(req.resource), req.action))
  {
  }

  /** What AuthorizeRequest's path makes of the checker's answer for a known subject. */
  function AskedVerdict(answer: CheckAnswer): Option<Error> {
    match answer
    case CheckFailed(err) => Some(Coded("enforce_failed", Transient, Some(err)))
    case Checked(allowed, _) => if allowed then None else Some(Coded(FORBIDDEN, Rejection, Some(ERR_FORBIDDEN)))
  }

  /** The enforcer seen as a checker reads as EnforceIn does: denials and the lack of an enforcer the
      same, and an engine's error as that error itself. */
  lemma CheckMatchesEnforceIn(e: Option<Enforcer>, s: string, d: string, o: string, a: string)
    ensures VerdictOf(AskedVerdict(EnforcerCheck(e, s, d, o, a))) == VerdictOf(EnforceIn(e, s, d, o, a))
    ensures e.Some? && EnforceRequest(e.value, s, d, o, a).EnforceError? ==>
              var err := EnforceRequest(e.value, s, d, o, a).err;
              && SameReading(EnforceIn(e, s, d, o, a).value, err)
              && SameReading(AskedVerdict(EnforcerCheck(e, s, d, o, a)).value, err)
    ensures e.None? ==>
              && Neutral(EnforceIn(e, s, d, o, a).value)
              && Neutral(AskedVerdict(EnforcerCheck(e, s, d, o, a)).value)
  {
    if e.None? {
      var nil := Coded("enforcer_nil", Infrastructure, Some(ERR_ENFORCER_NIL));
      NilEnforcerIsNeutral();
      WrapKeepsReading(ERR_ENFORCER_NIL, "enforcer_nil", Infrastructure);
      WrapKeepsReading(nil, "enforce_failed", Transient);
    } else {
      var answer := EnforceRequest(e.value, s, d, o, a);
      if answer.EnforceError? {
        var once := Coded("enforce_failed", Transient, Some(answer.err));
        WrapKeepsReading(answer.err, "enforce_failed", Transient);
        WrapKeepsReading(once, "enforce_failed", Transient);
      }
    }
  }

  ghost predicate AgreeForEveryEnforcer(domain: string) {
    forall e: Option<Enforcer>, classify: Error -> Family, r: HttpRequest, resource: Resource, action: string ::
      VerdictOf(ExecuteAuthorization(e, classify, r, InConfig(domain, resource, action)))
      == VerdictOf(ExecuteAuthorization(e, classify, r, RequestConfig(domain, resource, action)))
  }

  lemma EmptyDomainParts()
    ensures !AgreeForEveryEnforcer("")
  {
    var e := Enforcer((s: string, d: string, o: string, a: string) => Enforced(d == WILDCARD_DOMAIN),
                      (s: string, o: string, a: string) => Enforced(false));
    var classify := (err: Error) => Unknown;
    var r, resource := HttpRequest("u", ""), Resource("orders", "");
    SharedCodes();
    assert ExecuteAuthorization(Some(e), classify, r, InConfig("", resource, "read"))
        == Some(Coded(FORBIDDEN, Rejection, Some(ERR_FORBIDDEN)));
    assert ExecuteAuthorization(Some(e), classify, r, RequestConfig("", resource, "read")) == None;
  }

  /** With the empty domain they part: only AuthorizeRequest's path turns it into "*". */
  lemma AgreementNeedsADomain(domain: string)
    ensures AgreeForEveryEnforcer(domain) <==> domain != ""
  {
    if domain == "" {
      EmptyDomainParts();
    } else {
      forall e: Option<Enforcer>, classify: Error -> Family, r: HttpRequest, resource: Resource, action: string
        ensures VerdictOf(ExecuteAuthorization(e, classify, r, InConfig(domain, resource, action)))
             == VerdictOf(ExecuteAuthorization(e, classify, r, RequestConfig(domain, resource, action)))
      {
        TwoPathsAgree(e, classify, r, domain, resource, action);
      }
    }
  }

  /** Declares exactly one of the two shared codes. */
  ghost predicate OneCode(err: Option<Error>) {
    Carries(err, UNAUTHORIZED) <==> !Carries(err, FORBIDDEN)
  }

  /** What a configured handler asks the engine about a request, if anything. */
  function EngineQuestion(r: HttpRequest, config: AuthConfig): Option<(string, string, string, string)> {
    if config.mode == AuthNone then None
    else if config.authzRequest.Some? then
      match config.authzRequest.value(r)
      case ResolveFailed(_) => None
      case Question(asked) =>
        var req := Asked(r, asked);
        if req.subject == "" then None
        else Some((req.subject, req.domain, ResourceText(req.resource), req.action))
    else if r.user == "" || config.mode != AuthAuthorized then None
    else Some((r.user, config.domain, config.resource, config.action))
  }

  /** The error of somebody else that a refusal only passes on: the resolver's or the engine's. */
  function PassedOn(e: Option<Enforcer>, r: HttpRequest, config: AuthConfig): Option<Error> {
    if config.mode != AuthNone && config.authzRequest.Some? && config.authzRequest.value(r).ResolveFailed? then
      Some(config.authzRequest.value(r).err)
    else
      var q := EngineQuestion(r, config);
      if q.None? || e.None? then None
      else
        match EnforceRequest(e.value, q.value.0, q.value.1, q.value.2, q.value.3)
        case Enforced(_) => None
        case EnforceError(err, _) => Some(err)
  }

  lemma ResolverFailureIsPassedOn(classify: Error -> Family, err: Error)
    ensures SameReading(Coded("cqrshtmx.handler.authz_request", classify(err), Some(err)), err)
  {
    WrapKeepsReading(err, "cqrshtmx.handler.authz_request", classify(err));
  }

  /** Whatever is configured: a refusal that passes on the error of a resolver or an engine declares
      the shared codes that error declares; a refusal for want of an enforcer declares neither; every
      other refusal, the denials, exactly one, so that no classifier can read it both ways. */
  lemma RefusalsCarryOneCode(e: Option<Enforcer>, classify: Error -> Family, r: HttpRequest, config: AuthConfig)
    ensures var x := ExecuteAuthorization(e, classify, r, config);
            && (PassedOn(e, r, config).Some? ==> x.Some? && SameReading(x.value, PassedOn(e, r, config).value))
            && (x.Some? && PassedOn(e, r, config).None? ==>
                  if e.None? && EngineQuestion(r, config).Some? then Neutral(x.value) else OneCode(x))
  {
    SharedCodes();
    ChainCodes(ERR_UNAUTHORIZED, FORBIDDEN);
    var q := EngineQuestion(r, config);
    if config.mode != AuthNone && config.authzRequest.Some? && config.authzRequest.value(r).ResolveFailed? {
      ResolverFailureIsPassedOn(classify, config.authzRequest.value(r).err);
    } else if config.mode != AuthNone && config.authzRequest.Some? {
      AskedPath(e, classify, r, config.authzRequest.value);
    }
    if q.Some? {
      CheckMatchesEnforceIn(e, q.value.0, q.value.1, q.value.2, q.value.3);
    }
  }

  /** What each way of asking answers, in full: without a user both are unauthorized, and a denial is
      forbidden; AuthorizeIn names a missing or failing engine, and AuthorizeRequest wraps that once
      more. */
  lemma RefusalsInFull(e: Option<Enforcer>, classify: Error -> Family, r: HttpRequest,
                       domain: string, resource: Resource, action: string)
    requires domain != ""
    ensures var x := ExecuteAuthorization(e, classify, r, InConfig(domain, resource, action));
            var y := ExecuteAuthorization(e, classify, r, RequestConfig(domain, resource, action));
            var text := if resource.id == "" then resource.typ
                        else if resource.typ == "" then resource.id else resource.typ + ":" + resource.id;
            var nil := Coded("enforcer_nil", Infrastructure, Some(Coded("enforcer_nil", Infrastructure, None)));
            && (r.user == "" ==>
                  x == y == Some(Coded("unauthorized", Rejection, Some(Coded("unauthorized", Rejection, None)))))
            && (r.user != "" && e.None? ==> x == Some(nil) && y == Some(Coded("enforce_failed", Transient, Some(nil))))
            && (r.user != "" && e.Some? ==>
                  match EnforceRequest(e.value, r.user, domain, text, action)
                  case Enforced(true) => x == y == None
                  case Enforced(false) =>
                    x == y == Some(Coded("forbidden", Rejection, Some(Coded("forbidden", Rejection, None))))
                  case EnforceError(err, _) =>
                    var once := Coded("enforce_failed", Transient, Some(err));
                    x == Some(once) && y == Some(Coded("enforce_failed", Transient, Some(once))))
  {
    AskedPath(e, classify, r, RequestConfig(domain, resource, action).authzRequest.value);
  }

  /** The modes without a question: none refuses nobody, and the required one whoever has no user. */
  lemma ModesWithoutAQuestion(e: Option<Enforcer>, classify: Error -> Family, r: HttpRequest, config: AuthConfig)
    requires config.mode == AuthNone || (config.mode == AuthRequired && config.authzRequest.None?)
    ensures ExecuteAuthorization(e, classify, r, config)
         == if config.mode == AuthRequired && r.user == "" then Some(Coded("unauthorized", Rejection, None)) else None
  {
  }

  /** A resolver that fails is answered as that, and one that answers is asked for the subject it
      names, or the user, in the domain it names, or in any. */
  lemma ResolverIsFollowed(e: Option<Enforcer>, classify: Error -> Family, r: HttpRequest, config: AuthConfig)
    requires config.mode != AuthNone && config.authzRequest.Some?
    ensures var x := ExecuteAuthorization(e, classify, r, config);
            match config.authzRequest.value(r)
            case ResolveFailed(err) => x == Some(Coded("cqrshtmx.handler.authz_request", classify(err), Some(err)))
            case Question(q) =>
              var subject := if q.subject != "" then q.subject else r.user;
              var domain := if q.domain != "" then q.domain else "*";
              && (subject == "" ==> VerdictOf(x) == Unauthorized)
              && (subject != "" && e.Some? ==>
                    (x == None <==> EnforceRequest(e.value, subject, domain, ResourceText(q.resource), q.action)
                                    == Enforced(true)))
  {
    SharedCodes();
    if config.authzRequest.value(r).Question? {
      AskedPath(e, classify, r, config.authzRequest.value);
    }
  }

  /** The reading of a refusal survives any number of wraps that add neither code. */
  lemma VerdictSurvivesWrapping(err: Error, wraps: seq<Option<(string, Family)>>)
    requires forall w | w in wraps :: w.Some? ==> w.value.0 != UNAUTHORIZED && w.value.0 != FORBIDDEN
    ensures VerdictOf(Some(Wrapped(wraps, err))) == VerdictOf(Some(err))
    ensures OneCode(Some(Wrapped(wraps, err))) <==> OneCode(Some(err))
  {
    WrapsKeepTheCode(wraps, err, UNAUTHORIZED);
    WrapsKeepTheCode(wraps, err, FORBIDDEN);
  }

  /** The paths differ in one place a caller can see: with no enforcer configured, AuthorizeIn
      reports an Infrastructure fault and AuthorizeRequest a Transient one. */
  lemma FaultFamiliesDifferOnlyWithoutEnforcer(e: Option<Enforcer>, classify: Error -> Family, r: HttpRequest,
                                               domain: string, resource: Resource, action: string)
    requires domain != "" && r.user != ""
    ensures var x := ExecuteAuthorization(e, classify, r, InConfig(domain, resource, action));
            var y := ExecuteAuthorization(e, classify, r, RequestConfig(domain, resource, action));
            && (x.Some? <==> y.Some?)
            && (x.Some? && y.Some? && x.value.Coded? && y.value.Coded? ==>
                  (x.value.family != y.value.family <==> e.None?))
  {
  }
}

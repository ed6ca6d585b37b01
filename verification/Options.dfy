/** Handler options: each one rewrites part of a mutable configuration, and the whole list is
    applied in order. */
module Options {
  import opened Prelude
  import opened Errors
  import opened Pipeline

  datatype Kind = CommandKind | QueryKind

  /** A decoder closure: it reads the configuration's body limit when it is called. */
  type LimitedDecoder = (HttpReq, int) -> Decoding

  /** A validator sees whatever the decoder returned, nil included. */
  type Validator = Option<Value> -> Option<Error>

  datatype HandlerOption =
    | DecodeWith(kind: Kind, decoder: LimitedDecoder)
    | ValidateWith(kind: Kind, validator: Validator)
    | AuthorizeIn(domain: string, resource: string, action: string)
    | AuthorizeRequest(resolve: Authz.HttpRequest -> Authz.Resolved)
    | RequireAuth
    | WithMaxBodySize(n: int)
    | WithTimeout(t: int)

  /** Authorize(resource, action) asks in the wildcard domain. */
  function Authorize(resource: string, action: string): HandlerOption {
    AuthorizeIn(Authz.WILDCARD_DOMAIN, resource, action)
  }

  datatype Settings = Settings(
    commandDecoder: Option<LimitedDecoder>,
    queryDecoder: Option<LimitedDecoder>,
    auth: Authz.AuthConfig,
    maxBodySize: int,
    timeout: int)

  const BLANK := Settings(None, None, Authz.AuthConfig(Authz.AuthNone, "", "", "", None), 0, 0)

  function DecoderOf(s: Settings, kind: Kind): Option<LimitedDecoder> {
    match kind
    case CommandKind => s.commandDecoder
    case QueryKind => s.queryDecoder
  }

  function WithDecoder(s: Settings, kind: Kind, d: LimitedDecoder): Settings {
    match kind
    case CommandKind => s.(commandDecoder := Some(d))
    case QueryKind => s.(queryDecoder := Some(d))
  }

  function Checked(d: Decoding, v: Validator): Decoding {
    if d.DecodeError? || v(d.value).None? then d
    else DecodeError(Coded("cqrshtmx.validate.failed", Rejection, Some(v(d.value).value)))
  }

  /** The closure a validator puts around a decoder. */
  function Wrapping(original: LimitedDecoder, v: Validator): LimitedDecoder {
    (r: HttpReq, n: int) => Checked(original(r, n), v)
  }

  /** None is the registration panic. */
  function Applied(s: Settings, o: HandlerOption): Option<Settings> {
    match o
    case DecodeWith(kind, d) => Some(WithDecoder(s, kind, d))
    case ValidateWith(kind, v) =>
      if DecoderOf(s, kind).None? then None
      else Some(WithDecoder(s, kind, Wrapping(DecoderOf(s, kind).value, v)))
    case AuthorizeIn(domain, resource, action) =>
      Some(s.(auth := s.auth.(mode := Authz.AuthAuthorized, domain := domain, resource := resource, action := action)))
    case AuthorizeRequest(resolve) =>
      Some(s.(auth := s.auth.(mode := Authz.AuthAuthorized, authzRequest := Some(resolve))))
    case RequireAuth =>
      Some(if s.auth.mode == Authz.AuthNone then s.(auth := s.auth.(mode := Authz.AuthRequired)) else s)
    case WithMaxBodySize(n) => Some(s.(maxBodySize := n))
    case WithTimeout(t) => Some(s.(timeout := t))
  }

  function Built(opts: seq<HandlerOption>): Option<Settings> {
    if opts == [] then Some(BLANK)
    else
      var before := Built(opts[..|opts| - 1]);
      if before.None? then None else Applied(before.value, opts[|opts| - 1])
  }

  /** The configuration object the options write to. */
  class ConfigBuilder {
    var commandDecoder: Option<LimitedDecoder>
    var queryDecoder: Option<LimitedDecoder>
    var auth: Authz.AuthConfig
    var maxBodySize: int
    var timeout: int

    function View(): Settings
      reads this
    {
      Settings(commandDecoder, queryDecoder, auth, maxBodySize, timeout)
    }

    constructor ()
      ensures View() == BLANK
    {
      commandDecoder, queryDecoder := None, None;
      auth := Authz.AuthConfig(Authz.AuthNone, "", "", "", None);
      maxBodySize, timeout := 0, 0;
    }

    method SetDecoder(kind: Kind, d: LimitedDecoder)
      modifies this
      ensures View() == WithDecoder(old(View()), kind, d)
    {
      match kind {
        case CommandKind => commandDecoder := Some(d);
        case QueryKind => queryDecoder := Some(d);
      }
    }

    /** validateDispatch: wraps the decoder that is there, and panics if there is none. */
    method ValidateDispatch(kind: Kind, v: Validator) returns (panicked: bool)
      modifies this
      ensures panicked <==> Applied(old(View()), ValidateWith(kind, v)).None?
      ensures !panicked ==> View() == Applied(old(View()), ValidateWith(kind, v)).value
    {
      var original := DecoderOf(View(), kind);
      if original.None? {
        return true;
      }
      SetDecoder(kind, Wrapping(original.value, v));
      return false;
    }

    method Apply(o: HandlerOption) returns (panicked: bool)
      modifies this
      ensures panicked <==> Applied(old(View()), o).None?
      ensures !panicked ==> View() == Applied(old(View()), o).value
    {
      panicked := false;
      match o {
        case DecodeWith(kind, d) => SetDecoder(kind, d);
        case ValidateWith(kind, v) => panicked := ValidateDispatch(kind, v);
        case AuthorizeIn(domain, resource, action) =>
          auth := auth.(domain := domain, resource := resource, action := action, mode := Authz.AuthAuthorized);
        case AuthorizeRequest(resolve) =>
          auth := auth.(authzRequest := Some(resolve), mode := Authz.AuthAuthorized);
        case RequireAuth =>
          if auth.mode == Authz.AuthNone {
            auth := auth.(mode := Authz.AuthRequired);
          }
        case WithMaxBodySize(n) => maxBodySize := n;
        case WithTimeout(t) => timeout := t;
      }
    }

    /** buildHandlerConfigChecked, for a non-empty type: the App's own body limit fills in for an
        unset one. */
    method Build(opts: seq<HandlerOption>, appMaxBodySize: int) returns (panicked: bool)
      requires View() == BLANK
      modifies this
      ensures panicked <==> Built(opts).None?
      ensures !panicked ==>
                View() == Built(opts).value.(maxBodySize :=
                  if Built(opts).value.maxBodySize == 0 then appMaxBodySize else Built(opts).value.maxBodySize)
    {
      for i := 0 to |opts|
        invariant Built(opts[..i]) == Some(View())
      {
        assert opts[..i + 1][..i] == opts[..i];
        panicked := Apply(opts[i]);
        if panicked {
          PanicIsFinal(opts[..i + 1], opts[i + 1..]);
          assert opts[..i + 1] + opts[i + 1..] == opts;
          return;
        }
      }
      assert opts[..|opts|] == opts;
      if maxBodySize == 0 {
        maxBodySize := appMaxBodySize;
      }
      return false;
    }
  }

  lemma {:induction false} PanicIsFinal(a: seq<HandlerOption>, b: seq<HandlerOption>)
    requires Built(a).None?
    ensures Built(a + b).None?
    decreases |b|
  {
    if b == [] {
      assert a + b == a;
    } else {
      PanicIsFinal(a, b[..|b| - 1]);
      assert (a + b)[..|a + b| - 1] == a + b[..|b| - 1];
    }
  }

  // ---------- decoders and validators ----------

  predicate IsDecoder(o: HandlerOption, kind: Kind) {
    o.DecodeWith? && o.kind == kind
  }

  predicate IsValidator(o: HandlerOption, kind: Kind) {
    o.ValidateWith? && o.kind == kind
  }

  predicate HasDecoder(opts: seq<HandlerOption>, kind: Kind) {
    exists i :: 0 <= i < |opts| && IsDecoder(opts[i], kind)
  }

  /** Option i is a validator with no decoder of its kind before it. */
  predicate Misplaced(opts: seq<HandlerOption>, i: int) {
    0 <= i < |opts| && opts[i].ValidateWith? && !HasDecoder(opts[..i], opts[i].kind)
  }

  lemma HasDecoderOneMore(opts: seq<HandlerOption>, kind: Kind)
    requires opts != []
    ensures HasDecoder(opts, kind) <==> HasDecoder(opts[..|opts| - 1], kind) || IsDecoder(opts[|opts| - 1], kind)
  {
    var n := |opts| - 1;
    if HasDecoder(opts[..n], kind) {
      var i :| 0 <= i < n && IsDecoder(opts[..n][i], kind);
      assert IsDecoder(opts[i], kind);
    }
    if HasDecoder(opts, kind) && !IsDecoder(opts[n], kind) {
      var i :| 0 <= i < |opts| && IsDecoder(opts[i], kind);
      assert IsDecoder(opts[..n][i], kind);
    }
  }

  /** Registration panics exactly when some validator comes before every decoder of its kind. */
  lemma {:induction false} PanicsIffMisplaced(opts: seq<HandlerOption>)
    ensures Built(opts).None? <==> exists i :: Misplaced(opts, i)
    ensures Built(opts).Some? ==> forall kind :: DecoderOf(Built(opts).value, kind).Some? <==> HasDecoder(opts, kind)
    decreases |opts|
  {
    if opts != [] {
      var n := |opts| - 1;
      var front := opts[..n];
      PanicsIffMisplaced(front);
      HasDecoderOneMore(opts, CommandKind);
      HasDecoderOneMore(opts, QueryKind);
      forall i | 0 <= i < n ensures Misplaced(front, i) == Misplaced(opts, i) {
        assert front[..i] == opts[..i];
      }
      assert Misplaced(opts, n) <==> opts[n].ValidateWith? && !HasDecoder(front, opts[n].kind);
      if Built(front).None? {
        var i :| Misplaced(front, i);
        assert Misplaced(opts, i);
      }
    }
  }

  /** The validators of a kind, in order. */
  function ValidatorsIn(opts: seq<HandlerOption>, kind: Kind): seq<Validator> {
    if opts == [] then []
    else
      var n := |opts| - 1;
      ValidatorsIn(opts[..n], kind) + if IsValidator(opts[n], kind) then [opts[n].validator] else []
  }

  /** A decoding run past validators in order. */
  function Validated(d: Decoding, vs: seq<Validator>): Decoding {
    if vs == [] then d else Checked(Validated(d, vs[..|vs| - 1]), vs[|vs| - 1])
  }

  lemma ValidatedOneMore(d: Decoding, vs: seq<Validator>, v: Validator)
    ensures Validated(d, vs + [v]) == Checked(Validated(d, vs), v)
  {
    assert (vs + [v])[..|vs|] == vs;
  }

  /** An option that is no decoder of the kind leaves the kind's decoder alone, or wraps it. */
  lemma StepOnDecoder(s: Settings, o: HandlerOption, kind: Kind, r: HttpReq, limit: int)
    requires Applied(s, o).Some? && DecoderOf(s, kind).Some? && !IsDecoder(o, kind)
    ensures DecoderOf(Applied(s, o).value, kind).Some?
    ensures DecoderOf(Applied(s, o).value, kind).value(r, limit)
         == if IsValidator(o, kind) then Checked(DecoderOf(s, kind).value(r, limit), o.validator)
            else DecoderOf(s, kind).value(r, limit)
  {
    if o.DecodeWith? || o.ValidateWith? {
      assert o.kind == kind || (kind.CommandKind? && o.kind.QueryKind?) || (kind.QueryKind? && o.kind.CommandKind?);
    }
  }

  /** The built decoder is the last decoder given, followed by just the validators after it, in
      order; validators before it are dropped. */
  lemma {:induction false} BuiltDecoder(opts: seq<HandlerOption>, kind: Kind, k: nat, r: HttpReq, limit: int)
    requires Built(opts).Some? && k < |opts| && IsDecoder(opts[k], kind)
    requires forall j :: k < j < |opts| ==> !IsDecoder(opts[j], kind)
    ensures DecoderOf(Built(opts).value, kind).Some?
    ensures DecoderOf(Built(opts).value, kind).value(r, limit)
         == Validated(opts[k].decoder(r, limit), ValidatorsIn(opts[k + 1..], kind))
    decreases |opts|
  {
    var n := |opts| - 1;
    if k < n {
      var rest := opts[k + 1..];
      var d, front := opts[k].decoder(r, limit), ValidatorsIn(rest[..|rest| - 1], kind);
      assert opts[..n][k + 1..] == rest[..|rest| - 1] && rest[|rest| - 1] == opts[n];
      BuiltDecoder(opts[..n], kind, k, r, limit);
      assert DecoderOf(Built(opts[..n]).value, kind).value(r, limit) == Validated(d, front);
      assert !IsDecoder(opts[n], kind);
      StepOnDecoder(Built(opts[..n]).value, opts[n], kind, r, limit);
      if IsValidator(opts[n], kind) {
        ValidatedOneMore(d, front, opts[n].validator);
        assert ValidatorsIn(rest, kind) == front + [opts[n].validator];
      } else {
        assert ValidatorsIn(rest, kind) == front;
      }
    } else {
      assert opts[k + 1..] == [];
    }
  }

  /** A validated decoding succeeds exactly if the decoding did and every validator accepts it,
      and then it is unchanged. */
  lemma {:induction false} ValidatedAcceptsIff(d: Decoding, vs: seq<Validator>)
    ensures Validated(d, vs).Decoded? <==> d.Decoded? && forall i :: 0 <= i < |vs| ==> vs[i](d.value).None?
    ensures Validated(d, vs).Decoded? ==> Validated(d, vs) == d
    ensures d.DecodeError? ==> Validated(d, vs) == d
  {
    if vs != [] {
      ValidatedAcceptsIff(d, vs[..|vs| - 1]);
    }
  }

  /** The first validator that refuses is the one whose error is reported. */
  lemma {:induction false} FirstRefusalIsReported(d: Decoding, vs: seq<Validator>, k: nat)
    requires d.Decoded? && k < |vs| && vs[k](d.value).Some?
    requires forall i :: 0 <= i < k ==> vs[i](d.value).None?
    ensures Validated(d, vs) == DecodeError(Coded("cqrshtmx.validate.failed", Rejection, Some(vs[k](d.value).value)))
  {
    var n := |vs| - 1;
    if k < n {
      FirstRefusalIsReported(d, vs[..n], k);
    } else {
      ValidatedAcceptsIff(d, vs[..n]);
    }
  }

  // ---------- authorization options ----------

  function Rank(mode: Authz.AuthMode): nat {
    match mode
    case AuthNone => 0
    case AuthRequired => 1
    case AuthAuthorized => 2
  }

  /** The mode an option asks for by itself. */
  function Asks(o: HandlerOption): nat {
    match o
    case AuthorizeIn(_, _, _) => 2
    case AuthorizeRequest(_) => 2
    case RequireAuth => 1
    case _ => 0
  }

  function Strictest(opts: seq<HandlerOption>): nat {
    if opts == [] then 0
    else
      var before, last := Strictest(opts[..|opts| - 1]), Asks(opts[|opts| - 1]);
      if before < last then last else before
  }

  lemma {:induction false} StrictestIsReached(opts: seq<HandlerOption>)
    ensures forall i :: 0 <= i < |opts| ==> Asks(opts[i]) <= Strictest(opts)
    ensures Strictest(opts) > 0 ==> exists i :: 0 <= i < |opts| && Asks(opts[i]) == Strictest(opts)
  {
    if opts != [] {
      var n := |opts| - 1;
      StrictestIsReached(opts[..n]);
      if Strictest(opts[..n]) > 0 {
        var i :| 0 <= i < n && Asks(opts[..n][i]) == Strictest(opts[..n]);
        assert Asks(opts[i]) == Strictest(opts[..n]);
      }
    }
  }

  lemma {:induction false} ModeIsStrictest(opts: seq<HandlerOption>)
    requires Built(opts).Some?
    ensures Rank(Built(opts).value.auth.mode) == Strictest(opts)
  {
    if opts != [] {
      ModeIsStrictest(opts[..|opts| - 1]);
    }
  }

  /** The auth mode is the maximum over the list, whatever its order: no option asks for a stricter
      one, and if it is not the least, some option asks for it. */
  lemma ModeIsTheMaximum(opts: seq<HandlerOption>)
    requires Built(opts).Some?
    ensures var mode := Rank(Built(opts).value.auth.mode);
            && (forall i :: 0 <= i < |opts| ==> Asks(opts[i]) <= mode)
            && (mode > 0 ==> exists i :: 0 <= i < |opts| && Asks(opts[i]) == mode)
  {
    ModeIsStrictest(opts);
    StrictestIsReached(opts);
  }

  predicate IsResolver(o: HandlerOption) {
    o.AuthorizeRequest?
  }

  /** Any AuthorizeRequest in the list, the last of them, supplies the question asked, even when
      an AuthorizeIn follows it. */
  lemma {:induction false} LastResolverAsks(opts: seq<HandlerOption>, k: nat)
    requires Built(opts).Some? && k < |opts| && IsResolver(opts[k])
    requires forall j :: k < j < |opts| ==> !IsResolver(opts[j])
    ensures Built(opts).value.auth.authzRequest == Some(opts[k].resolve)
    ensures Built(opts).value.auth.mode == Authz.AuthAuthorized
    decreases |opts|
  {
    var n := |opts| - 1;
    if k < n {
      LastResolverAsks(opts[..n], k);
      assert !IsResolver(opts[n]);
    }
  }

  /** Without a resolver, the last AuthorizeIn (or Authorize) supplies every part of the question. */
  lemma {:induction false} LastAuthorizeInAsks(opts: seq<HandlerOption>, k: nat)
    requires Built(opts).Some? && k < |opts| && opts[k].AuthorizeIn?
    requires forall j :: k < j < |opts| ==> !opts[j].AuthorizeIn?
    requires forall j :: 0 <= j < |opts| ==> !IsResolver(opts[j])
    ensures Built(opts).value.auth
         == Authz.AuthConfig(Authz.AuthAuthorized, opts[k].domain, opts[k].resource, opts[k].action, None)
    decreases |opts|
  {
    var n := |opts| - 1;
    assert !IsResolver(opts[n]);
    if k < n {
      assert forall j :: 0 <= j < n ==> opts[..n][j] == opts[j];
      LastAuthorizeInAsks(opts[..n], k);
    } else {
      NoResolverIsKept(opts[..n]);
    }
  }

  /** Authorize asks for the resource and action in any domain. */
  lemma AuthorizeAsksInAnyDomain(opts: seq<HandlerOption>, resource: string, action: string)
    requires Built(opts).Some?
    ensures Built(opts + [Authorize(resource, action)]).Some?
    ensures Built(opts + [Authorize(resource, action)]).value
         == Built(opts).value.(auth := Authz.AuthConfig(Authz.AuthAuthorized, "*", resource, action,
                                                        Built(opts).value.auth.authzRequest))
  {
    assert (opts + [Authorize(resource, action)])[..|opts|] == opts;
  }

  lemma {:induction false} NoResolverIsKept(opts: seq<HandlerOption>)
    requires Built(opts).Some?
    requires forall j :: 0 <= j < |opts| ==> !IsResolver(opts[j])
    ensures Built(opts).value.auth.authzRequest == None
  {
    if opts != [] {
      NoResolverIsKept(opts[..|opts| - 1]);
      assert !IsResolver(opts[|opts| - 1]);
    }
  }

  lemma ResolverDecides(opts: seq<HandlerOption>, k: nat, e: Option<Authz.Enforcer>, classify: Error -> Family,
                        r: Authz.HttpRequest)
    requires Built(opts).Some? && k < |opts| && IsResolver(opts[k])
    requires forall j :: k < j < |opts| ==> !IsResolver(opts[j])
    ensures Authz.ExecuteAuthorization(e, classify, r, Built(opts).value.auth)
         == Authz.AuthorizeWithRequest(e, classify, r, opts[k].resolve)
  {
    LastResolverAsks(opts, k);
  }

  // ---------- RequireAuth anywhere ----------

  /** Two configurations that differ at most in that the second requires a user. */
  ghost predicate AtMostStricter(s: Settings, t: Settings) {
    t == s || (s.auth.mode == Authz.AuthNone && t == s.(auth := s.auth.(mode := Authz.AuthRequired)))
  }

  lemma AppliedKeepsStricter(s: Settings, t: Settings, o: HandlerOption)
    requires AtMostStricter(s, t)
    ensures Applied(s, o).None? <==> Applied(t, o).None?
    ensures Applied(s, o).Some? ==> AtMostStricter(Applied(s, o).value, Applied(t, o).value)
  {
  }

  lemma {:induction false} InsertedRequireAuth(a: seq<HandlerOption>, b: seq<HandlerOption>)
    ensures Built(a + b).None? <==> Built(a + [RequireAuth] + b).None?
    ensures Built(a + b).Some? ==> AtMostStricter(Built(a + b).value, Built(a + [RequireAuth] + b).value)
    decreases |b|
  {
    var with := a + [RequireAuth] + b;
    if b == [] {
      assert a + b == a && with[..|a|] == a && with[|a|] == RequireAuth;
    } else {
      var m := |b| - 1;
      InsertedRequireAuth(a, b[..m]);
      assert (a + b)[..|a| + m] == a + b[..m];
      assert with[..|with| - 1] == a + [RequireAuth] + b[..m];
      if Built(a + b[..m]).Some? {
        AppliedKeepsStricter(Built(a + b[..m]).value, Built(a + [RequireAuth] + b[..m]).value, b[m]);
      }
    }
  }

  /** RequireAuth may be inserted anywhere in a list without ever admitting a request that was
      refused, and changes nothing where the list already authorizes. */
  lemma RequireAuthNeverAdmits(a: seq<HandlerOption>, b: seq<HandlerOption>, e: Option<Authz.Enforcer>,
                               classify: Error -> Family, r: Authz.HttpRequest)
    requires Built(a + b).Some?
    ensures Built(a + [RequireAuth] + b).Some?
    ensures Authz.ExecuteAuthorization(e, classify, r, Built(a + [RequireAuth] + b).value.auth).None?
        ==> Authz.ExecuteAuthorization(e, classify, r, Built(a + b).value.auth).None?
    ensures Strictest(a + b) > 0 ==> Built(a + [RequireAuth] + b) == Built(a + b)
  {
    InsertedRequireAuth(a, b);
    ModeIsStrictest(a + b);
  }

  // ---------- the body limit is read late ----------

  /** The built decoder obeys the final body limit, wherever the limit stands in the list. */
  lemma {:induction false} LimitMayStandAnywhere(a: seq<HandlerOption>, n: int, b: seq<HandlerOption>)
    requires forall o :: o in b ==> !o.WithMaxBodySize?
    ensures Built(a + [WithMaxBodySize(n)] + b) == Built(a + b + [WithMaxBodySize(n)])
    decreases |b|
  {
    var limit := [WithMaxBodySize(n)];
    if b == [] {
      assert a + limit + b == a + b + limit;
    } else {
      var m := |b| - 1;
      assert b[m] in b;
      LimitMayStandAnywhere(a, n, b[..m]);
      assert (a + limit + b)[..|a| + 1 + m] == a + limit + b[..m];
      assert (a + b[..m] + limit)[..|a| + m] == a + b[..m];
      assert (a + b + limit)[..|a| + |b|] == a + b;
      assert (a + b)[..|a| + m] == a + b[..m];
    }
  }

  /** The last timeout given is the one in force, and none is without one. */
  lemma {:induction false} LastTimeoutWins(opts: seq<HandlerOption>, k: nat)
    requires Built(opts).Some? && k <= |opts|
    requires k < |opts| ==> opts[k].WithTimeout?
    requires forall j :: (if k < |opts| then k + 1 else 0) <= j < |opts| ==> !opts[j].WithTimeout?
    ensures Built(opts).value.timeout == if k < |opts| then opts[k].t else 0
    decreases |opts|
  {
    if opts != [] {
      var n := |opts| - 1;
      if k < n {
        LastTimeoutWins(opts[..n], k);
      } else if k > n {
        LastTimeoutWins(opts[..n], n);
      }
    }
  }

  /** And so for the body limit. */
  lemma {:induction false} LastLimitWins(opts: seq<HandlerOption>, k: nat)
    requires Built(opts).Some? && k <= |opts|
    requires k < |opts| ==> opts[k].WithMaxBodySize?
    requires forall j :: (if k < |opts| then k + 1 else 0) <= j < |opts| ==> !opts[j].WithMaxBodySize?
    ensures Built(opts).value.maxBodySize == if k < |opts| then opts[k].n else 0
    decreases |opts|
  {
    if opts != [] {
      var n := |opts| - 1;
      if k < n {
        LastLimitWins(opts[..n], k);
      } else if k > n {
        LastLimitWins(opts[..n], n);
      }
    }
  }

  // ---------- the body limit in force ----------

  const DEFAULT_MAX_BODY_SIZE: int := 10 * 1024 * 1024

  /** readBody: reading one byte more than the limit is enough to tell a body that is too long
      from one that just fits. None is the refusal; a body let through is complete. */
  method ReadBody(body: seq<Byte>, maxBodySize: int) returns (read: Option<seq<Byte>>)
    ensures read == if |body| <= LimitInForce(maxBodySize) then Some(body) else None
    ensures maxBodySize > 0 ==> (read == None <==> |body| > maxBodySize)
    ensures maxBodySize <= 0 ==> (read == None <==> |body| > 10_485_760)
  {
    var limit := maxBodySize;
    if limit <= 0 {
      limit := DEFAULT_MAX_BODY_SIZE;
    }
    var taken := body[..Min(|body|, limit + 1)];
    assert body[..|body|] == body;
    if limit > 0 && |taken| > limit {
      return None;
    }
    return Some(taken);
  }

  function LimitInForce(maxBodySize: int): int {
    if maxBodySize <= 0 then DEFAULT_MAX_BODY_SIZE else maxBodySize
  }

  /** The limit a handler's bodies meet, given its own setting and the App's. */
  function HandlerLimit(own: int, app: int): int {
    LimitInForce(if own == 0 then app else own)
  }

  /** What the option's documentation says: anything not positive falls back to the App's. */
  function DocumentedLimit(own: int, app: int): int {
    if own > 0 then own else LimitInForce(app)
  }

  /** They agree unless a negative setting meets an App limit other than the default: then the
      App's limit, stricter or not, is not the one in force. */
  lemma NegativeSkipsTheAppLimit(own: int, app: int)
    ensures HandlerLimit(own, app) == DocumentedLimit(own, app)
       <==> own >= 0 || LimitInForce(app) == DEFAULT_MAX_BODY_SIZE
    ensures HandlerLimit(-1, 1024) != DocumentedLimit(-1, 1024)
  {
  }
}

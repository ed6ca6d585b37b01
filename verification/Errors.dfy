/** Classified errors: a chain of levels, each of which may declare a machine-readable code. */
module Errors {
  import opened Prelude

  datatype Family = Rejection | Conflict | Transient | Corruption | Infrastructure | Unknown

  datatype Error =
    | Plain(inner: Option<Error>)
    | Coded(code: string, family: Family, inner: Option<Error>)

  const UNAUTHORIZED := "unauthorized"
  const FORBIDDEN := "forbidden"

  const ERR_UNAUTHORIZED: Error := Coded(UNAUTHORIZED, Rejection, None)
  const ERR_FORBIDDEN: Error := Coded(FORBIDDEN, Rejection, None)
  const ERR_ENFORCER_NIL: Error := Coded("enforcer_nil", Infrastructure, None)

  /** The levels of the unwrap chain, outermost first. */
  function Chain(err: Option<Error>): seq<Error> {
    match err
    case None => []
    case Some(e) => [e] + Chain(e.inner)
  }

  /** errorfamily.Code: the code of the outermost coded level at or below this one. */
  function Code(e: Error): string {
    match e
    case Coded(code, _, _) => code
    case Plain(Some(inner)) => Code(inner)
    case Plain(None) => ""
  }

  predicate Declares(e: Error, code: string) {
    e.Coded? && e.code == code
  }

  /** Some level of the chain declares the code itself. */
  predicate Carries(err: Option<Error>, code: string) {
    exists e :: e in Chain(err) && Declares(e, code)
  }

  lemma {:induction false} ChainCodes(e: Error, code: string)
    requires code != ""
    ensures Code(e) == code ==> Carries(Some(e), code)
    ensures Carries(Some(e), code) <==> Declares(e, code) || Carries(e.inner, code)
  {
    if e.inner.Some? {
      ChainCodes(e.inner.value, code);
    }
    if Declares(e, code) {
      assert e in Chain(Some(e));
    }
    if Carries(e.inner, code) {
      var l :| l in Chain(e.inner) && Declares(l, code);
      assert l in Chain(Some(e));
    }
  }

  /** IsForbidden and IsUnauthorized: asking each level for its code finds the code exactly
      when some level, at any depth, declares it. */
  method CarriesCode(err: Option<Error>, code: string) returns (found: bool)
    requires code != ""
    ensures found <==> Carries(err, code)
  {
    var e := err;
    while e.Some?
      invariant Carries(err, code) <==> Carries(e, code)
      decreases e
    {
      ChainCodes(e.value, code);
      if Code(e.value) == code {
        return true;
      }
      e := e.value.inner;
    }
    return false;
  }

  /** Wrapping an error any number of times, outermost wrap first. */
  function Wrapped(wraps: seq<Option<(string, Family)>>, err: Error): Error {
    if wraps == [] then err
    else
      var inner := Some(Wrapped(wraps[1..], err));
      match wraps[0]
      case None => Plain(inner)
      case Some((code, family)) => Coded(code, family, inner)
  }

  /** A wrap that does not declare the code itself neither hides it nor adds it. */
  lemma {:induction false} WrapsKeepTheCode(wraps: seq<Option<(string, Family)>>, err: Error, code: string)
    requires code != "" && forall w | w in wraps :: w.Some? ==> w.value.0 != code
    ensures Carries(Some(Wrapped(wraps, err)), code) <==> Carries(Some(err), code)
  {
    if wraps != [] {
      assert wraps[0] in wraps;
      WrapsKeepTheCode(wraps[1..], err, code);
      ChainCodes(Wrapped(wraps, err), code);
    }
  }

  /** httperr.ErrorCode: the code at the innermost coded level. */
  function DeepestCode(err: Option<Error>): string {
    match err
    case None => ""
    case Some(e) =>
      if e.Coded? && (forall l | l in Chain(e.inner) :: !l.Coded?) then e.code else DeepestCode(e.inner)
  }

  lemma {:induction false} CodeOfUncoded(e: Error)
    ensures (forall l | l in Chain(Some(e)) :: !l.Coded?) <==> !HasCode(e)
    ensures !HasCode(e) ==> Code(e) == ""
  {
    if e.inner.Some? {
      CodeOfUncoded(e.inner.value);
    }
    assert Chain(Some(e)) == [e] + Chain(e.inner);
  }

  predicate HasCode(e: Error) {
    e.Coded? || (e.inner.Some? && HasCode(e.inner.value))
  }

  method ErrorCode(err: Option<Error>) returns (deepest: string)
    ensures deepest == DeepestCode(err)
  {
    deepest := "";
    UncodedIsEmpty(err);
    var current := err;
    while current.Some?
      invariant DeepestCode(err) == if current.Some? && HasCode(current.value) then DeepestCode(current) else deepest
      decreases current
    {
      var e := current.value;
      CodeOfUncoded(e);
      if e.inner.Some? {
        CodeOfUncoded(e.inner.value);
      }
      if HasCode(e) {
        deepest := Code(e);
        CodeIsFirst(e);
      }
      current := e.inner;
    }
  }

  lemma {:induction false} UncodedIsEmpty(err: Option<Error>)
    ensures err.None? || !HasCode(err.value) ==> DeepestCode(err) == ""
  {
    if err.Some? {
      UncodedIsEmpty(err.value.inner);
    }
  }

  lemma {:induction false} CodeIsFirst(e: Error)
    requires HasCode(e)
    ensures e.inner.None? || !HasCode(e.inner.value) ==> DeepestCode(Some(e)) == Code(e)
    ensures e.inner.Some? && HasCode(e.inner.value) ==> DeepestCode(Some(e)) == DeepestCode(e.inner)
  {
    if e.inner.Some? {
      CodeOfUncoded(e.inner.value);
    }
  }
}

/** Form keys are matched without regard to case: the walk over the form's map that lowers them
    and refuses two keys that become the same name. */
module FormKeys {

  type Form = map<string, seq<string>>

  datatype Outcome = Ambiguous(key: string) | Normalized(values: Form)

  /** An order in which a map may be walked. */
  ghost predicate OrderOf(order: seq<string>, form: Form) {
    && (forall i, j :: 0 <= i < j < |order| ==> order[i] != order[j])
    && (forall k :: k in order <==> k in form)
  }

  /** Two different keys of the form become this name; lower is the library's case mapping. */
  ghost predicate Collides(form: Form, lower: string -> string, name: string) {
    exists a, b :: a in form && b in form && a != b && lower(a) == name && lower(b) == name
  }

  /** Exactly the form with its keys lowered, every value kept. */
  ghost predicate IsLowered(form: Form, lower: string -> string, values: Form) {
    && (forall k :: k in form ==> lower(k) in values && values[lower(k)] == form[k])
    && (forall name :: name in values ==> exists k :: k in form && lower(k) == name)
  }

  function Walk(order: seq<string>, form: Form, lower: string -> string): Outcome
    requires forall k :: k in order ==> k in form
  {
    if order == [] then Normalized(map[])
    else
      var n := |order| - 1;
      var before, k := Walk(order[..n], form, lower), order[n];
      if before.Ambiguous? then before
      else if lower(k) in before.values then Ambiguous(lower(k))
      else Normalized(before.values[lower(k) := form[k]])
  }

  /** Two positions of a walk whose keys become the same name. */
  ghost predicate Clash(order: seq<string>, lower: string -> string, i: int, j: int) {
    0 <= i < j < |order| && lower(order[i]) == lower(order[j])
  }

  lemma {:induction false} WalkIsExact(order: seq<string>, form: Form, lower: string -> string)
    requires forall k :: k in order ==> k in form
    ensures var w := Walk(order, form, lower);
            w.Ambiguous? ==> exists i, j :: Clash(order, lower, i, j) && lower(order[i]) == w.key
    ensures var w := Walk(order, form, lower);
            w.Normalized? ==>
              && (forall i, j :: !Clash(order, lower, i, j))
              && (forall i :: 0 <= i < |order| ==>
                    lower(order[i]) in w.values && w.values[lower(order[i])] == form[order[i]])
              && (forall name :: name in w.values ==> exists i :: 0 <= i < |order| && lower(order[i]) == name)
    decreases |order|
  {
    if order != [] {
      var n := |order| - 1;
      var front := order[..n];
      var before := Walk(front, form, lower);
      WalkIsExact(front, form, lower);
      if before.Ambiguous? {
        var i, j :| Clash(front, lower, i, j) && lower(front[i]) == before.key;
        assert Clash(order, lower, i, j);
      } else if lower(order[n]) in before.values {
        var i :| 0 <= i < |front| && lower(front[i]) == lower(order[n]);
        assert Clash(order, lower, i, n);
      } else {
        forall i, j | Clash(order, lower, i, j) ensures false {
          assert lower(front[i]) in before.values;
          assert j < n ==> Clash(front, lower, i, j);
        }
      }
    }
  }

  /** decodeFormValues, up to the decoding of the normalised values. It refuses exactly the forms
      with two keys that become one name, names such a name, and otherwise keeps everything. */
  method NormalizeKeys(form: Form, order: seq<string>, lower: string -> string) returns (outcome: Outcome)
    requires OrderOf(order, form)
    ensures outcome == Walk(order, form, lower)
    ensures outcome.Ambiguous? <==> exists name :: Collides(form, lower, name)
    ensures outcome.Ambiguous? ==> Collides(form, lower, outcome.key)
    ensures outcome.Normalized? ==> IsLowered(form, lower, outcome.values)
  {
    WalkMeansForm(order, form, lower);
    var normalized: Form := map[];
    for i := 0 to |order|
      invariant Walk(order[..i], form, lower) == Normalized(normalized)
    {
      var k := order[i];
      WalkStep(order, form, lower, i, normalized);
      var loweredKey := lower(k);
      if loweredKey in normalized {
        return Ambiguous(loweredKey);
      }
      normalized := normalized[loweredKey := form[k]];
    }
    assert order[..|order|] == order;
    return Normalized(normalized);
  }

  lemma {:induction false} WalkStops(a: seq<string>, b: seq<string>, form: Form, lower: string -> string)
    requires (forall k :: k in a ==> k in form) && (forall k :: k in b ==> k in form)
    requires Walk(a, form, lower).Ambiguous?
    ensures Walk(a + b, form, lower) == Walk(a, form, lower)
    decreases |b|
  {
    if b == [] {
      assert a + b == a;
    } else {
      WalkStops(a, b[..|b| - 1], form, lower);
      assert (a + b)[..|a + b| - 1] == a + b[..|b| - 1];
    }
  }

  lemma WalkStep(order: seq<string>, form: Form, lower: string -> string, i: nat, sofar: Form)
    requires forall k :: k in order ==> k in form
    requires i < |order| && Walk(order[..i], form, lower) == Normalized(sofar)
    ensures order[i] in form
    ensures lower(order[i]) in sofar ==> Walk(order, form, lower) == Ambiguous(lower(order[i]))
    ensures lower(order[i]) !in sofar ==>
              Walk(order[..i + 1], form, lower) == Normalized(sofar[lower(order[i]) := form[order[i]]])
  {
    assert order[i] in order;
    assert order[..i + 1][..i] == order[..i];
    if lower(order[i]) in sofar {
      WalkStops(order[..i + 1], order[i + 1..], form, lower);
      assert order[..i + 1] + order[i + 1..] == order;
    }
  }

  lemma CollisionsClash(order: seq<string>, form: Form, lower: string -> string, name: string)
    requires OrderOf(order, form) && Collides(form, lower, name)
    ensures exists i, j :: Clash(order, lower, i, j)
  {
    var a, b :| a in form && b in form && a != b && lower(a) == name && lower(b) == name;
    assert a in order && b in order;
    var i :| 0 <= i < |order| && order[i] == a;
    var j :| 0 <= j < |order| && order[j] == b;
    assert Clash(order, lower, i, j) || Clash(order, lower, j, i);
  }

  lemma WalkMeansForm(order: seq<string>, form: Form, lower: string -> string)
    requires OrderOf(order, form)
    ensures Walk(order, form, lower).Ambiguous? ==> Collides(form, lower, Walk(order, form, lower).key)
    ensures Walk(order, form, lower).Normalized? ==> IsLowered(form, lower, Walk(order, form, lower).values)
    ensures Walk(order, form, lower).Normalized? ==> forall name :: !Collides(form, lower, name)
  {
    var w := Walk(order, form, lower);
    WalkIsExact(order, form, lower);
    if w.Ambiguous? {
      var i, j :| Clash(order, lower, i, j) && lower(order[i]) == w.key;
      assert order[i] in form && order[j] in form && order[i] != order[j];
    } else {
      forall name ensures !Collides(form, lower, name) {
        if Collides(form, lower, name) {
          CollisionsClash(order, form, lower, name);
        }
      }
      forall k | k in form ensures lower(k) in w.values && w.values[lower(k)] == form[k] {
        assert k in order;
        var i :| 0 <= i < |order| && order[i] == k;
      }
    }
  }

  lemma LoweredIsUnique(form: Form, lower: string -> string, a: Form, b: Form)
    requires IsLowered(form, lower, a) && IsLowered(form, lower, b)
    ensures a == b
  {
    forall name | name in a ensures name in b && a[name] == b[name] {
      var k :| k in form && lower(k) == name;
    }
    forall name | name in b ensures name in a {
      var k :| k in form && lower(k) == name;
    }
  }

  /** The order of the walk never decides between accepting and refusing, nor what is accepted. */
  lemma OrderNeverDecides(form: Form, lower: string -> string, order1: seq<string>, order2: seq<string>)
    requires OrderOf(order1, form) && OrderOf(order2, form)
    ensures Walk(order1, form, lower).Ambiguous? <==> Walk(order2, form, lower).Ambiguous?
    ensures Walk(order1, form, lower).Normalized? ==> Walk(order1, form, lower) == Walk(order2, form, lower)
  {
    WalkMeansForm(order1, form, lower);
    WalkMeansForm(order2, form, lower);
    if Walk(order1, form, lower).Normalized? && Walk(order2, form, lower).Normalized? {
      LoweredIsUnique(form, lower, Walk(order1, form, lower).values, Walk(order2, form, lower).values);
    }
  }

  // ---------- the key a refusal names ----------

  ghost function Enumerated(keys: set<string>): (order: seq<string>)
    ensures forall k :: k in order <==> k in keys
    ensures forall i, j :: 0 <= i < j < |order| ==> order[i] != order[j]
    decreases keys
  {
    if keys == {} then []
    else
      var k :| k in keys;
      [k] + Enumerated(keys - {k})
  }

  /** Some order of the walk makes a given colliding name the one reported. */
  lemma EveryCollisionCanBeReported(form: Form, lower: string -> string, name: string) returns (order: seq<string>)
    requires Collides(form, lower, name)
    ensures OrderOf(order, form) && Walk(order, form, lower) == Ambiguous(name)
  {
    var a, b :| a in form && b in form && a != b && lower(a) == name && lower(b) == name;
    var rest := Enumerated(form.Keys - {a, b});
    order := [a, b] + rest;
    assert [a, b][..1] == [a] && [a][..0] == [];
    assert Walk([a], form, lower) == Normalized(map[name := form[a]]);
    assert Walk([a, b], form, lower) == Ambiguous(name);
    WalkStops([a, b], rest, form, lower);
    forall k ensures k in order <==> k in form {
      assert k in order <==> k == a || k == b || k in rest;
    }
  }

  ghost predicate ReportIsDetermined(form: Form, lower: string -> string) {
    forall order1, order2 :: OrderOf(order1, form) && OrderOf(order2, form) ==>
      Walk(order1, form, lower) == Walk(order2, form, lower)
  }

  /** The whole outcome, with the key it names, is the same for every order exactly when at most
      one name is ambiguous. */
  lemma ReportIsDeterminedIffOneNameCollides(form: Form, lower: string -> string)
    ensures ReportIsDetermined(form, lower)
       <==> (forall x, y :: Collides(form, lower, x) && Collides(form, lower, y) ==> x == y)
  {
    if ReportIsDetermined(form, lower) {
      forall x, y | Collides(form, lower, x) && Collides(form, lower, y) ensures x == y {
        var order1 := EveryCollisionCanBeReported(form, lower, x);
        var order2 := EveryCollisionCanBeReported(form, lower, y);
        assert Walk(order1, form, lower) == Walk(order2, form, lower);
      }
    }
    if forall x, y :: Collides(form, lower, x) && Collides(form, lower, y) ==> x == y {
      forall order1, order2 | OrderOf(order1, form) && OrderOf(order2, form)
        ensures Walk(order1, form, lower) == Walk(order2, form, lower)
      {
        OrderNeverDecides(form, lower, order1, order2);
        WalkMeansForm(order1, form, lower);
        WalkMeansForm(order2, form, lower);
      }
    }
  }
}

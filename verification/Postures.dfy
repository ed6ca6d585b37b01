/** Dispatch postures, their order, and the hand-written in-place sort of a manifest. */
module Postures {
  import Strings

  const PUBLIC := "public"
  const AUTHENTICATED := "authenticated"
  const ROLE_GATED := "role"
  const UNGATED := "ungated"

  const QUERY_KIND := "query"

  datatype DispatchPosture = DispatchPosture(kind: string, name: string, posture: string, why: string)

  datatype Key = Key(kind: string, name: string)

  function KeyOf(d: DispatchPosture): Key {
    Key(d.kind, d.name)
  }

  predicate KeyLess(a: Key, b: Key) {
    if a.kind != b.kind then Strings.Less(a.kind, b.kind) else Strings.Less(a.name, b.name)
  }

  predicate Less(a: DispatchPosture, b: DispatchPosture) {
    KeyLess(KeyOf(a), KeyOf(b))
  }

  lemma KeyLessIsTotalOrder(a: Key, b: Key)
    ensures !KeyLess(a, a)
    ensures KeyLess(a, b) ==> !KeyLess(b, a)
    ensures a != b ==> KeyLess(a, b) || KeyLess(b, a)
  {
    Strings.LessIsTotalOrder(a.kind, b.kind);
    Strings.LessIsTotalOrder(a.name, b.name);
  }

  /** The order of a manifest: by kind first, commands before queries, and by name within a kind. */
  lemma KindsThenNames(a: Key, b: Key)
    ensures a.kind == b.kind ==> (KeyLess(a, b) <==> exists k: nat :: Strings.PartAt(a.name, b.name, k))
    ensures a.kind != b.kind ==> (KeyLess(a, b) <==> exists k: nat :: Strings.PartAt(a.kind, b.kind, k))
    ensures KeyLess(Key("command", a.name), Key("query", b.name))
  {
    Strings.LessIsTheFirstDifference(a.kind, b.kind);
    Strings.LessIsTheFirstDifference(a.name, b.name);
    Strings.LessIsTheFirstDifference("command", "query");
    assert Strings.PartAt("command", "query", 0);
  }

  lemma KeyLessIsTransitive(a: Key, b: Key, c: Key)
    requires KeyLess(a, b) && KeyLess(b, c)
    ensures KeyLess(a, c)
  {
    KeyLessIsTotalOrder(a, b);
    Strings.LessIsTotalOrder(a.kind, b.kind);
    if a.kind == b.kind == c.kind {
      Strings.LessIsTransitive(a.name, b.name, c.name);
    } else if a.kind != b.kind && b.kind != c.kind {
      Strings.LessIsTransitive(a.kind, b.kind, c.kind);
    }
  }

  // ---------- insertion ----------

  /** x moved down past the larger elements at the end of s. */
  function Inserted(s: seq<DispatchPosture>, x: DispatchPosture): seq<DispatchPosture> {
    if s != [] && Less(x, s[|s| - 1]) then Inserted(s[..|s| - 1], x) + [s[|s| - 1]] else s + [x]
  }

  function Sorted(s: seq<DispatchPosture>): seq<DispatchPosture> {
    if s == [] then [] else Inserted(Sorted(s[..|s| - 1]), s[|s| - 1])
  }

  lemma {:induction false} InsertedAt(s: seq<DispatchPosture>, x: DispatchPosture, j: nat)
    requires j <= |s|
    requires forall k | j <= k < |s| :: Less(x, s[k])
    requires j > 0 ==> !Less(x, s[j - 1])
    ensures Inserted(s, x) == s[..j] + [x] + s[j..]
  {
    if j < |s| {
      var n := |s| - 1;
      InsertedAt(s[..n], x, j);
      assert s[..n][..j] == s[..j];
      assert s[..n][j..] + [s[n]] == s[j..];
    } else {
      assert s[..j] == s && s[j..] == [];
    }
  }

  method SortDispatchPostures(rows: array<DispatchPosture>)
    modifies rows
    ensures rows[..] == Sorted(old(rows[..]))
  {
    ghost var was := rows[..];
    if rows.Length == 0 {
      return;
    }
    SortedSingleton(was);
    var i := 1;
    while i < rows.Length
      invariant 1 <= i <= rows.Length
      invariant rows[..i] == Sorted(was[..i])
      invariant forall k | i <= k < rows.Length :: rows[k] == was[k]
    {
      SortedStep(was, i);
      InsertInPlace(rows, i);
      i := i + 1;
    }
    assert was[..i] == was && rows[..i] == rows[..];
  }

  lemma SortedSingleton(s: seq<DispatchPosture>)
    requires s != []
    ensures Sorted(s[..1]) == s[..1]
  {
    assert s[..1][..0] == [] && s[..1][0] == s[0];
  }

  lemma SortedStep(s: seq<DispatchPosture>, i: nat)
    requires i < |s|
    ensures Sorted(s[..i + 1]) == Inserted(Sorted(s[..i]), s[i])
  {
    assert s[..i + 1][..i] == s[..i];
  }

  /** One round of the outer loop: element i moves down by swaps. */
  method InsertInPlace(rows: array<DispatchPosture>, i: nat)
    requires 0 < i < rows.Length
    modifies rows
    ensures rows[..i + 1] == Inserted(old(rows[..i]), old(rows[i]))
    ensures forall k | i < k < rows.Length :: rows[k] == old(rows[k])
  {
    ghost var s, x := rows[..i], rows[i];
    ghost var j := MoveDown(rows, i);
    InsertedAt(s, x, j);
    assert rows[..i + 1] == s[..j] + [x] + s[j..];
  }

  method MoveDown(rows: array<DispatchPosture>, i: nat) returns (ghost at: nat)
    requires 0 < i < rows.Length
    modifies rows
    ensures at <= i
    ensures forall k | 0 <= k < at :: rows[k] == old(rows[k])
    ensures rows[at] == old(rows[i])
    ensures forall k | at < k <= i :: rows[k] == old(rows[k - 1])
    ensures forall k | i < k < rows.Length :: rows[k] == old(rows[k])
    ensures forall k | at <= k < i :: Less(old(rows[i]), old(rows[k]))
    ensures at > 0 ==> !Less(old(rows[i]), old(rows[at - 1]))
  {
    var j := i;
    while j > 0 && Less(rows[j], rows[j - 1])
      invariant 0 <= j <= i
      invariant forall k | 0 <= k < j :: rows[k] == old(rows[k])
      invariant rows[j] == old(rows[i])
      invariant forall k | j < k <= i :: rows[k] == old(rows[k - 1])
      invariant forall k | i < k < rows.Length :: rows[k] == old(rows[k])
      invariant forall k | j <= k < i :: Less(old(rows[i]), old(rows[k]))
    {
      rows[j], rows[j - 1] := rows[j - 1], rows[j];
      j := j - 1;
    }
    at := j;
  }

  // ---------- what the sort promises ----------

  /** Strictly ascending by (kind, name). */
  ghost predicate StrictlyOrdered(s: seq<DispatchPosture>) {
    forall i, j | 0 <= i < j < |s| :: Less(s[i], s[j])
  }

  ghost predicate DistinctKeys(s: seq<DispatchPosture>) {
    forall i, j | 0 <= i < j < |s| :: KeyOf(s[i]) != KeyOf(s[j])
  }

  lemma {:induction false} InsertedIsPermutation(s: seq<DispatchPosture>, x: DispatchPosture)
    ensures multiset(Inserted(s, x)) == multiset(s) + multiset{x}
  {
    if s != [] && Less(x, s[|s| - 1]) {
      InsertedIsPermutation(s[..|s| - 1], x);
      assert s == s[..|s| - 1] + [s[|s| - 1]];
    }
  }

  lemma {:induction false} SortedIsPermutation(s: seq<DispatchPosture>)
    ensures multiset(Sorted(s)) == multiset(s)
  {
    if s != [] {
      var front, x := s[..|s| - 1], s[|s| - 1];
      assert s == front + [x];
      SortedIsPermutation(front);
      InsertedIsPermutation(Sorted(front), x);
    }
  }

  lemma {:induction false} InsertedStaysOrdered(s: seq<DispatchPosture>, x: DispatchPosture)
    requires StrictlyOrdered(s)
    requires forall k | 0 <= k < |s| :: KeyOf(s[k]) != KeyOf(x)
    ensures StrictlyOrdered(Inserted(s, x))
  {
    if s != [] {
      var n := |s| - 1;
      KeyLessIsTotalOrder(KeyOf(x), KeyOf(s[n]));
      if Less(x, s[n]) {
        InsertedStaysOrdered(s[..n], x);
        InsertedIsPermutation(s[..n], x);
        var t := Inserted(s[..n], x);
        forall k | 0 <= k < |t| ensures Less(t[k], s[n]) {
          assert t[k] in multiset(t);
          assert t[k] == x || t[k] in s[..n];
        }
      } else {
        forall k | 0 <= k < n ensures Less(s[k], x) {
          KeyLessIsTransitive(KeyOf(s[k]), KeyOf(s[n]), KeyOf(x));
        }
      }
    }
  }

  lemma {:induction false} SortedIsOrdered(s: seq<DispatchPosture>)
    requires DistinctKeys(s)
    ensures StrictlyOrdered(Sorted(s))
  {
    if s != [] {
      var n := |s| - 1;
      var t := Sorted(s[..n]);
      SortedIsOrdered(s[..n]);
      SortedIsPermutation(s[..n]);
      forall k | 0 <= k < |t| ensures KeyOf(t[k]) != KeyOf(s[n]) {
        assert t[k] in multiset(t);
        assert t[k] in s[..n];
      }
      InsertedStaysOrdered(t, s[n]);
    }
  }

  lemma TailMembers(s: seq<DispatchPosture>, d: DispatchPosture)
    requires StrictlyOrdered(s) && s != []
    ensures d in s[1..] <==> d in s && d != s[0]
  {
    KeyLessIsTotalOrder(KeyOf(s[0]), KeyOf(s[0]));
    if d in s[1..] {
      var k :| 0 <= k < |s[1..]| && s[1..][k] == d;
      assert Less(s[0], s[k + 1]);
    }
  }

  /** A strictly ordered list is determined by its set of elements, so a manifest does not
      depend on the order in which the map was walked. */
  lemma {:induction false} OrderIsCanonical(a: seq<DispatchPosture>, b: seq<DispatchPosture>)
    requires StrictlyOrdered(a) && StrictlyOrdered(b)
    requires forall d :: d in a <==> d in b
    ensures a == b
  {
    assert (a != [] ==> a[0] in a) && (b != [] ==> b[0] in b);
    if a != [] {
      SameHead(a, b);
      forall d ensures d in a[1..] <==> d in b[1..] {
        TailMembers(a, d);
        TailMembers(b, d);
      }
      OrderIsCanonical(a[1..], b[1..]);
    }
  }

  lemma SameHead(a: seq<DispatchPosture>, b: seq<DispatchPosture>)
    requires StrictlyOrdered(a) && StrictlyOrdered(b) && a != [] && b != []
    requires a[0] in b && b[0] in a
    ensures a[0] == b[0]
  {
    KeyLessIsTotalOrder(KeyOf(a[0]), KeyOf(b[0]));
  }
}

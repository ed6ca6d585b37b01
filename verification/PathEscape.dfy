/** Redirect targets: the check that a path does not climb above its root, against the segment
    stack by which path.Clean works. */
module PathEscape {
  import opened Prelude

  const UP := ".."
  const HERE := "."

  // ---------- segments and depth ----------

  /** The length of the leading run without a slash. */
  function RunLength(s: string): (n: nat)
    ensures n <= |s|
    ensures forall i :: 0 <= i < n ==> s[i] != '/'
    ensures n < |s| ==> s[n] == '/'
    ensures s != [] && s[0] != '/' ==> n > 0
  {
    if s == [] || s[0] == '/' then 0 else 1 + RunLength(s[1..])
  }

  /** The non-empty parts between slashes. */
  function Segments(s: string): seq<string>
    decreases |s|
  {
    if s == [] then []
    else if s[0] == '/' then Segments(s[1..])
    else [s[..RunLength(s)]] + Segments(s[RunLength(s)..])
  }

  function Delta(seg: string): int {
    if seg == UP then -1 else if seg == HERE || seg == "" then 0 else 1
  }

  /** Ordinary segments minus ".." segments. */
  function Depth(segs: seq<string>): int {
    if segs == [] then 0 else Depth(segs[..|segs| - 1]) + Delta(segs[|segs| - 1])
  }

  /** Some prefix has more ".." than ordinary segments. */
  predicate Dips(segs: seq<string>) {
    exists k :: 0 <= k <= |segs| && Depth(segs[..k]) < 0
  }

  lemma DipsOneMore(segs: seq<string>, seg: string)
    ensures Dips(segs + [seg]) <==> Dips(segs) || Depth(segs) + Delta(seg) < 0
    ensures Depth(segs + [seg]) == Depth(segs) + Delta(seg)
  {
    var all := segs + [seg];
    assert all[..|segs|] == segs && all[..|all|] == all;
    forall k | 0 <= k <= |segs| ensures all[..k] == segs[..k] {
    }
  }

  lemma DipsEarly(a: seq<string>, b: seq<string>)
    requires Dips(a)
    ensures Dips(a + b)
  {
    var k :| 0 <= k <= |a| && Depth(a[..k]) < 0;
    assert (a + b)[..k] == a[..k];
  }

  lemma RunIsUnique(s: string, n: nat)
    requires 0 < n <= |s| && (forall i :: 0 <= i < n ==> s[i] != '/') && (n < |s| ==> s[n] == '/')
    ensures RunLength(s) == n
  {
  }

  /** The segments before position i are `done`. */
  predicate SplitAt(p: string, i: nat, done: seq<string>)
    requires i <= |p|
  {
    Segments(p) == done + Segments(p[i..])
  }

  lemma PassSegment(p: string, i: nat, j: nat, done: seq<string>)
    requires i < j <= |p| && SplitAt(p, i, done)
    requires (forall k :: i <= k < j ==> p[k] != '/') && (j < |p| ==> p[j] == '/')
    ensures SplitAt(p, j, done + [p[i..j]])
  {
    RunIsUnique(p[i..], j - i);
    assert p[i..][..j - i] == p[i..j];
    assert p[i..][j - i..] == p[j..];
  }

  lemma PassSlash(p: string, i: nat, done: seq<string>)
    requires i < |p| && SplitAt(p, i, done) && p[i] == '/'
    ensures SplitAt(p, i + 1, done)
  {
    assert p[i..][1..] == p[i + 1..];
  }

  /** pathEscapesRoot. */
  method PathEscapesRoot(p: string) returns (escapes: bool)
    ensures escapes <==> Dips(Segments(p))
  {
    var depth := 0;
    var i := 0;
    ghost var done: seq<string> := [];
    while i < |p|
      invariant 0 <= i <= |p|
      invariant SplitAt(p, i, done)
      invariant depth == Depth(done) && !Dips(done)
    {
      if p[i] != '/' {
        var j := i + 1;
        while j < |p| && p[j] != '/'
          invariant i < j <= |p|
          invariant forall k :: i <= k < j ==> p[k] != '/'
        {
          j := j + 1;
        }
        var seg := p[i..j];
        PassSegment(p, i, j, done);
        DipsOneMore(done, seg);
        if seg == ".." {
          depth := depth - 1;
        } else if seg != "." && seg != "" {
          depth := depth + 1;
        }
        if depth < 0 {
          DipsEarly(done + [seg], Segments(p[j..]));
          return true;
        }
        done := done + [seg];
        i := j;
      } else {
        PassSlash(p, i, done);
        i := i + 1;
      }
    }
    assert p[i..] == [];
    assert Segments(p) == done;
    return false;
  }

  // ---------- the segment stack ----------

  function Last<T>(s: seq<T>): T
    requires s != []
  {
    s[|s| - 1]
  }

  function Pop<T>(s: seq<T>): seq<T>
    requires s != []
  {
    s[..|s| - 1]
  }

  /** A stack that only pops what it pushed: None once it would have to pop when empty. */
  function Strict(segs: seq<string>): Option<seq<string>> {
    if segs == [] then Some([])
    else
      var below, seg := Strict(Pop(segs)), Last(segs);
      if below.None? then None
      else if seg == UP then if below.value == [] then None else Some(Pop(below.value))
      else if seg == HERE || seg == "" then below
      else Some(below.value + [seg])
  }

  /** path.Clean's stack: at the root ".." has nowhere to go; a relative path keeps it. */
  function Clean(rooted: bool, segs: seq<string>): seq<string> {
    if segs == [] then []
    else
      var below, seg := Clean(rooted, Pop(segs)), Last(segs);
      if seg == UP then
        if below == [] || Last(below) == UP then if rooted then below else below + [UP]
        else Pop(below)
      else if seg == HERE || seg == "" then below
      else below + [seg]
  }

  lemma DipsAtTheEnd(segs: seq<string>)
    requires segs != []
    ensures Dips(segs) <==> Dips(Pop(segs)) || Depth(segs) < 0
    ensures Depth(segs) == Depth(Pop(segs)) + Delta(Last(segs))
  {
    DipsOneMore(Pop(segs), Last(segs));
    assert Pop(segs) + [Last(segs)] == segs;
  }

  /** A path escapes its root exactly when the stack has to pop while empty; otherwise the stack
      is as high as the final depth and holds no "..". */
  lemma {:induction false} EscapeIsAnEmptyPop(segs: seq<string>)
    ensures Dips(segs) <==> Strict(segs).None?
    ensures !Dips(segs) ==> |Strict(segs).value| == Depth(segs) && UP !in Strict(segs).value
  {
    if segs == [] {
      assert segs[..0] == [];
    } else {
      EscapeIsAnEmptyPop(Pop(segs));
      DipsAtTheEnd(segs);
    }
  }

  /** For a path that does not escape, path.Clean is that stack, rooted or not. */
  lemma {:induction false} CleanIsTheStack(rooted: bool, segs: seq<string>)
    requires !Dips(segs)
    ensures Strict(segs) == Some(Clean(rooted, segs))
  {
    EscapeIsAnEmptyPop(segs);
    if segs != [] {
      DipsAtTheEnd(segs);
      CleanIsTheStack(rooted, Pop(segs));
      EscapeIsAnEmptyPop(Pop(segs));
    }
  }

  /** The check is the right one: a path passes exactly if cleaning it as a relative path leaves
      no ".."; its clean form then has as many segments as its final depth. */
  lemma {:induction false} EscapesIffCleaningLeavesUp(segs: seq<string>)
    ensures Dips(segs) <==> UP in Clean(false, segs)
    ensures Dips(segs) <==> Clean(false, segs) != [] && Clean(false, segs)[0] == UP
    ensures !Dips(segs) ==> |Clean(false, segs)| == Depth(segs)
  {
    if !Dips(segs) {
      EscapeIsAnEmptyPop(segs);
      CleanIsTheStack(false, segs);
    } else if segs != [] {
      DipsAtTheEnd(segs);
      EscapesIffCleaningLeavesUp(Pop(segs));
      EscapeIsAnEmptyPop(Pop(segs));
      if !Dips(Pop(segs)) {
        CleanIsTheStack(false, Pop(segs));
      }
    }
  }

  // ---------- redirect targets ----------

  /** A parsed URL; parsing itself is the library's. */
  datatype URL = URL(
    scheme: string,
    user: Option<string>,
    host: string,
    opaquePart: string,
    path: string,
    rawQuery: string,
    fragment: string)

  function Join(segs: seq<string>): string {
    if segs == [] then ""
    else if |segs| == 1 then segs[0]
    else segs[0] + "/" + Join(segs[1..])
  }

  predicate Rooted(p: string) {
    p != "" && p[0] == '/'
  }

  /** path.Clean. */
  function CleanText(p: string): string {
    var stack := Clean(Rooted(p), Segments(p));
    if Rooted(p) then "/" + Join(stack) else if stack == [] then HERE else Join(stack)
  }

  /** The redirect target, and whether it may be used. */
  function SanitizeRedirectURL(parsed: Option<URL>): (string, bool) {
    if parsed.None? then ("", false)
    else
      var u := parsed.value;
      if u.scheme != "" || u.host != "" || u.opaquePart != "" || Dips(Segments(u.path)) then ("", false)
      else (CleanText(u.path), u.path != "")
  }

  /** A segment that names something. */
  predicate Ordinary(seg: string) {
    seg != "" && seg != HERE && seg != UP && forall i :: 0 <= i < |seg| ==> seg[i] != '/'
  }

  predicate AllOrdinary(segs: seq<string>) {
    forall k :: 0 <= k < |segs| ==> Ordinary(segs[k])
  }

  predicate SlashFree(seg: string) {
    seg != "" && forall i :: 0 <= i < |seg| ==> seg[i] != '/'
  }

  lemma {:induction false} SegmentsAreSlashFree(s: string)
    ensures forall k :: 0 <= k < |Segments(s)| ==> SlashFree(Segments(s)[k])
    decreases |s|
  {
    if s == [] {
    } else if s[0] == '/' {
      SegmentsAreSlashFree(s[1..]);
    } else {
      SegmentsAreSlashFree(s[RunLength(s)..]);
    }
  }

  lemma {:induction false} StackIsOrdinary(segs: seq<string>)
    requires forall k :: 0 <= k < |segs| ==> SlashFree(segs[k])
    requires Strict(segs).Some?
    ensures AllOrdinary(Strict(segs).value)
  {
    if segs != [] {
      StackIsOrdinary(Pop(segs));
    }
  }

  lemma {:induction false} SegmentsOfJoin(segs: seq<string>)
    requires AllOrdinary(segs)
    ensures Segments(Join(segs)) == segs
    ensures segs != [] ==> Join(segs) != "" && Join(segs)[0] != '/'
  {
    if |segs| > 0 {
      assert Ordinary(segs[0]);
      var text, n := Join(segs), |segs[0]|;
      if |segs| == 1 {
        RunIsUnique(text, n);
        assert text[..n] == text && text[n..] == [];
      } else {
        var rest := Join(segs[1..]);
        SegmentsOfJoin(segs[1..]);
        RunIsUnique(text, n);
        assert text[..n] == segs[0];
        assert text[n..] == "/" + rest;
        assert ("/" + rest)[1..] == rest;
      }
    }
  }

  lemma {:induction false} OrdinaryIsClean(rooted: bool, segs: seq<string>)
    requires AllOrdinary(segs)
    ensures Clean(rooted, segs) == segs && !Dips(segs)
  {
    if segs == [] {
      assert Depth(segs[..0]) == 0;
    } else {
      OrdinaryIsClean(rooted, Pop(segs));
      assert Ordinary(Last(segs));
      DipsAtTheEnd(segs);
      DepthOfOrdinary(segs);
      assert Pop(segs) + [Last(segs)] == segs;
    }
  }

  lemma {:induction false} DepthOfOrdinary(segs: seq<string>)
    requires AllOrdinary(segs)
    ensures Depth(segs) == |segs|
  {
    if segs != [] {
      DepthOfOrdinary(Pop(segs));
      assert Ordinary(Last(segs));
    }
  }

  /** The segments of a clean path that does not escape are its stack. */
  lemma CleanTextReadsBack(p: string)
    requires !Dips(Segments(p))
    ensures AllOrdinary(Clean(Rooted(p), Segments(p)))
    ensures Rooted(CleanText(p)) == Rooted(p)
    ensures Segments(CleanText(p)) == if CleanText(p) == HERE then [HERE] else Clean(Rooted(p), Segments(p))
  {
    var stack := Clean(Rooted(p), Segments(p));
    SegmentsAreSlashFree(p);
    CleanIsTheStack(Rooted(p), Segments(p));
    StackIsOrdinary(Segments(p));
    SegmentsOfJoin(stack);
    assert ("/" + Join(stack))[1..] == Join(stack);
    RunIsUnique(HERE, 1);
    assert HERE[..1] == HERE && HERE[1..] == [];
    if stack != [] && Join(stack) == HERE {
      assert Ordinary(stack[0]);
    }
  }

  /** A relative reference in the sense of section 4.2 of RFC 3986: rooted, or without a colon in its
      first segment, where one would be read as the end of a scheme. */
  predicate IsRelativeReference(text: string) {
    Rooted(text) || ':' !in text[..RunLength(text)]
  }

  lemma FirstSegment(segs: seq<string>)
    requires segs != [] && AllOrdinary(segs)
    ensures !Rooted(Join(segs)) && Join(segs)[..RunLength(Join(segs))] == segs[0]
  {
    var text := Join(segs);
    assert Ordinary(segs[0]);
    if |segs| == 1 {
      RunIsUnique(text, |segs[0]|);
    } else {
      assert text[..|segs[0]|] == segs[0];
      RunIsUnique(text, |segs[0]|);
    }
  }

  lemma SentIsRelativeIff(parsed: Option<URL>)
    requires SanitizeRedirectURL(parsed).1
    ensures var path := parsed.value.path;
            var segs := Clean(false, Segments(path));
            IsRelativeReference(SanitizeRedirectURL(parsed).0) <==> Rooted(path) || segs == [] || ':' !in segs[0]
  {
    var path := parsed.value.path;
    CleanTextReadsBack(path);
    if !Rooted(path) {
      var segs := Clean(false, Segments(path));
      if segs != [] {
        FirstSegment(segs);
      } else {
        RunIsUnique(HERE, 1);
      }
    }
  }

  /** A target is let through exactly for a non-empty path that does not climb above its root, in
      a URL without scheme, host and opaque part; the text sent has no ".." left and is already
      clean; and it is the promised relative target exactly if the path is rooted or its clean form
      does not begin with a segment that has a colon. */
  lemma SafeRedirectsStayInside(parsed: Option<URL>)
    ensures var (target, safe) := SanitizeRedirectURL(parsed);
            safe <==> parsed.Some?
                      && parsed.value.scheme == "" && parsed.value.host == "" && parsed.value.opaquePart == ""
                      && parsed.value.path != "" && !Dips(Segments(parsed.value.path))
    ensures var (target, safe) := SanitizeRedirectURL(parsed);
            safe ==> ".." !in Segments(target) && !Dips(Segments(target)) && CleanText(target) == target
    ensures var (target, safe) := SanitizeRedirectURL(parsed);
            safe ==> var segs := Clean(false, Segments(parsed.value.path));
                     IsRelativeReference(target) <==> Rooted(parsed.value.path) || segs == [] || ':' !in segs[0]
  {
    var (target, safe) := SanitizeRedirectURL(parsed);
    if safe {
      var p := parsed.value.path;
      SentIsRelativeIff(parsed);
      CleanTextReadsBack(p);
      var stack := Clean(Rooted(p), Segments(p));
      OrdinaryIsClean(Rooted(p), stack);
      if target == HERE {
        DipsOneMore([], HERE);
        assert [] + [HERE] == [HERE];
        assert Dips([]) ==> Depth([]) < 0;
        assert Clean(false, [HERE]) == [];
      }
    }
  }

  lemma {:induction false} HereIsSkipped(segs: seq<string>)
    requires AllOrdinary(segs)
    ensures Clean(false, [HERE] + segs) == segs && !Dips([HERE] + segs) && Depth([HERE] + segs) == |segs|
  {
    var all := [HERE] + segs;
    if segs == [] {
      assert all == [HERE] && Pop(all) == [];
      DipsAtTheEnd(all);
      assert Depth([]) == 0 && !Dips([]) by {
        OrdinaryIsClean(false, []);
      }
    } else {
      assert Pop(all) == [HERE] + Pop(segs) && Last(all) == Last(segs);
      assert Ordinary(Last(segs));
      HereIsSkipped(Pop(segs));
      DipsAtTheEnd(all);
      assert Pop(segs) + [Last(segs)] == segs;
    }
  }

  lemma DotPrefix(text: string)
    ensures Segments("./" + text) == [HERE] + Segments(text)
    ensures !Rooted("./" + text)
  {
    var p := "./" + text;
    assert p[..1] == HERE && p[1..] == "/" + text;
    assert ("/" + text)[1..] == text;
    RunIsUnique(p, 1);
  }

  lemma DotPathIsClean(segs: seq<string>)
    requires AllOrdinary(segs) && segs != []
    ensures CleanText("./" + Join(segs)) == Join(segs) && !Dips(Segments("./" + Join(segs)))
  {
    SegmentsOfJoin(segs);
    DotPrefix(Join(segs));
    HereIsSkipped(segs);
  }

  /** It happens: "./http:/" and a host name has no scheme and does not climb, but what is sent is
      read as an absolute URL. */
  lemma CleaningCanUncoverAScheme(host: string)
    requires Ordinary(host)
    ensures SanitizeRedirectURL(Some(URL("", None, "", "", "./" + Join(["http:", host]), "", "")))
         == (Join(["http:", host]), true)
    ensures !IsRelativeReference(Join(["http:", host]))
    ensures Join(["http:", host]) == "http:" + "/" + host
  {
    var segs := ["http:", host];
    assert segs[0][4] == ':' && segs[1..] == [host];
    assert Ordinary(segs[0]);
    DotPathIsClean(segs);
    FirstSegment(segs);
  }

  lemma OneSegmentIsClean(p: string, seg: string)
    requires p == "/" + seg && Ordinary(seg)
    ensures CleanText(p) == p && !Dips(Segments(p))
  {
    var segs := [seg];
    SegmentsOfJoin(segs);
    assert Join(segs) == seg && p[1..] == seg;
    assert Segments(p) == segs;
    OrdinaryIsClean(true, segs);
  }

  /** The check does not look at a query, a fragment or user information, and the target does not
      keep them: "/a?x=1", like any single segment with any query, is sent without it. */
  lemma QueryIsLost(u: URL, user: Option<string>, rawQuery: string, fragment: string, seg: string)
    requires Ordinary(seg)
    ensures SanitizeRedirectURL(Some(u.(user := user, rawQuery := rawQuery, fragment := fragment)))
         == SanitizeRedirectURL(Some(u))
    ensures SanitizeRedirectURL(Some(URL("", None, "", "", "/" + seg, rawQuery, ""))) == ("/" + seg, true)
  {
    OneSegmentIsClean("/" + seg, seg);
  }
}

/** The admin lists: filter, count, and cut one page out of what is left. */
module Paging {
  import opened Prelude

  const LIST_PAGE_SIZE := 50

  // ---------- page bounds ----------

  /** offset and limit select the rows; totalPages and current are the footer. */
  datatype Bounds = Bounds(offset: int, limit: int, totalPages: int, current: int)

  function EffectiveSize(pageSize: int): (size: int)
    ensures size > 0
  {
    if pageSize <= 0 then LIST_PAGE_SIZE else pageSize
  }

  /** pageBounds. The counts are lengths, so Go's division and this one agree. */
  function PageBounds(page: int, total: nat, pageSize: int): Bounds {
    var size := EffectiveSize(pageSize);
    var totalPages := Max((total + size - 1) / size, 1);
    var current := Min(Max(page, 1), totalPages);
    var offset := (current - 1) * size;
    Bounds(offset, Max(Min(size, total - offset), 0), totalPages, current)
  }

  function PageCount(total: nat, pageSize: int): int {
    PageBounds(1, total, pageSize).totalPages
  }

  lemma TimesOneMore(n: int, size: int)
    ensures (n + 1) * size == n * size + size
  {
  }

  lemma {:induction false} TimesKeepsOrder(m: int, n: int, size: int)
    requires m <= n && size >= 0
    ensures m * size <= n * size
    decreases n - m
  {
    if m < n {
      TimesKeepsOrder(m + 1, n, size);
      TimesOneMore(m, size);
    }
  }

  lemma QuotientBounds(n: int, size: int)
    requires size > 0
    ensures n / size * size <= n < n / size * size + size
  {
  }

  /** The last page starts at or before the end, strictly if there are rows, and reaches it. */
  lemma LastPageReachesTheEnd(total: nat, size: int)
    requires size > 0
    ensures var pages := Max((total + size - 1) / size, 1);
            && (pages - 1) * size <= total <= (pages - 1) * size + size
            && (total > 0 ==> (pages - 1) * size < total)
  {
    var q := (total + size - 1) / size;
    QuotientBounds(total + size - 1, size);
    TimesOneMore(q - 1, size);
    if q < 1 {
      TimesKeepsOrder(q, 0, size);
    }
  }

  lemma EarlierPagesAreFull(page: int, pages: int, size: int)
    requires 1 <= page < pages && size > 0
    ensures 0 <= (page - 1) * size
    ensures (page - 1) * size + size <= (pages - 1) * size
  {
    TimesKeepsOrder(0, page - 1, size);
    TimesKeepsOrder(page, pages - 1, size);
    TimesOneMore(page - 1, size);
  }

  ghost predicate RealWindow(b: Bounds, total: nat, pageSize: int) {
    && 1 <= b.current <= b.totalPages == PageCount(total, pageSize)
    && 0 <= b.offset <= b.offset + b.limit <= total
    && (pageSize > 0 ==> EffectiveSize(pageSize) == pageSize)
    && (pageSize <= 0 ==> EffectiveSize(pageSize) == 50)
    && b.offset == (b.current - 1) * EffectiveSize(pageSize)
    && (b.current < b.totalPages ==> b.limit == EffectiveSize(pageSize))
    && (b.current == b.totalPages ==> b.offset + b.limit == total)
    && (b.limit == 0 <==> total == 0)
  }

  /** Any requested page, negative or huge, gives one of the real windows: within the rows, full
      unless it is the last, and not empty unless there are no rows. */
  lemma EveryRequestGetsAWindow(page: int, total: nat, pageSize: int)
    ensures RealWindow(PageBounds(page, total, pageSize), total, pageSize)
  {
    var size, b := EffectiveSize(pageSize), PageBounds(page, total, pageSize);
    LastPageReachesTheEnd(total, size);
    TimesKeepsOrder(0, b.current - 1, size);
    if b.current < b.totalPages {
      EarlierPagesAreFull(b.current, b.totalPages, size);
    }
  }

  /** Clamping is all that happens to a request: an existing page is the one shown, and any other
      shows what the nearest existing page shows. */
  lemma RequestsAreClamped(page: int, total: nat, pageSize: int)
    ensures var b := PageBounds(page, total, pageSize);
            && b == PageBounds(b.current, total, pageSize)
            && b.current == (if page < 1 then 1
                             else if page > PageCount(total, pageSize) then PageCount(total, pageSize)
                             else page)
  {
  }

  function Window<T>(list: seq<T>, page: int, pageSize: int): seq<T> {
    var b := PageBounds(page, |list|, pageSize);
    EveryRequestGetsAWindow(page, |list|, pageSize);
    list[b.offset..b.offset + b.limit]
  }

  /** Pages 1 to n, one after the other. */
  function FirstPages<T>(list: seq<T>, n: nat, pageSize: int): seq<T> {
    if n == 0 then [] else FirstPages(list, n - 1, pageSize) + Window(list, n, pageSize)
  }

  /** Where page n ends. */
  function EndOf(n: nat, total: nat, pageSize: int): int {
    if n == PageCount(total, pageSize) then total else n * EffectiveSize(pageSize)
  }

  lemma EndsMeetStarts(n: nat, total: nat, pageSize: int)
    requires 1 <= n <= PageCount(total, pageSize)
    ensures 0 <= EndOf(n - 1, total, pageSize) <= EndOf(n, total, pageSize) <= total
    ensures var b := PageBounds(n, total, pageSize);
            b.offset == EndOf(n - 1, total, pageSize) && b.offset + b.limit == EndOf(n, total, pageSize)
  {
    EveryRequestGetsAWindow(n, total, pageSize);
    RequestsAreClamped(n, total, pageSize);
    TimesOneMore(n - 1, EffectiveSize(pageSize));
  }

  lemma {:induction false} FirstPagesAreAPrefix<T>(list: seq<T>, n: nat, pageSize: int)
    requires n <= PageCount(|list|, pageSize)
    ensures 0 <= EndOf(n, |list|, pageSize) <= |list|
    ensures FirstPages(list, n, pageSize) == list[..EndOf(n, |list|, pageSize)]
  {
    if n > 0 {
      FirstPagesAreAPrefix(list, n - 1, pageSize);
      EndsMeetStarts(n, |list|, pageSize);
    } else {
      RequestsAreClamped(1, |list|, pageSize);
    }
  }

  /** The pages together are the list: every row once, in order. */
  lemma PagesPartitionTheList<T>(list: seq<T>, pageSize: int)
    ensures FirstPages(list, PageCount(|list|, pageSize), pageSize) == list
  {
    FirstPagesAreAPrefix(list, PageCount(|list|, pageSize), pageSize);
  }

  /** Row k is shown on page k / size + 1 and on no other. */
  lemma EachRowHasOnePage(total: nat, pageSize: int, page: int, k: nat)
    requires k < total && 1 <= page <= PageCount(total, pageSize)
    ensures var b := PageBounds(page, total, pageSize);
            b.offset <= k < b.offset + b.limit <==> page == k / EffectiveSize(pageSize) + 1
  {
    var size := EffectiveSize(pageSize);
    var q := k / size;
    EveryRequestGetsAWindow(page, total, pageSize);
    RequestsAreClamped(page, total, pageSize);
    QuotientBounds(k, size);
    TimesOneMore(q, size);
    TimesOneMore(page - 1, size);
    if q < page - 1 {
      TimesKeepsOrder(q + 1, page - 1, size);
    } else if q > page - 1 {
      TimesKeepsOrder(page, q, size);
    }
  }

  // ---------- filters ----------

  function Kept<T>(list: seq<T>, keep: T -> bool): seq<T> {
    if list == [] then []
    else
      var n := |list| - 1;
      Kept(list[..n], keep) + if keep(list[n]) then [list[n]] else []
  }

  /** Every kept row is a matching row, and rows keep their multiplicity. */
  lemma {:induction false} KeptIsExact<T>(list: seq<T>, keep: T -> bool, x: T)
    ensures multiset(Kept(list, keep))[x] == if keep(x) then multiset(list)[x] else 0
  {
    if list != [] {
      var n := |list| - 1;
      KeptIsExact(list[..n], keep, x);
      assert list == list[..n] + [list[n]];
    }
  }

  predicate PartAt(s: string, part: string, i: int) {
    0 <= i <= |s| - |part| && s[i..i + |part|] == part
  }

  predicate Contains(s: string, part: string) {
    exists i :: 0 <= i <= |s| && PartAt(s, part, i)
  }

  /** The part is found exactly if the text is the part with something before and after it. */
  lemma ContainsIsAPart(s: string, part: string)
    ensures Contains(s, part) <==> exists a, b :: s == a + part + b
  {
    if Contains(s, part) {
      var i :| 0 <= i <= |s| && PartAt(s, part, i);
      assert s == s[..i] + part + s[i + |part|..];
    }
    if exists a, b :: s == a + part + b {
      var a, b :| s == a + part + b;
      assert s[|a|..|a| + |part|] == part;
      assert PartAt(s, part, |a|);
    }
  }

  lemma EverythingContainsNothing(s: string)
    ensures Contains(s, "")
  {
    assert PartAt(s, "", 0);
  }

  datatype User = User(
    email: string,
    displayName: string,
    emailVerified: bool,
    totpEnabled: bool,
    externalAccounts: nat)

  datatype UserFilter = NoFilter | Verified | Unverified | Mfa | External

  function ParseUserFilter(raw: string): UserFilter {
    if raw == "verified" then Verified
    else if raw == "unverified" then Unverified
    else if raw == "mfa" then Mfa
    else if raw == "external" then External
    else NoFilter
  }

  predicate UserMatchesFilter(u: User, filter: UserFilter) {
    match filter
    case Verified => u.emailVerified
    case Unverified => !u.emailVerified
    case Mfa => u.totpEnabled
    case External => u.externalAccounts > 0
    case NoFilter => true
  }

  /** lower is the library's case mapping, which maps the empty string to itself. */
  predicate UserMatches(u: User, q: string, filter: UserFilter, lower: string -> string) {
    && (Contains(lower(u.email), lower(q)) || Contains(lower(u.displayName), lower(q)))
    && UserMatchesFilter(u, filter)
  }

  /** The searched text is part of this one, in lower case. */
  ghost predicate Finds(text: string, q: string, lower: string -> string) {
    exists a, b :: lower(text) == a + lower(q) + b
  }

  /** What a search shows: users whose email or display name has the text, and whom the chip names. */
  lemma SearchShows(u: User, q: string, raw: string, lower: string -> string)
    ensures UserMatches(u, q, ParseUserFilter(raw), lower)
            <==> (Finds(u.email, q, lower) || Finds(u.displayName, q, lower))
                 && (raw == "verified" ==> u.emailVerified) && (raw == "unverified" ==> !u.emailVerified)
                 && (raw == "mfa" ==> u.totpEnabled) && (raw == "external" ==> u.externalAccounts > 0)
  {
    ContainsIsAPart(lower(u.email), lower(q));
    ContainsIsAPart(lower(u.displayName), lower(q));
  }

  method FilterUsers(all: seq<User>, q: string, filter: UserFilter, lower: string -> string) returns (out: seq<User>)
    ensures out == Kept(all, (u: User) => UserMatches(u, q, filter, lower))
  {
    var needle := lower(q);
    ghost var keep := (u: User) => UserMatches(u, q, filter, lower);
    out := [];
    for i := 0 to |all|
      invariant out == Kept(all[..i], keep)
    {
      assert all[..i + 1][..i] == all[..i];
      var u := all[i];
      EverythingContainsNothing(lower(u.email));
      if needle != "" && !Contains(lower(u.email), needle) && !Contains(lower(u.displayName), needle) {
        continue;
      }
      if !UserMatchesFilter(u, filter) {
        continue;
      }
      out := out + [u];
    }
    assert all[..|all|] == all;
  }

  /** parsed is the number in the page parameter, None when it is missing or malformed. */
  function ParsePageQuery(parsed: Option<int>): int {
    if parsed.None? || parsed.value < 1 then 1 else parsed.value
  }

  datatype Listing<T> = Listing(rows: seq<T>, total: int, page: int, totalPages: int)

  /** The page shown is an existing page of the matched rows, fifty to a page: the one asked for if it
      exists, the first if none or one before it is, the last if one beyond it is. */
  predicate ShowsAPage<T(==)>(d: Listing<T>, matched: seq<T>, parsed: Option<int>) {
    && d.total == |matched|
    && 1 <= d.page <= d.totalPages == PageCount(|matched|, 50)
    && d.rows == Window(matched, d.page, 50)
    && (parsed.Some? && 1 <= parsed.value <= d.totalPages ==> d.page == parsed.value)
    && (parsed.None? || parsed.value < 1 ==> d.page == 1)
    && (parsed.Some? && parsed.value > d.totalPages ==> d.page == d.totalPages)
  }

  lemma PageShown(total: nat, parsed: Option<int>)
    ensures var b := PageBounds(ParsePageQuery(parsed), total, LIST_PAGE_SIZE);
            && 0 <= b.offset <= b.offset + b.limit <= total
            && b == PageBounds(b.current, total, LIST_PAGE_SIZE)
            && 1 <= b.current <= b.totalPages == PageCount(total, LIST_PAGE_SIZE)
            && (parsed.Some? && 1 <= parsed.value <= b.totalPages ==> b.current == parsed.value)
            && (parsed.None? || parsed.value < 1 ==> b.current == 1)
            && (parsed.Some? && parsed.value > b.totalPages ==> b.current == b.totalPages)
  {
    EveryRequestGetsAWindow(ParsePageQuery(parsed), total, LIST_PAGE_SIZE);
    RequestsAreClamped(ParsePageQuery(parsed), total, LIST_PAGE_SIZE);
  }

  method PageOf<T(==)>(matched: seq<T>, parsed: Option<int>) returns (d: Listing<T>)
    ensures ShowsAPage(d, matched, parsed)
  {
    var page := ParsePageQuery(parsed);
    var b := PageBounds(page, |matched|, LIST_PAGE_SIZE);
    PageShown(|matched|, parsed);
    d := Listing(matched[b.offset..b.offset + b.limit], |matched|, b.current, b.totalPages);
  }

  /** usersIndex: the page shown is a page of the filtered list, whatever page is asked for. */
  method UsersIndex(all: seq<User>, q: string, rawFilter: string, parsed: Option<int>, lower: string -> string)
    returns (d: Listing<User>)
    ensures var matched := Kept(all, (u: User) => UserMatches(u, q, ParseUserFilter(rawFilter), lower));
            ShowsAPage(d, matched, parsed)
  {
    var matched := FilterUsers(all, q, ParseUserFilter(rawFilter), lower);
    d := PageOf(matched, parsed);
  }

  // ---------- the audit log ----------

  datatype AuditEntry = AuditEntry(action: string, email: string, aggregateId: string)

  /** users is the read model's email by aggregate id. */
  function Resolved(users: map<string, string>, e: AuditEntry): AuditEntry {
    if e.email == "" && e.aggregateId in users then e.(email := users[e.aggregateId]) else e
  }

  method ResolveAuditEmails(users: map<string, string>, entries: array<AuditEntry>)
    modifies entries
    ensures forall i :: 0 <= i < entries.Length ==> entries[i] == Resolved(users, old(entries[i]))
    ensures forall i :: 0 <= i < entries.Length ==>
              entries[i].email == (if old(entries[i]).email == "" && old(entries[i]).aggregateId in users
                                   then users[old(entries[i]).aggregateId] else old(entries[i]).email)
              && entries[i].action == old(entries[i]).action
              && entries[i].aggregateId == old(entries[i]).aggregateId
  {
    for i := 0 to entries.Length
      invariant forall k :: 0 <= k < i ==> entries[k] == Resolved(users, old(entries[k]))
      invariant forall k :: i <= k < entries.Length ==> entries[k] == old(entries[k])
    {
      if entries[i].email != "" {
        continue;
      }
      if entries[i].aggregateId in users {
        entries[i] := entries[i].(email := users[entries[i].aggregateId]);
      }
    }
  }

  predicate EntryMatches(e: AuditEntry, q: string, lower: string -> string, labelOf: string -> string) {
    || Contains(lower(e.action), lower(q))
    || Contains(lower(e.email), lower(q))
    || Contains(lower(e.aggregateId), lower(q))
    || Contains(lower(labelOf(e.action)), lower(q))
  }

  /** What a search in the log shows: entries whose action, email, user or label has the text. */
  lemma AuditSearchShows(e: AuditEntry, q: string, lower: string -> string, labelOf: string -> string)
    ensures EntryMatches(e, q, lower, labelOf)
            <==> Finds(e.action, q, lower) || Finds(e.email, q, lower) || Finds(e.aggregateId, q, lower)
                 || Finds(labelOf(e.action), q, lower)
  {
    ContainsIsAPart(lower(e.action), lower(q));
    ContainsIsAPart(lower(e.email), lower(q));
    ContainsIsAPart(lower(e.aggregateId), lower(q));
    ContainsIsAPart(lower(labelOf(e.action)), lower(q));
  }

  method FilterAuditEntries(entries: seq<AuditEntry>, q: string, lower: string -> string, labelOf: string -> string)
    returns (out: seq<AuditEntry>)
    requires lower("") == ""
    ensures out == Kept(entries, (e: AuditEntry) => EntryMatches(e, q, lower, labelOf))
  {
    ghost var keep := (e: AuditEntry) => EntryMatches(e, q, lower, labelOf);
    if q == "" {
      EmptyNeedleKeepsAll(entries, lower, labelOf);
      return entries;
    }
    var want := lower(q);
    out := [];
    for i := 0 to |entries|
      invariant out == Kept(entries[..i], keep)
    {
      assert entries[..i + 1][..i] == entries[..i];
      var e := entries[i];
      if Contains(lower(e.action), want) || Contains(lower(e.email), want)
         || Contains(lower(e.aggregateId), want) || Contains(lower(labelOf(e.action)), want)
      {
        out := out + [e];
      }
    }
    assert entries[..|entries|] == entries;
  }

  lemma {:induction false} EmptyNeedleKeepsAll(entries: seq<AuditEntry>, lower: string -> string,
                                               labelOf: string -> string)
    requires lower("") == ""
    ensures Kept(entries, (e: AuditEntry) => EntryMatches(e, "", lower, labelOf)) == entries
  {
    if entries != [] {
      var n := |entries| - 1;
      EmptyNeedleKeepsAll(entries[..n], lower, labelOf);
      EverythingContainsNothing(lower(entries[n].action));
      assert entries == entries[..n] + [entries[n]];
    }
  }

  /** auditIndex: emails are resolved first, so a search finds an entry by the email it shows. */
  method AuditIndex(users: map<string, string>, all: array<AuditEntry>, q: string, parsed: Option<int>,
                    lower: string -> string, labelOf: string -> string) returns (d: Listing<AuditEntry>)
    requires lower("") == ""
    modifies all
    ensures forall i :: 0 <= i < all.Length ==> all[i] == Resolved(users, old(all[i]))
    ensures var matched := Kept(all[..], (e: AuditEntry) => EntryMatches(e, q, lower, labelOf));
            ShowsAPage(d, matched, parsed)
  {
    ResolveAuditEmails(users, all);
    var matched := FilterAuditEntries(all[..], q, lower, labelOf);
    d := PageOf(matched, parsed);
  }
}

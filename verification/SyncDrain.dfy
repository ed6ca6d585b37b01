/** Paging until caught up: the pull loop a client runs against a journal nobody writes to. */
module SyncDrain {
  import opened Prelude
  import opened EventIds
  import opened SyncWire
  import opened SyncPull

  /** The shipped client follows hasMore at most this many times after its first page. */
  const PULL_MAX_PAGES := 20

  /** How many pages of the given size a backlog of n events takes: at least one. */
  function PagesFor(n: nat, limit: nat): (p: nat)
    requires limit > 0
    ensures p >= 1
  {
    if n <= limit then 1 else 1 + PagesFor(n - limit, limit)
  }

  /** p pages are enough exactly for a backlog of at most p * limit events. */
  lemma {:induction false} PagesSuffice(n: nat, limit: nat, p: nat)
    requires limit > 0 && p > 0
    ensures PagesFor(n, limit) <= p <==> n <= p * limit
  {
    if n > limit {
      if p == 1 {
        assert PagesFor(n - limit, limit) >= 1;
      } else {
        PagesSuffice(n - limit, limit, p - 1);
        assert p * limit == (p - 1) * limit + limit;
      }
    } else {
      assert limit <= p * limit;
    }
  }

  /** The shipped client's cap lets it fetch one page and PULL_MAX_PAGES more, which catches up with
      exactly the backlogs of at most 21 pages. */
  lemma ShippedClientCatchesUpIff(n: nat, limit: nat)
    requires limit > 0
    ensures PagesFor(n, limit) <= PULL_MAX_PAGES + 1 <==> n <= 21 * limit
  {
    PagesSuffice(n, limit, PULL_MAX_PAGES + 1);
  }

  function MorePages(left: nat, limit: nat): nat
    requires limit > 0
  {
    if left == 0 then 0 else PagesFor(left, limit)
  }

  lemma OnePageLess(before: nat, left: nat, limit: nat)
    requires limit > 0 && left == before - Min(limit, before)
    ensures PagesFor(before, limit) == 1 + MorePages(left, limit)
    ensures before > 0 ==> MorePages(before, limit) == 1 + MorePages(left, limit)
  {
  }

  /** That count is max(1, ceil(n / limit)). */
  lemma {:induction false} PagesForIsCeiling(n: nat, limit: nat)
    requires limit > 0
    ensures PagesFor(n, limit) == Max(1, (n + limit - 1) / limit)
  {
    if n > limit {
      PagesForIsCeiling(n - limit, limit);
      var q := (n - limit + limit - 1) / limit;
      assert (n + limit - 1) / limit == q + 1 by {
        assert n + limit - 1 == (n - limit + limit - 1) + limit;
        DivPlusOne(n - limit + limit - 1, limit);
      }
      assert q >= 1 by {
        assert n - 1 == (n - 1 - limit) + limit;
        DivPlusOne(n - 1 - limit, limit);
      }
    } else if n > 0 {
      DivPlusOne(n - 1, limit);
      assert (n - 1) / limit == 0;
    } else {
      assert (limit - 1) / limit == 0;
    }
  }

  lemma DivPlusOne(a: nat, d: nat)
    requires d > 0
    ensures (a + d) / d == a / d + 1
  {
    var q, r := a / d, a % d;
    assert a + d == (q + 1) * d + r;
    QuotientIsUnique(a + d, d, q + 1, r);
  }

  lemma MultiplesAreApart(p: nat, q: nat, d: nat)
    requires p < q
    ensures p * d + d <= q * d
  {
    assert (q - p - 1) * d >= 0;
    assert q * d == p * d + d + (q - p - 1) * d;
  }

  lemma QuotientIsUnique(a: nat, d: nat, q: nat, r: nat)
    requires d > 0 && a == q * d + r && r < d
    ensures a / d == q
  {
    var p := a / d;
    if p < q {
      MultiplesAreApart(p, q, d);
    } else if p > q {
      MultiplesAreApart(q, p, d);
    }
  }

  /** The documented contract: keep the old cursor when the reply has none. */
  function NextCursor(cursor: EventId, nextCursor: EventId): EventId {
    if nextCursor != ZERO then nextCursor else cursor
  }

  /** One request: it takes the first min(limit, left) of the events that were left. */
  method PullOnce(backendId: string, filter: Filter, isJson: JsonCheck, journal: seq<Event>,
                  cursor: EventId, limit: nat)
    returns (next: EventId, visible: seq<SyncEvent>, hasMore: bool, ghost more: seq<Event>)
    requires Ascending(journal) && limit >= 1
    ensures |more| == Min(limit, |After(journal, cursor)|)
    ensures more + After(journal, next) == After(journal, cursor)
    ensures visible == VisibleWire(more, filter, isJson)
    ensures hasMore <==> After(journal, next) != []
    ensures next >= cursor
  {
    CursorNeverFalls(journal, cursor, limit);
    var body := Page(backendId, filter, isJson, journal, cursor, limit);
    next, visible, hasMore := NextCursor(cursor, body.nextCursor), body.events, body.hasMore;
    PageAdvances(journal, cursor, limit);
    more := PageWindow(journal, cursor, limit).events;
  }

  lemma CursorNeverFalls(journal: seq<Event>, cursor: EventId, limit: nat)
    requires Ascending(journal)
    ensures NextCursor(cursor, LastId(PageWindow(journal, cursor, limit).events)) >= cursor
  {
    PageWindowSplits(journal, cursor, limit);
  }

  ghost function LeftAfter(journal: seq<Event>, cursor: EventId, limit: nat): seq<Event> {
    After(journal, NextCursor(cursor, LastId(PageWindow(journal, cursor, limit).events)))
  }

  lemma LeftIsSuffix(journal: seq<Event>, cursor: EventId, limit: nat, k: nat)
    requires Ascending(journal) && limit >= 1 && k == Min(limit, |After(journal, cursor)|)
    ensures LeftAfter(journal, cursor, limit) == After(journal, cursor)[k..]
  {
    PageTakes(journal, cursor, limit, k);
    if k > 0 {
      RestAfterPrefix(journal, cursor, k);
    }
  }

  lemma PageAdvances(journal: seq<Event>, cursor: EventId, limit: nat)
    requires Ascending(journal) && limit >= 1
    ensures |PageWindow(journal, cursor, limit).events| == Min(limit, |After(journal, cursor)|)
    ensures PageWindow(journal, cursor, limit).events + LeftAfter(journal, cursor, limit) == After(journal, cursor)
    ensures PageWindow(journal, cursor, limit).hasMore <==> LeftAfter(journal, cursor, limit) != []
  {
    var rest := After(journal, cursor);
    var k := Min(limit, |rest|);
    LeftIsSuffix(journal, cursor, limit, k);
    PageTakes(journal, cursor, limit, k);
    assert rest[..k] + rest[k..] == rest;
  }

  lemma PageTakes(journal: seq<Event>, cursor: EventId, limit: nat, k: nat)
    requires Ascending(journal) && limit >= 1 && k == Min(limit, |After(journal, cursor)|)
    ensures var window := PageWindow(journal, cursor, limit);
            var rest := After(journal, cursor);
            && window.events == rest[..k]
            && (window.hasMore <==> k < |rest|)
            && LastId(window.events) == (if k == 0 then ZERO else rest[k - 1].id)
            && (k > 0 ==> rest[k - 1].id != ZERO)
  {
    AfterMembers(journal, cursor);
  }

  /** The pull loop of the client on a quiescent journal: exactly max(1, ceil(n / limit))
      pages unless the cap stops it first; what it collects is the visible part of what it
      read, and what it read and what is left make up the backlog. */
  method PullEvents(backendId: string, filter: Filter, isJson: JsonCheck, journal: seq<Event>,
                    start: EventId, limit: nat, maxPages: nat)
    returns (pulls: nat, cursor: EventId, collected: seq<SyncEvent>, caughtUp: bool, ghost read: seq<Event>)
    requires Ascending(journal) && limit >= 1
    ensures pulls == Min(maxPages + 1, PagesFor(|After(journal, start)|, limit))
    ensures caughtUp <==> PagesFor(|After(journal, start)|, limit) <= maxPages + 1
    ensures caughtUp <==> After(journal, cursor) == []
    ensures read + After(journal, cursor) == After(journal, start)
    ensures collected == VisibleWire(read, filter, isJson)
    ensures cursor >= start
  {
    var hasMore;
    cursor, collected, hasMore, read := PullOnce(backendId, filter, isJson, journal, start, limit);
    pulls := 1;
    ghost var total, rest := |After(journal, start)|, After(journal, cursor);
    ghost var left := |rest|;
    OnePageLess(total, left, limit);
    while hasMore && pulls - 1 < maxPages
      invariant 1 <= pulls <= maxPages + 1
      invariant rest == After(journal, cursor)
      invariant read + rest == After(journal, start)
      invariant hasMore <==> rest != []
      invariant cursor >= start
      invariant collected == VisibleWire(read, filter, isJson)
      invariant left == |rest| && PagesFor(total, limit) == pulls + MorePages(left, limit)
      decreases maxPages + 1 - pulls
    {
      ghost var before := left;
      var visible;
      ghost var more;
      cursor, visible, hasMore, more := PullOnce(backendId, filter, isJson, journal, cursor, limit);
      VisibleAppends(read, more, filter, isJson);
      rest := After(journal, cursor);
      left := |rest|;
      OnePageLess(before, left, limit);
      Regroup(read, more, rest);
      collected, pulls, read := collected + visible, pulls + 1, read + more;
    }
    caughtUp := !hasMore;
  }
}

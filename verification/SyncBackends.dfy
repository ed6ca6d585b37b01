/** Batches of several backends: what each brings with it, and which events a cache can lack after
    any interleaving of their reads and writes. */
module SyncBackends {
  import opened EventIds
  import opened SyncWire
  import opened SyncPull
  import opened SyncRun
  import opened SyncWorkers

  /** A backend by now: every event it ever appended, and those it still has. */
  datatype Backend = Backend(history: seq<Event>, journal: seq<Event>)

  /** A page of a pull was served by this backend, from its cursor lo up to hi. */
  datatype Range = Range(backend: nat, lo: EventId, hi: EventId)

  type Backends = nat -> Backend

  predicate Within(r: Range, backend: nat, id: EventId) {
    r.backend == backend && r.lo < id <= r.hi
  }

  predicate CoveredBy(ranges: seq<Range>, backend: nat, id: EventId) {
    exists r :: r in ranges && Within(r, backend, id)
  }

  /** A visible event of one of the ranges, as it is delivered. */
  ghost predicate Brought(backends: Backends, filter: Filter, json: JsonLibrary, ranges: seq<Range>, v: SyncEvent) {
    exists r, e :: r in ranges && e in backends(r.backend).history && Within(r, r.backend, e.id)
      && Sees(filter, e) && v == Delivered(e, json)
  }

  /** The records are those of visible events in the ranges, and none that the backends still have
      is left out. */
  ghost predicate Brings(backends: Backends, filter: Filter, json: JsonLibrary, ranges: seq<Range>,
                         events: seq<SyncEvent>)
  {
    && (forall v | v in events :: Brought(backends, filter, json, ranges, v))
    && (forall r, e | r in ranges && e in backends(r.backend).journal && Within(r, r.backend, e.id)
          && Sees(filter, e) :: Delivered(e, json) in events)
  }

  // ---------- a pull may itself be served by several backends ----------

  /** One page of a pull: the backend that serves it and the journal it has at that moment. The name
      a backend gives itself, if any, has no part in what it sends. */
  datatype Fetch = Fetch(backend: nat, journal: seq<Event>, limit: nat)

  /** A journal of the past: nothing but the backend's events, and what it lacked by then was
      compacted away or came later. */
  ghost predicate Past(journal: seq<Event>, b: Backend) {
    && Ascending(journal)
    && (forall e | e in journal :: e in b.history)
    && (forall e | e in b.journal && e.id <= LastId(journal) :: e in journal)
  }

  function Collected(world: World, p: Pull, fetches: seq<Fetch>): Pull {
    if fetches == [] then p
    else
      var last := fetches[|fetches| - 1];
      Fetched(world, last.journal, Collected(world, p, fetches[..|fetches| - 1]), last.limit)
  }

  function RangesOf(world: World, p: Pull, fetches: seq<Fetch>): seq<Range> {
    if fetches == [] then []
    else
      var n := |fetches| - 1;
      RangesOf(world, p, fetches[..n])
      + [Range(fetches[n].backend, Collected(world, p, fetches[..n]).cursor, Collected(world, p, fetches).cursor)]
  }

  /** The page and the cursor it leaves the pull at. */
  function PageOf(world: World, filter: Filter, f: Fetch, cursor: EventId): PullBody {
    Page(world.backendId, filter, world.json.isValid, f.journal, cursor, f.limit)
  }

  function RangeOf(world: World, filter: Filter, f: Fetch, cursor: EventId): Range {
    var next := PageOf(world, filter, f, cursor).nextCursor;
    Range(f.backend, cursor, if next != ZERO then next else cursor)
  }

  lemma EventOnPage(world: World, filter: Filter, f: Fetch, cursor: EventId, w: SyncEvent) returns (e: Event)
    requires Ascending(f.journal) && w in PageOf(world, filter, f, cursor).events
    ensures e in f.journal && Sees(filter, e) && w == ToWire(e, world.json.isValid)
    ensures Within(RangeOf(world, filter, f, cursor), f.backend, e.id)
  {
    PageIsExact(world.backendId, filter, world.json.isValid, f.journal, cursor, f.limit);
    var upTo := RangeOf(world, filter, f, cursor).hi;
    e :| e in f.journal && cursor < e.id <= upTo && Sees(filter, e) && w == ToWire(e, world.json.isValid);
  }

  lemma ReceivedFrom(events: seq<SyncEvent>, rewrite: JsonRewrite, v: SyncEvent) returns (w: SyncEvent)
    requires v in Received(events, rewrite)
    ensures w in events && v == Encoded(w, rewrite)
  {
    ReceivedMembers(events, rewrite);
    w :| w in events && v == Encoded(w, rewrite);
  }

  lemma BroughtByOne(backends: Backends, filter: Filter, json: JsonLibrary, r: Range, e: Event)
    requires e in backends(r.backend).history && Within(r, r.backend, e.id) && Sees(filter, e)
    ensures Brought(backends, filter, json, [r], Delivered(e, json))
  {
    assert r in [r];
  }

  lemma PageIsGenuine(world: World, filter: Filter, backends: Backends, f: Fetch, cursor: EventId, v: SyncEvent)
    requires Past(f.journal, backends(f.backend))
    requires v in Received(PageOf(world, filter, f, cursor).events, world.json.rewrite)
    ensures Brought(backends, filter, world.json, [RangeOf(world, filter, f, cursor)], v)
  {
    var w := ReceivedFrom(PageOf(world, filter, f, cursor).events, world.json.rewrite, v);
    var e := EventOnPage(world, filter, f, cursor, w);
    BroughtByOne(backends, filter, world.json, RangeOf(world, filter, f, cursor), e);
  }

  lemma PageLeavesNoneOut(world: World, filter: Filter, backends: Backends, f: Fetch, cursor: EventId, e: Event)
    requires Past(f.journal, backends(f.backend))
    requires e in backends(f.backend).journal && Sees(filter, e)
    requires Within(RangeOf(world, filter, f, cursor), f.backend, e.id)
    ensures Delivered(e, world.json) in Received(PageOf(world, filter, f, cursor).events, world.json.rewrite)
  {
    var json, body := world.json, PageOf(world, filter, f, cursor);
    PageIsExact(world.backendId, filter, json.isValid, f.journal, cursor, f.limit);
    ReceivedMembers(body.events, json.rewrite);
    LastIdIsLargest(f.journal);
    assert e in f.journal;
    assert ToWire(e, json.isValid) in body.events;
  }

  lemma PageBrings(world: World, filter: Filter, backends: Backends, f: Fetch, cursor: EventId)
    requires Past(f.journal, backends(f.backend))
    ensures Brings(backends, filter, world.json, [RangeOf(world, filter, f, cursor)],
                   Received(PageOf(world, filter, f, cursor).events, world.json.rewrite))
  {
    var range, received := RangeOf(world, filter, f, cursor),
      Received(PageOf(world, filter, f, cursor).events, world.json.rewrite);
    forall v | v in received ensures Brought(backends, filter, world.json, [range], v) {
      PageIsGenuine(world, filter, backends, f, cursor, v);
    }
    forall r, e | r in [range] && e in backends(r.backend).journal && Within(r, r.backend, e.id) && Sees(filter, e)
      ensures Delivered(e, world.json) in received
    {
      PageLeavesNoneOut(world, filter, backends, f, cursor, e);
    }
  }

  lemma BringsJoins(backends: Backends, filter: Filter, json: JsonLibrary,
                    r1: seq<Range>, events1: seq<SyncEvent>, r2: seq<Range>, events2: seq<SyncEvent>)
    requires Brings(backends, filter, json, r1, events1) && Brings(backends, filter, json, r2, events2)
    ensures Brings(backends, filter, json, r1 + r2, events1 + events2)
  {
    forall v | v in events1 + events2 ensures Brought(backends, filter, json, r1 + r2, v) {
      var part := if v in events1 then r1 else r2;
      assert Brought(backends, filter, json, part, v);
      var r, e :| r in part && e in backends(r.backend).history && Within(r, r.backend, e.id)
        && Sees(filter, e) && v == Delivered(e, json);
      assert r in r1 + r2;
    }
  }

  /** Whichever backends serve its pages: what a pull collects from an empty collection is what the
      ranges of its pages bring. */
  lemma {:induction false} PullBringsItsRanges(world: World, p: Pull, fetches: seq<Fetch>, backends: Backends)
    requires p.collected == []
    requires forall f | f in fetches :: Past(f.journal, backends(f.backend))
    ensures Brings(backends, world.filters(p.client), world.json, RangesOf(world, p, fetches),
                   Collected(world, p, fetches).collected)
    ensures Collected(world, p, fetches).client == p.client
    decreases |fetches|
  {
    if fetches != [] {
      var n := |fetches| - 1;
      var before, last := Collected(world, p, fetches[..n]), fetches[n];
      assert last in fetches && forall f | f in fetches[..n] :: f in fetches;
      PullBringsItsRanges(world, p, fetches[..n], backends);
      PageBrings(world, world.filters(p.client), backends, last, before.cursor);
      BringsJoins(backends, world.filters(p.client), world.json, RangesOf(world, p, fetches[..n]), before.collected,
                  [RangeOf(world, world.filters(p.client), last, before.cursor)],
                  Received(PageOf(world, world.filters(p.client), last, before.cursor).events, world.json.rewrite));
    }
  }

  // ---------- after any interleaving ----------

  lemma {:induction false} RecordsMembers(writes: seq<Write>, v: SyncEvent)
    ensures v in RecordsOf(writes) <==> exists i :: 0 <= i < |writes| && v in writes[i].batch.events
    decreases |writes|
  {
    if writes != [] {
      var n := |writes| - 1;
      RecordsMembers(writes[..n], v);
      if v in RecordsOf(writes[..n]) {
        var i :| 0 <= i < n && v in writes[..n][i].batch.events;
        assert v in writes[i].batch.events;
      }
      if exists i :: 0 <= i < n && v in writes[i].batch.events {
        var i :| 0 <= i < n && v in writes[i].batch.events;
        assert v in writes[..n][i].batch.events;
      }
    }
  }

  lemma {:induction false} StoredHasKey(cache: map<EventId, SyncEvent>, events: seq<SyncEvent>, v: SyncEvent)
    requires v in events
    ensures v.eventId in Stored(cache, events)
    decreases |events|
  {
    var n := |events| - 1;
    if v != events[n] {
      assert v in events[..n];
      StoredHasKey(cache, events[..n], v);
    }
  }

  /** Write i's batch brings what its ranges say. */
  ghost predicate Sourced(backends: Backends, filter: Filter, json: JsonLibrary,
                          writes: seq<Write>, ranges: seq<seq<Range>>)
  {
    && |ranges| == |writes|
    && forall i | 0 <= i < |writes| :: Brings(backends, filter, json, ranges[i], writes[i].batch.events)
  }

  /** Event IDs are unique across backends. */
  ghost predicate OneOwner(backends: Backends, backend: nat, e: Event) {
    && e in backends(backend).history && Ascending(backends(backend).history)
    && forall other, f | f in backends(other).history && f.id == e.id :: other == backend
  }

  ghost predicate CoveredSince(ranges: seq<seq<Range>>, k: nat, backend: nat, id: EventId) {
    exists i :: k <= i < |ranges| && CoveredBy(ranges[i], backend, id)
  }

  lemma BroughtIsThatEvent(backends: Backends, filter: Filter, json: JsonLibrary, ranges: seq<Range>, v: SyncEvent,
                           backend: nat, e: Event)
    requires Brought(backends, filter, json, ranges, v) && OneOwner(backends, backend, e) && v.eventId == e.id
    ensures v == Delivered(e, json) && Sees(filter, e) && CoveredBy(ranges, backend, e.id)
  {
    var r, f :| r in ranges && f in backends(r.backend).history && Within(r, r.backend, f.id)
      && Sees(filter, f) && v == Delivered(f, json);
    assert f.id == e.id && r.backend == backend;
    OneEventPerId(backends(backend).history, e, f);
  }

  lemma CachedWasCovered(backends: Backends, filter: Filter, json: JsonLibrary,
                         writes: seq<Write>, ranges: seq<seq<Range>>, k: nat, backend: nat, e: Event)
    requires Sourced(backends, filter, json, writes, ranges) && LastResetAt(writes, k)
    requires OneOwner(backends, backend, e) && e.id in AfterWrites(writes).worker.cache
    ensures AfterWrites(writes).worker.cache[e.id] == Delivered(e, json) && Sees(filter, e)
    ensures CoveredSince(ranges, k, backend, e.id)
  {
    CacheIsSinceTheLastReset(writes, k);
    var records := RecordsOf(writes[k..]);
    StoredFrom(map[], records, e.id);
    var v :| v in records && v.eventId == e.id && Stored(map[], records)[e.id] == v;
    RecordsMembers(writes[k..], v);
    var i :| 0 <= i < |writes[k..]| && v in writes[k..][i].batch.events;
    assert Brings(backends, filter, json, ranges[k + i], writes[k + i].batch.events);
    BroughtIsThatEvent(backends, filter, json, ranges[k + i], v, backend, e);
  }

  lemma WrittenIsCached(writes: seq<Write>, k: nat, i: nat, v: SyncEvent)
    requires LastResetAt(writes, k) && k <= i < |writes| && v in writes[i].batch.events
    ensures v.eventId in AfterWrites(writes).worker.cache
  {
    CacheIsSinceTheLastReset(writes, k);
    assert v in writes[k..][i - k].batch.events;
    RecordsMembers(writes[k..], v);
    StoredHasKey(map[], RecordsOf(writes[k..]), v);
  }

  lemma CoveredIsCached(backends: Backends, filter: Filter, json: JsonLibrary,
                        writes: seq<Write>, ranges: seq<seq<Range>>, k: nat, backend: nat, e: Event)
    requires Sourced(backends, filter, json, writes, ranges) && LastResetAt(writes, k)
    requires e in backends(backend).journal && Sees(filter, e)
    requires CoveredSince(ranges, k, backend, e.id)
    ensures e.id in AfterWrites(writes).worker.cache
  {
    var i :| k <= i < |ranges| && CoveredBy(ranges[i], backend, e.id);
    assert Brings(backends, filter, json, ranges[i], writes[i].batch.events);
    var r :| r in ranges[i] && Within(r, backend, e.id);
    WrittenIsCached(writes, k, i, Delivered(e, json));
  }

  /** However the reads and writes of any backends' batches interleave, and whether or not those
      backends name themselves: of the events a client may see, a cache lacks exactly those of
      which no page that was handed over since the last detected reset covered the ID; and an
      event's record in it is that event's own. */
  lemma MissingIffNotCovered(backends: Backends, filter: Filter, json: JsonLibrary,
                             writes: seq<Write>, ranges: seq<seq<Range>>, k: nat, backend: nat, e: Event)
    requires Sourced(backends, filter, json, writes, ranges) && LastResetAt(writes, k)
    requires OneOwner(backends, backend, e) && e in backends(backend).journal
    ensures var cache := AfterWrites(writes).worker.cache;
            && (e.id in cache <==> Sees(filter, e) && CoveredSince(ranges, k, backend, e.id))
            && (e.id in cache ==> cache[e.id] == Delivered(e, json))
  {
    if e.id in AfterWrites(writes).worker.cache {
      CachedWasCovered(backends, filter, json, writes, ranges, k, backend, e);
    }
    if Sees(filter, e) && CoveredSince(ranges, k, backend, e.id) {
      CoveredIsCached(backends, filter, json, writes, ranges, k, backend, e);
    }
  }
}

/** GET /sync/pull: the cursor-based, filtered, limit+1-peeking read of the journal. */
module SyncPull {
  import opened Prelude
  import opened EventIds
  import opened SyncWire

  const DEFAULT_SYNC_PULL_LIMIT := 500
  const MAX_SYNC_PULL_LIMIT := 1000

  type Filter = Option<Event -> bool>

  predicate Sees(filter: Filter, evt: Event) {
    filter.None? || filter.value(evt)
  }

  predicate Ascending(events: seq<Event>) {
    && (forall i | 0 <= i < |events| :: events[i].id != ZERO)
    && (forall i, j | 0 <= i < j < |events| :: events[i].id < events[j].id)
  }

  predicate AscendingWire(events: seq<SyncEvent>) {
    forall i, j | 0 <= i < j < |events| :: events[i].eventId < events[j].eventId
  }

  // ---------- the two readers ----------

  /** The journal's events strictly after the cursor, in journal order. */
  function After(journal: seq<Event>, after: EventId): seq<Event> {
    if journal == [] then []
    else (if journal[0].id > after then [journal[0]] else []) + After(journal[1..], after)
  }

  /** The first k elements; a non-positive k never stops the scan, as in readAllAfter. */
  function FirstK(k: int, events: seq<Event>): seq<Event> {
    if k <= 0 || |events| <= k then events else events[..k]
  }

  lemma Regroup<T>(a: seq<T>, b: seq<T>, c: seq<T>)
    ensures (a + b) + c == a + (b + c)
  {
  }

  lemma {:induction false} AfterAppends(a: seq<Event>, b: seq<Event>, after: EventId)
    ensures After(a + b, after) == After(a, after) + After(b, after)
  {
    if a == [] {
      assert a + b == b;
    } else {
      assert (a + b)[0] == a[0] && (a + b)[1..] == a[1..] + b;
      AfterAppends(a[1..], b, after);
      Regroup(if a[0].id > after then [a[0]] else [], After(a[1..], after), After(b, after));
    }
  }

  lemma {:induction false} AfterIsExact(journal: seq<Event>, after: EventId)
    ensures forall e :: e in After(journal, after) <==> e in journal && e.id > after
  {
    if journal != [] {
      AfterIsExact(journal[1..], after);
      assert journal == [journal[0]] + journal[1..];
    }
  }

  lemma {:induction false} AfterAscends(journal: seq<Event>, after: EventId)
    requires Ascending(journal)
    ensures Ascending(After(journal, after))
  {
    if journal != [] {
      assert Ascending(journal[1..]);
      AfterAscends(journal[1..], after);
      AfterIsExact(journal[1..], after);
      forall e | e in After(journal[1..], after) ensures e.id > journal[0].id {
        assert e in journal[1..];
      }
    }
  }

  lemma AfterMembers(journal: seq<Event>, after: EventId)
    ensures forall e :: e in After(journal, after) <==> e in journal && e.id > after
    ensures Ascending(journal) ==> Ascending(After(journal, after))
  {
    AfterIsExact(journal, after);
    if Ascending(journal) {
      AfterAscends(journal, after);
    }
  }

  /** The seekable journal's ReadFrom: a store contract, answered here by the specification. */
  function ReadFrom(journal: seq<Event>, after: EventId, count: int): seq<Event> {
    FirstK(count, After(journal, after))
  }

  lemma FirstKIsAPrefix(k: int, events: seq<Event>)
    ensures k > 0 ==> FirstK(k, events) == events[..Min(k, |events|)]
    ensures k <= 0 ==> FirstK(k, events) == events
  {
  }

  lemma AfterStep(journal: seq<Event>, i: nat, after: EventId)
    requires i < |journal|
    ensures After(journal[..i + 1], after)
         == After(journal[..i], after) + if journal[i].id > after then [journal[i]] else []
  {
    AfterAppends(journal[..i], [journal[i]], after);
    assert journal[..i + 1] == journal[..i] + [journal[i]];
    assert [journal[i]][1..] == [];
  }

  lemma AfterOfPrefix(journal: seq<Event>, i: nat, after: EventId)
    requires i <= |journal|
    ensures After(journal[..i], after) <= After(journal, after)
  {
    AfterAppends(journal[..i], journal[i..], after);
    assert journal == journal[..i] + journal[i..];
  }

  /** The full-scan fallback: reading everything and skipping up to the cursor gives
      exactly what a seekable read gives. */
  method ReadAllAfter(journal: seq<Event>, after: EventId, limit: int) returns (out: seq<Event>)
    requires forall e | e in journal :: e.id != ZERO
    ensures out == FirstK(limit, After(journal, after))
    ensures limit > 0 ==> out == After(journal, after)[..Min(limit, |After(journal, after)|)]
    ensures limit <= 0 ==> out == After(journal, after)
  {
    FirstKIsAPrefix(limit, After(journal, after));
    out := [];
    for i := 0 to |journal|
      invariant out == After(journal[..i], after)
      invariant limit > 0 ==> |out| < limit
    {
      var evt := journal[i];
      AfterStep(journal, i, after);
      if after != ZERO && evt.id <= after {
        continue;
      }
      out := out + [evt];
      if |out| == limit {
        AfterOfPrefix(journal, i + 1, after);
        return;
      }
    }
    assert journal == journal[..|journal|];
  }

  // ---------- one page ----------

  datatype Window = Window(events: seq<Event>, hasMore: bool)

  /** A negative limit makes the Go slice expression panic. */
  datatype WindowRead = Read(window: Window) | SlicePanic

  method ReadSyncPullWindow(journal: seq<Event>, seekable: bool, after: EventId, limit: int)
    returns (r: WindowRead)
    requires forall e | e in journal :: e.id != ZERO
    ensures limit < 0 ==> r == SlicePanic
    ensures limit >= 0 ==> r == Read(PageWindow(journal, after, limit))
  {
    var events;
    if seekable {
      events := ReadFrom(journal, after, limit + 1);
    } else {
      events := ReadAllAfter(journal, after, limit + 1);
    }
    if |events| > limit {
      if limit < 0 {
        return SlicePanic;
      }
      return Read(Window(events[..limit], true));
    }
    return Read(Window(events, false));
  }

  function PageWindow(journal: seq<Event>, after: EventId, limit: nat): Window {
    var rest := After(journal, after);
    Window(if |rest| <= limit then rest else rest[..limit], |rest| > limit)
  }

  datatype PullBody = PullBody(backendId: string, events: seq<SyncEvent>, nextCursor: EventId, hasMore: bool)

  function VisibleWire(events: seq<Event>, filter: Filter, isJson: JsonCheck): seq<SyncEvent> {
    if events == [] then []
    else (if Sees(filter, events[0]) then [ToWire(events[0], isJson)] else [])
         + VisibleWire(events[1..], filter, isJson)
  }

  function LastId(events: seq<Event>): EventId {
    if events == [] then ZERO else events[|events| - 1].id
  }

  function Page(backendId: string, filter: Filter, isJson: JsonCheck,
                journal: seq<Event>, after: EventId, limit: nat): PullBody
  {
    var window := PageWindow(journal, after, limit);
    PullBody(backendId, VisibleWire(window.events, filter, isJson), LastId(window.events), window.hasMore)
  }

  lemma {:induction false} VisibleAppends(a: seq<Event>, b: seq<Event>, filter: Filter, isJson: JsonCheck)
    ensures VisibleWire(a + b, filter, isJson) == VisibleWire(a, filter, isJson) + VisibleWire(b, filter, isJson)
  {
    if a == [] {
      assert a + b == b;
    } else {
      assert (a + b)[0] == a[0] && (a + b)[1..] == a[1..] + b;
      VisibleAppends(a[1..], b, filter, isJson);
      Regroup(if Sees(filter, a[0]) then [ToWire(a[0], isJson)] else [],
              VisibleWire(a[1..], filter, isJson), VisibleWire(b, filter, isJson));
    }
  }

  /** w is the wire record of a visible event of the sequence. */
  ghost predicate Delivers(events: seq<Event>, filter: Filter, isJson: JsonCheck, w: SyncEvent) {
    exists e :: e in events && Sees(filter, e) && w == ToWire(e, isJson)
  }

  lemma DeliversStep(events: seq<Event>, filter: Filter, isJson: JsonCheck, w: SyncEvent)
    requires events != []
    ensures Delivers(events, filter, isJson, w)
       <==> (Sees(filter, events[0]) && w == ToWire(events[0], isJson)) || Delivers(events[1..], filter, isJson, w)
  {
    if Delivers(events[1..], filter, isJson, w) {
      var e :| e in events[1..] && Sees(filter, e) && w == ToWire(e, isJson);
      assert e in events;
    }
    if Delivers(events, filter, isJson, w) {
      var e :| e in events && Sees(filter, e) && w == ToWire(e, isJson);
      assert e == events[0] || e in events[1..];
    }
  }

  lemma {:induction false} VisibleIffDelivered(events: seq<Event>, filter: Filter, isJson: JsonCheck, w: SyncEvent)
    ensures w in VisibleWire(events, filter, isJson) <==> Delivers(events, filter, isJson, w)
  {
    if events != [] {
      VisibleIffDelivered(events[1..], filter, isJson, w);
      DeliversStep(events, filter, isJson, w);
    }
  }

  lemma {:induction false} VisibleAbove(events: seq<Event>, filter: Filter, isJson: JsonCheck, bound: EventId)
    requires forall e | e in events :: e.id > bound
    ensures forall w | w in VisibleWire(events, filter, isJson) :: w.eventId > bound
  {
    if events != [] {
      assert events[0] in events;
      VisibleAbove(events[1..], filter, isJson, bound);
    }
  }

  lemma WirePrepends(w: SyncEvent, rest: seq<SyncEvent>)
    requires AscendingWire(rest) && forall v | v in rest :: v.eventId > w.eventId
    ensures AscendingWire([w] + rest)
  {
    forall i, j | 0 <= i < j < |[w] + rest| ensures ([w] + rest)[i].eventId < ([w] + rest)[j].eventId {
      assert ([w] + rest)[j] == rest[j - 1] && rest[j - 1] in rest;
    }
  }

  lemma {:induction false} VisibleAscends(events: seq<Event>, filter: Filter, isJson: JsonCheck)
    requires Ascending(events)
    ensures AscendingWire(VisibleWire(events, filter, isJson))
  {
    if events != [] {
      var rest := VisibleWire(events[1..], filter, isJson);
      VisibleAscends(events[1..], filter, isJson);
      VisibleAbove(events[1..], filter, isJson, events[0].id);
      WirePrepends(ToWire(events[0], isJson), rest);
      assert [] + rest == rest;
    }
  }

  lemma VisibleMembers(events: seq<Event>, filter: Filter, isJson: JsonCheck)
    ensures forall w :: w in VisibleWire(events, filter, isJson) <==> Delivers(events, filter, isJson, w)
    ensures Ascending(events) ==> AscendingWire(VisibleWire(events, filter, isJson))
  {
    forall w ensures w in VisibleWire(events, filter, isJson) <==> Delivers(events, filter, isJson, w) {
      VisibleIffDelivered(events, filter, isJson, w);
    }
    if Ascending(events) {
      VisibleAscends(events, filter, isJson);
    }
  }

  /** A consumer in Go decodes a reply whole: one record its decoder refuses fails them all. */
  ghost predicate Decodes(records: seq<SyncEvent>, rewrite: JsonRewrite) {
    forall w | w in records :: CheckDecoded(Encoded(w, rewrite)) == Accepted
  }

  /** So a reply decodes exactly if the payload of every visible event survives the encoding. */
  lemma ReplyDecodesIffAllSurvive(events: seq<Event>, filter: Filter, json: JsonLibrary)
    requires Lawful(json)
    ensures Decodes(VisibleWire(events, filter, json.isValid), json.rewrite)
       <==> forall e | e in events && Sees(filter, e) :: Survives(e, json)
  {
    var records := VisibleWire(events, filter, json.isValid);
    VisibleMembers(events, filter, json.isValid);
    forall e | e in events && Sees(filter, e)
      ensures ToWire(e, json.isValid) in records
      ensures CheckDecoded(Encoded(ToWire(e, json.isValid), json.rewrite)) == Accepted <==> Survives(e, json)
    {
      assert Delivers(events, filter, json.isValid, ToWire(e, json.isValid));
      WireRoundTrip(e, json);
    }
    forall w | w in records ensures exists e :: e in events && Sees(filter, e) && w == ToWire(e, json.isValid) {
      assert Delivers(events, filter, json.isValid, w);
    }
  }

  /** What one page promises, over any journal and any cursor: it reads every event in
      (after, next] and nothing else, delivers exactly the visible ones in ascending order,
      and says whether anything lies beyond. */
  ghost predicate PageContract(body: PullBody, filter: Filter, isJson: JsonCheck,
                               journal: seq<Event>, after: EventId, limit: nat)
  {
    var upTo := if body.nextCursor == ZERO then after else body.nextCursor;
    && upTo >= after
    && (body.nextCursor != ZERO ==> body.nextCursor > after && exists e :: e in journal && e.id == body.nextCursor)
    && (body.nextCursor == ZERO && limit > 0 ==> forall e | e in journal :: e.id <= after)
    && AscendingWire(body.events)
    && |body.events| <= limit
    && (forall w :: w in body.events <==>
          exists e :: e in journal && after < e.id <= upTo && Sees(filter, e) && w == ToWire(e, isJson))
    && (body.hasMore <==> exists e :: e in journal && e.id > upTo)
  }

  /** A prefix of an ascending sequence is the elements up to its last ID. */
  lemma PrefixSplits(rest: seq<Event>, k: nat)
    requires Ascending(rest) && 0 < k <= |rest|
    ensures forall e :: e in rest[..k] <==> e in rest && e.id <= rest[k - 1].id
    ensures k < |rest| <==> exists e :: e in rest && e.id > rest[k - 1].id
  {
    forall e | e in rest && e.id <= rest[k - 1].id ensures e in rest[..k] {
      var i :| 0 <= i < |rest| && rest[i] == e;
      assert rest[..k][i] == e;
    }
    if k < |rest| {
      assert rest[k] in rest;
    }
  }

  lemma PageWindowSplits(journal: seq<Event>, after: EventId, limit: nat)
    requires Ascending(journal)
    ensures var window := PageWindow(journal, after, limit);
            var upTo := if window.events == [] then after else LastId(window.events);
            && Ascending(window.events)
            && |window.events| <= limit
            && (window.events != [] ==> upTo > after)
            && (forall e :: e in window.events <==> e in journal && after < e.id <= upTo)
            && (window.hasMore <==> exists e :: e in journal && e.id > upTo)
  {
    AfterMembers(journal, after);
    var rest := After(journal, after);
    var k := Min(limit, |rest|);
    var events := PageWindow(journal, after, limit).events;
    assert events == rest[..k];
    if k > 0 {
      PrefixSplits(rest, k);
      assert LastId(events) == rest[k - 1].id;
      assert rest[k - 1] in rest;
    } else if rest != [] {
      assert rest[0] in rest;
    }
  }

  lemma {:induction false} VisibleCount(events: seq<Event>, filter: Filter, isJson: JsonCheck)
    ensures |VisibleWire(events, filter, isJson)| <= |events|
  {
    if events != [] {
      VisibleCount(events[1..], filter, isJson);
    }
  }

  lemma PageIsExact(backendId: string, filter: Filter, isJson: JsonCheck,
                    journal: seq<Event>, after: EventId, limit: nat)
    requires Ascending(journal)
    ensures PageContract(Page(backendId, filter, isJson, journal, after, limit), filter, isJson, journal, after, limit)
  {
    var window := PageWindow(journal, after, limit);
    var body := Page(backendId, filter, isJson, journal, after, limit);
    PageWindowSplits(journal, after, limit);
    VisibleMembers(window.events, filter, isJson);
    VisibleCount(window.events, filter, isJson);
    var upTo := if body.nextCursor == ZERO then after else body.nextCursor;
    if window.events != [] {
      assert window.events[|window.events| - 1] in window.events;
    } else if limit > 0 {
      AfterMembers(journal, after);
    }
    forall w ensures w in body.events <==>
          exists e :: e in journal && after < e.id <= upTo && Sees(filter, e) && w == ToWire(e, isJson) {
      if w in body.events {
        assert Delivers(window.events, filter, isJson, w);
        var e :| e in window.events && Sees(filter, e) && w == ToWire(e, isJson);
        assert e in journal && after < e.id <= upTo;
      }
      if exists e :: e in journal && after < e.id <= upTo && Sees(filter, e) && w == ToWire(e, isJson) {
        var e :| e in journal && after < e.id <= upTo && Sees(filter, e) && w == ToWire(e, isJson);
        assert e in window.events;
        assert Delivers(window.events, filter, isJson, w);
      }
    }
  }

  lemma {:induction false} AfterTwice(journal: seq<Event>, c: EventId, d: EventId)
    requires c <= d
    ensures After(journal, d) == After(After(journal, c), d)
  {
    if journal != [] {
      AfterTwice(journal[1..], c, d);
      var head := if journal[0].id > c then [journal[0]] else [];
      AfterAppends(head, After(journal[1..], c), d);
    }
  }

  lemma {:induction false} EverythingAfter(events: seq<Event>, c: EventId)
    requires forall e | e in events :: e.id > c
    ensures After(events, c) == events
  {
    if events != [] {
      EverythingAfter(events[1..], c);
    }
  }

  /** Continuing from the last ID read leaves exactly the rest. */
  lemma {:induction false} ContinuesWhereItStopped(rest: seq<Event>, k: nat)
    requires Ascending(rest) && 0 < k <= |rest|
    ensures After(rest, rest[k - 1].id) == rest[k..]
  {
    var tail := rest[1..];
    if k == 1 {
      EverythingAfter(tail, rest[0].id);
    } else {
      assert tail[k - 2] == rest[k - 1];
      ContinuesWhereItStopped(tail, k - 1);
      assert tail[k - 1..] == rest[k..];
    }
  }

  lemma RestAfterPrefix(journal: seq<Event>, cursor: EventId, k: nat)
    requires Ascending(journal) && 0 < k <= |After(journal, cursor)|
    ensures After(journal, After(journal, cursor)[k - 1].id) == After(journal, cursor)[k..]
  {
    var rest := After(journal, cursor);
    var last := rest[k - 1];
    AfterMembers(journal, cursor);
    assert last in rest;
    AfterTwice(journal, cursor, last.id);
    ContinuesWhereItStopped(rest, k);
  }

  /** How far a page reads: as many events as it may, or all there are. */
  lemma PageIsFull(backendId: string, filter: Filter, isJson: JsonCheck,
                   journal: seq<Event>, after: EventId, limit: nat)
    requires Ascending(journal)
    ensures var next := Page(backendId, filter, isJson, journal, after, limit).nextCursor;
            |After(journal, after)| - |After(journal, if next == ZERO then after else next)|
            == Min(limit, |After(journal, after)|)
  {
    var rest := After(journal, after);
    var k := Min(limit, |rest|);
    if k > 0 {
      assert PageWindow(journal, after, limit).events == rest[..k];
      assert LastId(rest[..k]) == rest[k - 1].id;
      AfterMembers(journal, after);
      RestAfterPrefix(journal, after, k);
    }
  }

  /** Paging makes progress from every state: hasMore comes with a larger cursor. */
  ghost predicate AlwaysProgresses(limit: nat) {
    forall journal: seq<Event>, after: EventId | Ascending(journal) ::
      PageWindow(journal, after, limit).hasMore ==> LastId(PageWindow(journal, after, limit).events) > after
  }

  /** The limit configured with WithSyncPullLimit is not checked, and progress depends on it:
      with limit 0 a non-empty journal answers hasMore without a cursor, for ever. */
  lemma ProgressNeedsAPositiveLimit(limit: nat)
    ensures AlwaysProgresses(limit) <==> limit >= 1
  {
    if limit == 0 {
      var evt := Event(1, "", "", "", 0, "", "", "", []);
      var journal := [evt];
      assert After(journal, ZERO) == [evt];
      assert Ascending(journal) && PageWindow(journal, ZERO, 0).hasMore;
      assert LastId(PageWindow(journal, ZERO, 0).events) == ZERO;
    } else {
      forall journal: seq<Event>, after: EventId | Ascending(journal) && PageWindow(journal, after, limit).hasMore
        ensures LastId(PageWindow(journal, after, limit).events) > after
      {
        PageWindowSplits(journal, after, limit);
      }
    }
  }
}

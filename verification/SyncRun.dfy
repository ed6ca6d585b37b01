/** The sync protocol as a whole: one journal that is appended to and compacted, any number
    of clients, each with a worker that owns the cache and any number of tabs that page and
    hand over what they collected, messages that are reordered, repeated or lost, and batches
    whose two database transactions interleave with those of other batches. */
module SyncRun {
  import opened Prelude
  import opened EventIds
  import opened SyncWire
  import opened SyncPull
  import opened SyncPullHandling

  /** Fixed for a run: what each client may see, and the server's identity. */
  datatype World = World(backendId: string, filters: nat -> Filter, json: JsonLibrary)

  /** What a client's worker has persisted: the cursor and the cache keyed by event ID. */
  datatype Worker = Worker(cursor: EventId, cache: map<EventId, SyncEvent>)

  /** A tab's pull in progress. It starts from any cursor the client has reached: the one persisted,
      an older one the worker's answer carried, or ZERO when the worker did not answer in time. The
      documented plain client, which appends what it is sent
      and keeps its cursor, is a pull that starts from ZERO and never hands over. */
  datatype Pull = Pull(client: nat, start: EventId, cursor: EventId, collected: seq<SyncEvent>)

  datatype Message = Message(client: nat, cursor: EventId, events: seq<SyncEvent>)

  /** A batch between the worker's two transactions: the cursor it read is the one it decides by,
      whatever is persisted when it comes to write. */
  datatype Task = Task(message: Message, seen: EventId)

  /** history is every event ever appended; the journal holds those not compacted away; reached is
      the largest cursor each client ever persisted. */
  datatype State = State(
    history: seq<Event>,
    journal: seq<Event>,
    workers: map<nat, Worker>,
    reached: map<nat, EventId>,
    pulls: map<nat, Pull>,
    messages: set<Message>,
    tasks: map<nat, Task>)

  datatype Step =
    | Append(evt: Event)
    | Compact(kept: seq<Event>)
    | Open(pull: nat, client: nat, start: EventId)
    | FetchPage(pull: nat, limit: nat)
    | HandOver(pull: nat)
    | Lose(message: Message)
    | ReadCursor(task: nat, message: Message)
    | WriteBatch(task: nat)
    | Abort(task: nat)

  /** The batch's cursor is persisted unless it is empty or below the one that was read. */
  predicate Passes(seen: EventId, cursor: EventId) {
    cursor != ZERO && cursor >= seen
  }

  /** The write transaction: every event stored under its ID, and the cursor if it passes. */
  function Written(w: Worker, seen: EventId, cursor: EventId, events: seq<SyncEvent>): Worker {
    Worker(if Passes(seen, cursor) then cursor else w.cursor, Stored(w.cache, events))
  }

  function Stored(cache: map<EventId, SyncEvent>, events: seq<SyncEvent>): map<EventId, SyncEvent> {
    if events == [] then cache
    else Stored(cache, events[..|events| - 1])[events[|events| - 1].eventId := events[|events| - 1]]
  }

  ghost predicate Known(s: State, client: nat) {
    client in s.workers && client in s.reached
  }

  ghost predicate Enabled(s: State, step: Step) {
    match step
    case Append(evt) => evt.id > LastId(s.history)
    case Compact(kept) => Ascending(kept) && forall e | e in kept :: e in s.journal
    case Open(pull, client, start) => Known(s, client) && start <= s.reached[client] && pull !in s.pulls
    case FetchPage(pull, limit) => pull in s.pulls && 1 <= limit <= MAX_SYNC_PULL_LIMIT
    case HandOver(pull) => pull in s.pulls
    case Lose(message) => true
    case ReadCursor(task, message) => task !in s.tasks && message in s.messages && message.client in s.workers
    case WriteBatch(task) => task in s.tasks && ClientOf(s, task) in s.workers && ClientOf(s, task) in s.reached
    case Abort(task) => task in s.tasks
  }

  function ClientOf(s: State, task: nat): nat
    requires task in s.tasks
  {
    s.tasks[task].message.client
  }

  /** The records of a page as the client reads them. */
  function Received(events: seq<SyncEvent>, rewrite: JsonRewrite): seq<SyncEvent> {
    seq(|events|, i requires 0 <= i < |events| => Encoded(events[i], rewrite))
  }

  function Fetched(world: World, journal: seq<Event>, p: Pull, limit: nat): Pull {
    var body := Page(world.backendId, world.filters(p.client), world.json.isValid, journal, p.cursor, limit);
    p.(cursor := if body.nextCursor != ZERO then body.nextCursor else p.cursor,
       collected := p.collected + Received(body.events, world.json.rewrite))
  }

  function Larger(a: EventId, b: EventId): EventId {
    if a < b then b else a
  }

  ghost function Apply(world: World, s: State, step: Step): State
    requires Enabled(s, step)
  {
    match step
    case Append(evt) => s.(history := s.history + [evt], journal := s.journal + [evt])
    case Compact(kept) => s.(journal := kept)
    case Open(pull, client, start) => s.(pulls := s.pulls[pull := Pull(client, start, start, [])])
    case FetchPage(pull, limit) => s.(pulls := s.pulls[pull := Fetched(world, s.journal, s.pulls[pull], limit)])
    case HandOver(pull) =>
      var p := s.pulls[pull];
      s.(pulls := s.pulls - {pull}, messages := s.messages + {Message(p.client, p.cursor, p.collected)})
    case Lose(m) => s.(messages := s.messages - {m})
    case ReadCursor(task, m) => s.(tasks := s.tasks[task := Task(m, s.workers[m.client].cursor)])
    case WriteBatch(task) =>
      var m, c := s.tasks[task].message, ClientOf(s, task);
      var w := Written(s.workers[c], s.tasks[task].seen, m.cursor, m.events);
      s.(workers := s.workers[c := w],
         reached := s.reached[c := Larger(s.reached[c], w.cursor)],
         tasks := s.tasks - {task})
    case Abort(task) => s.(tasks := s.tasks - {task})
  }

  ghost predicate Init(s: State) {
    && s.journal == s.history && Ascending(s.history)
    && (forall c | c in s.workers :: s.workers[c] == Worker(ZERO, map[]) && c in s.reached && s.reached[c] == ZERO)
    && s.pulls == map[] && s.messages == {} && s.tasks == map[]
  }

  ghost predicate Runs(world: World, s: State, steps: seq<Step>, t: State)
    decreases |steps|
  {
    if steps == [] then s == t
    else Enabled(s, steps[0]) && Runs(world, Apply(world, s, steps[0]), steps[1..], t)
  }

  // ---------- the invariant ----------

  ghost predicate JournalOk(s: State) {
    && Ascending(s.history) && Ascending(s.journal)
    && forall e | e in s.journal :: e in s.history
  }

  /** w is the record of a once appended event of (lo, hi] that the client may see. */
  ghost predicate Genuine(history: seq<Event>, filter: Filter, json: JsonLibrary,
                          lo: EventId, hi: EventId, w: SyncEvent)
  {
    exists e :: e in history && lo < e.id <= hi && Sees(filter, e) && w == Delivered(e, json)
  }

  /** No gap: what is still in the journal and visible in (lo, hi] was delivered. */
  ghost predicate NoGap(journal: seq<Event>, filter: Filter, json: JsonLibrary,
                        lo: EventId, hi: EventId, events: seq<SyncEvent>)
  {
    forall e | e in journal && lo < e.id <= hi && Sees(filter, e) :: Delivered(e, json) in events
  }

  ghost predicate Covers(history: seq<Event>, journal: seq<Event>, filter: Filter, json: JsonLibrary,
                         lo: EventId, hi: EventId, events: seq<SyncEvent>)
  {
    && lo <= hi <= LastId(history)
    && AscendingWire(events)
    && (forall w | w in events :: Genuine(history, filter, json, lo, hi, w))
    && NoGap(journal, filter, json, lo, hi, events)
  }

  /** Up to the largest cursor ever persisted the cache is complete and genuine; the cursor itself
      may lie below it. */
  ghost predicate WorkerOk(history: seq<Event>, journal: seq<Event>, filter: Filter, json: JsonLibrary,
                           w: Worker, reached: EventId)
  {
    && w.cursor <= reached <= LastId(history)
    && (forall k | k in w.cache :: w.cache[k].eventId == k && Genuine(history, filter, json, ZERO, reached, w.cache[k]))
    && (forall e | e in journal && e.id <= reached && Sees(filter, e) ::
          e.id in w.cache && w.cache[e.id] == Delivered(e, json))
  }

  ghost predicate PullOk(world: World, s: State, p: Pull) {
    && Known(s, p.client)
    && p.start <= s.reached[p.client]
    && Covers(s.history, s.journal, world.filters(p.client), world.json, p.start, p.cursor, p.collected)
  }

  ghost predicate MessageOk(world: World, s: State, m: Message) {
    && Known(s, m.client)
    && exists lo: EventId :: lo <= s.reached[m.client] &&
         Covers(s.history, s.journal, world.filters(m.client), world.json, lo, m.cursor, m.events)
  }

  ghost predicate TaskOk(world: World, s: State, t: Task) {
    MessageOk(world, s, t.message) && t.seen <= s.reached[t.message.client]
  }

  ghost predicate ClientOk(world: World, s: State, c: nat) {
    && Known(s, c)
    && WorkerOk(s.history, s.journal, world.filters(c), world.json, s.workers[c], s.reached[c])
  }

  ghost predicate Inv(world: World, s: State) {
    && JournalOk(s)
    && (forall c | c in s.workers :: ClientOk(world, s, c))
    && (forall id | id in s.pulls :: PullOk(world, s, s.pulls[id]))
    && (forall m | m in s.messages :: MessageOk(world, s, m))
    && (forall id | id in s.tasks :: TaskOk(world, s, s.tasks[id]))
  }

  // ---------- the journal may change under a coverage claim ----------

  /** What appends and compactions both do to a journal. */
  ghost predicate Grows(history: seq<Event>, journal: seq<Event>, history': seq<Event>, journal': seq<Event>) {
    && Ascending(history')
    && history <= history'
    && (forall e | e in journal' && e.id <= LastId(history) :: e in journal)
  }

  lemma LastIdIsLargest(events: seq<Event>)
    requires Ascending(events)
    ensures forall e | e in events :: e.id <= LastId(events)
  {
    forall e | e in events ensures e.id <= LastId(events) {
      var i :| 0 <= i < |events| && events[i] == e;
    }
  }

  lemma HistoryGrows(history: seq<Event>, history': seq<Event>)
    requires history <= history' && Ascending(history')
    ensures LastId(history) <= LastId(history')
    ensures forall e | e in history :: e in history'
  {
    LastIdIsLargest(history');
    if history != [] {
      assert history'[|history| - 1] in history';
    }
  }

  lemma GenuineWidens(history: seq<Event>, history': seq<Event>, filter: Filter, json: JsonLibrary,
                      lo: EventId, hi: EventId, lo': EventId, hi': EventId, w: SyncEvent)
    requires forall e | e in history :: e in history'
    requires lo' <= lo && hi <= hi'
    requires Genuine(history, filter, json, lo, hi, w)
    ensures Genuine(history', filter, json, lo', hi', w)
  {
    var e :| e in history && lo < e.id <= hi && Sees(filter, e) && w == Delivered(e, json);
    assert e in history';
  }

  lemma CoverageSurvives(history: seq<Event>, journal: seq<Event>, history': seq<Event>, journal': seq<Event>,
                         filter: Filter, json: JsonLibrary, lo: EventId, hi: EventId, events: seq<SyncEvent>)
    requires Grows(history, journal, history', journal')
    requires Covers(history, journal, filter, json, lo, hi, events)
    ensures Covers(history', journal', filter, json, lo, hi, events)
  {
    HistoryGrows(history, history');
    forall w | w in events ensures Genuine(history', filter, json, lo, hi, w) {
      GenuineWidens(history, history', filter, json, lo, hi, lo, hi, w);
    }
  }

  lemma CacheSurvives(history: seq<Event>, journal: seq<Event>, history': seq<Event>, journal': seq<Event>,
                      filter: Filter, json: JsonLibrary, w: Worker, reached: EventId)
    requires Grows(history, journal, history', journal')
    requires WorkerOk(history, journal, filter, json, w, reached)
    ensures WorkerOk(history', journal', filter, json, w, reached)
  {
    HistoryGrows(history, history');
    forall k | k in w.cache ensures Genuine(history', filter, json, ZERO, reached, w.cache[k]) {
      GenuineWidens(history, history', filter, json, ZERO, reached, ZERO, reached, w.cache[k]);
    }
  }

  lemma MessageSurvives(world: World, s: State, s': State, m: Message)
    requires MessageOk(world, s, m)
    requires Grows(s.history, s.journal, s'.history, s'.journal)
    requires s'.workers == s.workers && s'.reached == s.reached
    ensures MessageOk(world, s', m)
  {
    var lo: EventId :| lo <= s.reached[m.client] &&
      Covers(s.history, s.journal, world.filters(m.client), world.json, lo, m.cursor, m.events);
    CoverageSurvives(s.history, s.journal, s'.history, s'.journal,
                     world.filters(m.client), world.json, lo, m.cursor, m.events);
  }

  lemma JournalStepKeepsInv(world: World, s: State, s': State)
    requires Inv(world, s)
    requires Grows(s.history, s.journal, s'.history, s'.journal) && JournalOk(s')
    requires s'.workers == s.workers && s'.reached == s.reached
    requires s'.pulls == s.pulls && s'.messages == s.messages && s'.tasks == s.tasks
    ensures Inv(world, s')
  {
    forall c | c in s'.workers ensures ClientOk(world, s', c) {
      assert ClientOk(world, s, c);
      CacheSurvives(s.history, s.journal, s'.history, s'.journal,
                    world.filters(c), world.json, s.workers[c], s.reached[c]);
    }
    forall id | id in s'.pulls ensures PullOk(world, s', s'.pulls[id]) {
      var p := s.pulls[id];
      assert PullOk(world, s, p);
      CoverageSurvives(s.history, s.journal, s'.history, s'.journal,
                       world.filters(p.client), world.json, p.start, p.cursor, p.collected);
    }
    forall m | m in s'.messages ensures MessageOk(world, s', m) {
      MessageSurvives(world, s, s', m);
    }
    forall id | id in s'.tasks ensures TaskOk(world, s', s'.tasks[id]) {
      assert TaskOk(world, s, s.tasks[id]);
      MessageSurvives(world, s, s', s.tasks[id].message);
    }
  }

  lemma AppendGrows(s: State, evt: Event)
    requires JournalOk(s) && Enabled(s, Append(evt))
    ensures Grows(s.history, s.journal, s.history + [evt], s.journal + [evt])
    ensures JournalOk(s.(history := s.history + [evt], journal := s.journal + [evt]))
  {
    LastIdIsLargest(s.history);
    forall e | e in s.journal ensures e.id <= LastId(s.history) {
      assert e in s.history;
    }
    assert forall e | e in s.journal + [evt] :: e in s.journal || e == evt;
  }

  lemma CompactGrows(s: State, kept: seq<Event>)
    requires JournalOk(s) && Enabled(s, Compact(kept))
    ensures Grows(s.history, s.journal, s.history, kept)
    ensures JournalOk(s.(journal := kept))
  {
  }

  // ---------- fetching a page ----------

  lemma CoverageJoins(history: seq<Event>, journal: seq<Event>, filter: Filter, json: JsonLibrary,
                      lo: EventId, mid: EventId, hi: EventId, left: seq<SyncEvent>, right: seq<SyncEvent>)
    requires Covers(history, journal, filter, json, lo, mid, left)
    requires Covers(history, journal, filter, json, mid, hi, right)
    ensures Covers(history, journal, filter, json, lo, hi, left + right)
  {
    forall w | w in left ensures w.eventId <= mid && Genuine(history, filter, json, lo, hi, w) {
      assert Genuine(history, filter, json, lo, mid, w);
      GenuineWidens(history, history, filter, json, lo, mid, lo, hi, w);
    }
    forall w | w in right ensures w.eventId > mid && Genuine(history, filter, json, lo, hi, w) {
      assert Genuine(history, filter, json, mid, hi, w);
      GenuineWidens(history, history, filter, json, mid, hi, lo, hi, w);
    }
    assert AscendingWire(left + right) by {
      forall i, j | 0 <= i < j < |left + right|
        ensures (left + right)[i].eventId < (left + right)[j].eventId
      {
        if i < |left| <= j {
          assert left[i] in left && right[j - |left|] in right;
        }
      }
    }
  }

  lemma ReceivedMembers(events: seq<SyncEvent>, rewrite: JsonRewrite)
    ensures forall w | w in events :: Encoded(w, rewrite) in Received(events, rewrite)
    ensures forall v | v in Received(events, rewrite) :: exists w :: w in events && v == Encoded(w, rewrite)
    ensures AscendingWire(events) ==> AscendingWire(Received(events, rewrite))
  {
    var received := Received(events, rewrite);
    forall w | w in events ensures Encoded(w, rewrite) in received {
      var i :| 0 <= i < |events| && events[i] == w;
      assert received[i] == Encoded(w, rewrite);
    }
    forall v | v in received ensures exists w :: w in events && v == Encoded(w, rewrite) {
      var i :| 0 <= i < |received| && received[i] == v;
      assert events[i] in events;
    }
  }

  lemma PageCovers(world: World, s: State, client: nat, cursor: EventId, limit: nat)
    requires JournalOk(s) && cursor <= LastId(s.history)
    ensures var body := Page(world.backendId, world.filters(client), world.json.isValid, s.journal, cursor, limit);
            var next := if body.nextCursor != ZERO then body.nextCursor else cursor;
            Covers(s.history, s.journal, world.filters(client), world.json, cursor, next,
                   Received(body.events, world.json.rewrite))
  {
    var filter, json := world.filters(client), world.json;
    var body := Page(world.backendId, filter, json.isValid, s.journal, cursor, limit);
    var next := if body.nextCursor != ZERO then body.nextCursor else cursor;
    var received := Received(body.events, json.rewrite);
    PageIsExact(world.backendId, filter, json.isValid, s.journal, cursor, limit);
    ReceivedMembers(body.events, json.rewrite);
    LastIdIsLargest(s.history);
    if body.nextCursor != ZERO {
      var e :| e in s.journal && e.id == body.nextCursor;
      assert e in s.history;
    }
    forall v | v in received ensures Genuine(s.history, filter, json, cursor, next, v) {
      var w :| w in body.events && v == Encoded(w, json.rewrite);
      var e :| e in s.journal && cursor < e.id <= next && Sees(filter, e) && w == ToWire(e, json.isValid);
      assert e in s.history && v == Delivered(e, json);
    }
    forall e | e in s.journal && cursor < e.id <= next && Sees(filter, e) ensures Delivered(e, json) in received {
      assert ToWire(e, json.isValid) in body.events;
    }
  }

  lemma FetchKeepsPull(world: World, s: State, p: Pull, limit: nat)
    requires JournalOk(s) && PullOk(world, s, p)
    ensures PullOk(world, s, Fetched(world, s.journal, p, limit))
  {
    PageCovers(world, s, p.client, p.cursor, limit);
    var p' := Fetched(world, s.journal, p, limit);
    var body := Page(world.backendId, world.filters(p.client), world.json.isValid, s.journal, p.cursor, limit);
    CoverageJoins(s.history, s.journal, world.filters(p.client), world.json,
                  p.start, p.cursor, p'.cursor, p.collected, Received(body.events, world.json.rewrite));
  }

  // ---------- delivering a batch ----------

  lemma {:induction false} StoredKeepsKeys(cache: map<EventId, SyncEvent>, events: seq<SyncEvent>)
    ensures forall k | k in cache :: k in Stored(cache, events)
  {
    if events != [] {
      StoredKeepsKeys(cache, events[..|events| - 1]);
    }
  }

  /** A batch without repetitions is stored whole. */
  lemma {:induction false} StoredHas(cache: map<EventId, SyncEvent>, events: seq<SyncEvent>, i: nat)
    requires AscendingWire(events) && i < |events|
    ensures events[i].eventId in Stored(cache, events) && Stored(cache, events)[events[i].eventId] == events[i]
    decreases |events|
  {
    var n := |events| - 1;
    if i < n {
      StoredHas(cache, events[..n], i);
      assert events[i].eventId < events[n].eventId;
    }
  }

  /** Where a stored record came from. */
  lemma {:induction false} StoredFrom(cache: map<EventId, SyncEvent>, events: seq<SyncEvent>, k: EventId)
    requires k in Stored(cache, events)
    ensures (k in cache && Stored(cache, events)[k] == cache[k]) ||
            exists w :: w in events && w.eventId == k && Stored(cache, events)[k] == w
    decreases |events|
  {
    if events != [] {
      var n := |events| - 1;
      if k == events[n].eventId {
        assert events[n] in events;
      } else {
        StoredFrom(cache, events[..n], k);
        if !(k in cache && Stored(cache, events)[k] == cache[k]) {
          var w :| w in events[..n] && w.eventId == k && Stored(cache, events[..n])[k] == w;
          assert w in events;
        }
      }
    }
  }

  lemma StoredKeys(cache: map<EventId, SyncEvent>, events: seq<SyncEvent>)
    requires AscendingWire(events)
    ensures forall w | w in events :: w.eventId in Stored(cache, events) && Stored(cache, events)[w.eventId] == w
    ensures forall k | k in Stored(cache, events) ::
              (k in cache && Stored(cache, events)[k] == cache[k]) ||
              exists w :: w in events && w.eventId == k && Stored(cache, events)[k] == w
    ensures forall k | k in cache :: k in Stored(cache, events)
  {
    StoredKeepsKeys(cache, events);
    forall w | w in events ensures w.eventId in Stored(cache, events) && Stored(cache, events)[w.eventId] == w {
      var i: nat :| i < |events| && events[i] == w;
      StoredHas(cache, events, i);
    }
    forall k | k in Stored(cache, events)
      ensures (k in cache && Stored(cache, events)[k] == cache[k]) ||
              exists w :: w in events && w.eventId == k && Stored(cache, events)[k] == w
    {
      StoredFrom(cache, events, k);
    }
  }

  lemma OneEventPerId(history: seq<Event>, a: Event, b: Event)
    requires Ascending(history) && a in history && b in history && a.id == b.id
    ensures a == b
  {
    var i :| 0 <= i < |history| && history[i] == a;
    var j :| 0 <= j < |history| && history[j] == b;
  }

  /** Whatever is cached under the ID of an event that once existed is that event's record. */
  lemma GenuineIsThatEvent(history: seq<Event>, filter: Filter, json: JsonLibrary, lo: EventId, hi: EventId,
                           w: SyncEvent, e: Event)
    requires Ascending(history) && e in history && w.eventId == e.id
    requires Genuine(history, filter, json, lo, hi, w)
    ensures w == Delivered(e, json) && Sees(filter, e)
  {
    var f :| f in history && lo < f.id <= hi && Sees(filter, f) && w == Delivered(f, json);
    OneEventPerId(history, e, f);
  }

  lemma WriteKeepsKeys(s: State, filter: Filter, json: JsonLibrary, w: Worker, reached: EventId, seen: EventId,
                       lo: EventId, cursor: EventId, events: seq<SyncEvent>, k: EventId)
    requires JournalOk(s) && WorkerOk(s.history, s.journal, filter, json, w, reached)
    requires seen <= reached && lo <= reached && Covers(s.history, s.journal, filter, json, lo, cursor, events)
    requires k in Written(w, seen, cursor, events).cache
    ensures var w' := Written(w, seen, cursor, events);
            && w'.cache[k].eventId == k
            && Genuine(s.history, filter, json, ZERO, Larger(reached, w'.cursor), w'.cache[k])
  {
    var w' := Written(w, seen, cursor, events);
    var reached' := Larger(reached, w'.cursor);
    StoredKeys(w.cache, events);
    if k in w.cache && w'.cache[k] == w.cache[k] {
      GenuineWidens(s.history, s.history, filter, json, ZERO, reached, ZERO, reached', w.cache[k]);
    } else {
      var v :| v in events && v.eventId == k && w'.cache[k] == v;
      assert cursor <= reached';
      GenuineWidens(s.history, s.history, filter, json, lo, cursor, ZERO, reached', v);
    }
  }

  lemma WriteCaches(s: State, filter: Filter, json: JsonLibrary, w: Worker, reached: EventId, seen: EventId,
                    lo: EventId, cursor: EventId, events: seq<SyncEvent>, e: Event)
    requires JournalOk(s) && WorkerOk(s.history, s.journal, filter, json, w, reached)
    requires seen <= reached && lo <= reached && Covers(s.history, s.journal, filter, json, lo, cursor, events)
    requires e in s.journal && Sees(filter, e) && e.id <= Larger(reached, Written(w, seen, cursor, events).cursor)
    ensures var w' := Written(w, seen, cursor, events);
            e.id in w'.cache && w'.cache[e.id] == Delivered(e, json)
  {
    var w' := Written(w, seen, cursor, events);
    if e.id > reached {
      assert Delivered(e, json) in events;
      var i: nat :| i < |events| && events[i] == Delivered(e, json);
      StoredHas(w.cache, events, i);
    } else {
      StoredKeepsKeys(w.cache, events);
      assert e.id in w.cache && e in s.history;
      WriteKeepsKeys(s, filter, json, w, reached, seen, lo, cursor, events, e.id);
      GenuineIsThatEvent(s.history, filter, json, ZERO, Larger(reached, w'.cursor), w'.cache[e.id], e);
    }
  }

  /** The heart of the protocol: a batch that starts at or below the largest cursor ever persisted
      leaves no gap up to the largest cursor persisted then, however late it arrives, whatever
      arrived before it, and however stale the cursor it decides by. */
  lemma WriteLeavesNoGap(s: State, filter: Filter, json: JsonLibrary, w: Worker, reached: EventId, seen: EventId,
                         lo: EventId, cursor: EventId, events: seq<SyncEvent>)
    requires JournalOk(s) && WorkerOk(s.history, s.journal, filter, json, w, reached)
    requires seen <= reached && lo <= reached && Covers(s.history, s.journal, filter, json, lo, cursor, events)
    ensures var w' := Written(w, seen, cursor, events);
            WorkerOk(s.history, s.journal, filter, json, w', Larger(reached, w'.cursor))
  {
    var w' := Written(w, seen, cursor, events);
    var reached' := Larger(reached, w'.cursor);
    StoredKeys(w.cache, events);
    forall k | k in w'.cache
      ensures w'.cache[k].eventId == k && Genuine(s.history, filter, json, ZERO, reached', w'.cache[k])
    {
      WriteKeepsKeys(s, filter, json, w, reached, seen, lo, cursor, events, k);
    }
    forall e | e in s.journal && e.id <= reached' && Sees(filter, e)
      ensures e.id in w'.cache && w'.cache[e.id] == Delivered(e, json)
    {
      WriteCaches(s, filter, json, w, reached, seen, lo, cursor, events, e);
    }
  }

  // ---------- every step keeps the invariant ----------

  /** No client is forgotten, and no client's largest cursor shrinks. */
  ghost predicate NoLoss(s: State, t: State) {
    forall c :: Known(s, c) ==> Known(t, c) && s.reached[c] <= t.reached[c]
  }

  lemma MessageKeepsOk(world: World, s: State, s': State, n: Message)
    requires MessageOk(world, s, n) && NoLoss(s, s')
    requires s'.history == s.history && s'.journal == s.journal
    ensures MessageOk(world, s', n)
  {
    assert Known(s, n.client);
    var lo: EventId :| lo <= s.reached[n.client] &&
      Covers(s.history, s.journal, world.filters(n.client), world.json, lo, n.cursor, n.events);
    assert lo <= s'.reached[n.client];
  }

  lemma TaskKeepsOk(world: World, s: State, s': State, t: Task)
    requires TaskOk(world, s, t) && NoLoss(s, s')
    requires s'.history == s.history && s'.journal == s.journal
    ensures TaskOk(world, s', t)
  {
    assert Known(s, t.message.client);
    MessageKeepsOk(world, s, s', t.message);
  }

  lemma PullKeepsOk(world: World, s: State, s': State, p: Pull)
    requires PullOk(world, s, p) && NoLoss(s, s')
    requires s'.history == s.history && s'.journal == s.journal
    ensures PullOk(world, s', p)
  {
    assert Known(s, p.client);
  }

  /** What a step that leaves journal and pages alone keeps of everything but what it adds. */
  lemma OthersKeepOk(world: World, s: State, s': State)
    requires Inv(world, s) && NoLoss(s, s')
    requires s'.history == s.history && s'.journal == s.journal
    ensures forall id | id in s.pulls :: PullOk(world, s', s.pulls[id])
    ensures forall m | m in s.messages :: MessageOk(world, s', m)
    ensures forall id | id in s.tasks :: TaskOk(world, s', s.tasks[id])
  {
    forall id | id in s.pulls ensures PullOk(world, s', s.pulls[id]) {
      PullKeepsOk(world, s, s', s.pulls[id]);
    }
    forall m | m in s.messages ensures MessageOk(world, s', m) {
      MessageKeepsOk(world, s, s', m);
    }
    forall id | id in s.tasks ensures TaskOk(world, s', s.tasks[id]) {
      TaskKeepsOk(world, s, s', s.tasks[id]);
    }
  }

  lemma ClientsKeepOk(world: World, s: State, s': State)
    requires Inv(world, s)
    requires s'.history == s.history && s'.journal == s.journal && s'.workers == s.workers && s'.reached == s.reached
    ensures forall c | c in s'.workers :: ClientOk(world, s', c)
    ensures NoLoss(s, s')
  {
    forall c | c in s'.workers ensures ClientOk(world, s', c) {
      assert ClientOk(world, s, c);
    }
  }

  lemma OpenKeepsInv(world: World, s: State, pull: nat, client: nat, start: EventId)
    requires Inv(world, s) && Enabled(s, Open(pull, client, start))
    ensures Inv(world, Apply(world, s, Open(pull, client, start)))
  {
    var s' := Apply(world, s, Open(pull, client, start));
    ClientsKeepOk(world, s, s');
    OthersKeepOk(world, s, s');
    assert client in s.workers && ClientOk(world, s, client);
    assert PullOk(world, s', s'.pulls[pull]);
  }

  lemma FetchKeepsInv(world: World, s: State, pull: nat, limit: nat)
    requires Inv(world, s) && Enabled(s, FetchPage(pull, limit))
    ensures Inv(world, Apply(world, s, FetchPage(pull, limit)))
  {
    var s' := Apply(world, s, FetchPage(pull, limit));
    ClientsKeepOk(world, s, s');
    OthersKeepOk(world, s, s');
    FetchKeepsPull(world, s, s.pulls[pull], limit);
    PullKeepsOk(world, s, s', s'.pulls[pull]);
  }

  lemma PullMakesMessage(world: World, s: State, p: Pull)
    requires PullOk(world, s, p)
    ensures MessageOk(world, s, Message(p.client, p.cursor, p.collected))
  {
  }

  lemma AddMessageKeepsInv(world: World, s: State, m: Message)
    requires Inv(world, s) && MessageOk(world, s, m)
    ensures Inv(world, s.(messages := s.messages + {m}))
  {
    var s' := s.(messages := s.messages + {m});
    ClientsKeepOk(world, s, s');
    OthersKeepOk(world, s, s');
    MessageKeepsOk(world, s, s', m);
  }

  lemma DropPullKeepsInv(world: World, s: State, pull: nat)
    requires Inv(world, s)
    ensures Inv(world, s.(pulls := s.pulls - {pull}))
  {
    var s' := s.(pulls := s.pulls - {pull});
    ClientsKeepOk(world, s, s');
    OthersKeepOk(world, s, s');
  }

  lemma HandOverKeepsInv(world: World, s: State, pull: nat)
    requires Inv(world, s) && Enabled(s, HandOver(pull))
    ensures Inv(world, Apply(world, s, HandOver(pull)))
  {
    var p := s.pulls[pull];
    var m := Message(p.client, p.cursor, p.collected);
    PullMakesMessage(world, s, p);
    AddMessageKeepsInv(world, s, m);
    DropPullKeepsInv(world, s.(messages := s.messages + {m}), pull);
  }

  lemma LoseKeepsInv(world: World, s: State, m: Message)
    requires Inv(world, s)
    ensures Inv(world, Apply(world, s, Lose(m)))
  {
    var s' := Apply(world, s, Lose(m));
    ClientsKeepOk(world, s, s');
    OthersKeepOk(world, s, s');
  }

  lemma ReadKeepsInv(world: World, s: State, task: nat, m: Message)
    requires Inv(world, s) && Enabled(s, ReadCursor(task, m))
    ensures Inv(world, Apply(world, s, ReadCursor(task, m)))
  {
    var s' := Apply(world, s, ReadCursor(task, m));
    ClientsKeepOk(world, s, s');
    OthersKeepOk(world, s, s');
    assert ClientOk(world, s, m.client);
    assert TaskOk(world, s', s'.tasks[task]);
  }

  lemma AbortKeepsInv(world: World, s: State, task: nat)
    requires Inv(world, s) && Enabled(s, Abort(task))
    ensures Inv(world, Apply(world, s, Abort(task)))
  {
    var s' := Apply(world, s, Abort(task));
    ClientsKeepOk(world, s, s');
    OthersKeepOk(world, s, s');
  }

  lemma WriteKeepsClient(world: World, s: State, task: nat)
    requires Inv(world, s) && Enabled(s, WriteBatch(task))
    ensures ClientOk(world, Apply(world, s, WriteBatch(task)), ClientOf(s, task))
  {
    var t, c := s.tasks[task], ClientOf(s, task);
    var m := t.message;
    assert ClientOk(world, s, c);
    assert TaskOk(world, s, t);
    var lo: EventId :| lo <= s.reached[c] &&
      Covers(s.history, s.journal, world.filters(c), world.json, lo, m.cursor, m.events);
    WriteLeavesNoGap(s, world.filters(c), world.json, s.workers[c], s.reached[c], t.seen, lo, m.cursor, m.events);
  }

  /** A write touches its own client's worker and its own batch, and nothing else. */
  lemma WriteTouchesOne(world: World, s: State, task: nat)
    requires Enabled(s, WriteBatch(task))
    ensures var t := Apply(world, s, WriteBatch(task));
            && NoLoss(s, t)
            && t.history == s.history && t.journal == s.journal && t.pulls == s.pulls && t.messages == s.messages
            && (forall id | id in t.tasks :: id in s.tasks && t.tasks[id] == s.tasks[id])
            && (forall c | c in t.workers && c != ClientOf(s, task) ::
                  c in s.workers && t.workers[c] == s.workers[c]
                  && (c in s.reached ==> c in t.reached && t.reached[c] == s.reached[c]))
  {
  }

  lemma UntouchedKeepsOk(world: World, s: State, s': State, c: nat)
    requires ClientOk(world, s, c) && s'.history == s.history && s'.journal == s.journal
    requires c in s'.workers && s'.workers[c] == s.workers[c] && c in s'.reached && s'.reached[c] == s.reached[c]
    ensures ClientOk(world, s', c)
  {
  }

  lemma WriteKeepsClients(world: World, s: State, task: nat)
    requires Inv(world, s) && Enabled(s, WriteBatch(task))
    ensures var t := Apply(world, s, WriteBatch(task)); forall c | c in t.workers :: ClientOk(world, t, c)
  {
    var s' := Apply(world, s, WriteBatch(task));
    WriteTouchesOne(world, s, task);
    WriteKeepsClient(world, s, task);
    forall c | c in s'.workers ensures ClientOk(world, s', c) {
      if c != ClientOf(s, task) {
        assert ClientOk(world, s, c);
        UntouchedKeepsOk(world, s, s', c);
      }
    }
  }

  lemma WriteKeepsInv(world: World, s: State, task: nat)
    requires Inv(world, s) && Enabled(s, WriteBatch(task))
    ensures Inv(world, Apply(world, s, WriteBatch(task)))
  {
    WriteTouchesOne(world, s, task);
    WriteKeepsClients(world, s, task);
    OthersKeepOk(world, s, Apply(world, s, WriteBatch(task)));
  }

  lemma StepKeepsInv(world: World, s: State, step: Step)
    requires Inv(world, s) && Enabled(s, step)
    ensures Inv(world, Apply(world, s, step))
  {
    match step
    case Append(evt) =>
      AppendGrows(s, evt);
      JournalStepKeepsInv(world, s, Apply(world, s, step));
    case Compact(kept) =>
      CompactGrows(s, kept);
      JournalStepKeepsInv(world, s, Apply(world, s, step));
    case Open(pull, client, start) => OpenKeepsInv(world, s, pull, client, start);
    case FetchPage(pull, limit) => FetchKeepsInv(world, s, pull, limit);
    case HandOver(pull) => HandOverKeepsInv(world, s, pull);
    case Lose(m) => LoseKeepsInv(world, s, m);
    case ReadCursor(task, m) => ReadKeepsInv(world, s, task, m);
    case WriteBatch(task) => WriteKeepsInv(world, s, task);
    case Abort(task) => AbortKeepsInv(world, s, task);
  }

  lemma {:induction false} RunKeepsInv(world: World, s: State, steps: seq<Step>, t: State)
    requires Inv(world, s) && Runs(world, s, steps, t)
    ensures Inv(world, t)
    decreases |steps|
  {
    if steps != [] {
      StepKeepsInv(world, s, steps[0]);
      RunKeepsInv(world, Apply(world, s, steps[0]), steps[1..], t);
    }
  }

  // ---------- the theorems ----------

  lemma CachedIffVisible(s: State, filter: Filter, json: JsonLibrary, w: Worker, reached: EventId, e: Event)
    requires JournalOk(s) && WorkerOk(s.history, s.journal, filter, json, w, reached)
    requires e in s.journal && e.id <= reached
    ensures e.id in w.cache <==> Sees(filter, e)
    ensures e.id in w.cache ==> w.cache[e.id] == Delivered(e, json)
  {
    if e.id in w.cache {
      assert e in s.history;
      GenuineIsThatEvent(s.history, filter, json, ZERO, reached, w.cache[e.id], e);
    }
  }

  lemma CachedIsGenuine(s: State, filter: Filter, json: JsonLibrary, w: Worker, reached: EventId, k: EventId)
    requires JournalOk(s) && WorkerOk(s.history, s.journal, filter, json, w, reached)
    requires k in w.cache
    ensures k <= reached
    ensures exists e :: e in s.history && e.id == k && Sees(filter, e) && w.cache[k] == Delivered(e, json)
  {
    assert Genuine(s.history, filter, json, ZERO, reached, w.cache[k]);
    var e :| e in s.history && e.id <= reached && Sees(filter, e) && w.cache[k] == Delivered(e, json);
  }

  /** Over every run, up to the largest cursor a client ever persisted (its present cursor included):
      its cache holds, for every event still in the journal, that event's record if the client may
      see it and nothing otherwise; and every cached record is a visible event that was really
      appended. */
  lemma CacheIsExact(world: World, s: State, steps: seq<Step>, t: State, client: nat)
    requires Init(s) && Runs(world, s, steps, t) && client in t.workers
    ensures client in t.reached && t.workers[client].cursor <= t.reached[client]
    ensures var w := t.workers[client];
            && (forall e | e in t.journal && e.id <= t.reached[client] ::
                  (e.id in w.cache <==> Sees(world.filters(client), e)) &&
                  (e.id in w.cache ==> w.cache[e.id] == Delivered(e, world.json)))
            && (forall k | k in w.cache :: k <= t.reached[client] && exists e ::
                  && e in t.history && e.id == k
                  && Sees(world.filters(client), e) && w.cache[k] == Delivered(e, world.json))
  {
    RunKeepsInv(world, s, steps, t);
    assert ClientOk(world, t, client);
    var w, filter, reached := t.workers[client], world.filters(client), t.reached[client];
    forall e | e in t.journal && e.id <= reached
      ensures e.id in w.cache <==> Sees(filter, e)
      ensures e.id in w.cache ==> w.cache[e.id] == Delivered(e, world.json)
    {
      CachedIffVisible(t, filter, world.json, w, reached, e);
    }
    forall k | k in w.cache
      ensures k <= reached && exists e ::
                e in t.history && e.id == k && Sees(filter, e) && w.cache[k] == Delivered(e, world.json)
    {
      CachedIsGenuine(t, filter, world.json, w, reached, k);
    }
  }

  /** What changes the journal: only an append adds an event, and only a compaction takes one away;
      nothing is ever forgotten of what was appended. */
  lemma JournalChanges(world: World, s: State, step: Step, e: Event)
    requires Inv(world, s) && Enabled(s, step)
    ensures var t := Apply(world, s, step);
            && (e in t.journal && e !in s.journal <==> step == Append(e))
            && (e in s.journal && e !in t.journal <==> step.Compact? && e in s.journal && e !in step.kept)
            && (e in t.history <==> e in s.history || step == Append(e))
  {
    if step == Append(e) {
      LastIdIsLargest(s.history);
    }
  }

  // ---------- the persisted cursor can move back ----------

  /** A step moves a client's persisted cursor back exactly if it is the write of one of its batches
      whose cursor passes the test against the cursor that was read and lies below the one persisted
      meanwhile. */
  lemma RewindsIff(world: World, s: State, step: Step, c: nat)
    requires Enabled(s, step) && c in s.workers
    ensures c in Apply(world, s, step).workers
    ensures Apply(world, s, step).workers[c].cursor < s.workers[c].cursor
       <==> step.WriteBatch? && ClientOf(s, step.task) == c
            && Passes(s.tasks[step.task].seen, s.tasks[step.task].message.cursor)
            && s.tasks[step.task].message.cursor < s.workers[c].cursor
  {
  }

  /** So never when nothing was persisted between a batch's read and its write. */
  lemma FreshWritesNeverRewind(world: World, s: State, task: nat)
    requires Enabled(s, WriteBatch(task))
    requires s.tasks[task].seen == s.workers[ClientOf(s, task)].cursor
    ensures Apply(world, s, WriteBatch(task)).workers[ClientOf(s, task)].cursor >= s.workers[ClientOf(s, task)].cursor
  {
    RewindsIff(world, s, WriteBatch(task), ClientOf(s, task));
  }

  lemma {:induction false} OneMoreStep(world: World, s: State, steps: seq<Step>, t: State, step: Step)
    requires Runs(world, s, steps, t) && Enabled(t, step)
    ensures Runs(world, s, steps + [step], Apply(world, t, step))
    decreases |steps|
  {
    var longer := steps + [step];
    if steps != [] {
      assert longer[0] == steps[0] && longer[1..] == steps[1..] + [step];
      OneMoreStep(world, Apply(world, s, steps[0]), steps[1..], t, step);
    } else {
      assert longer[0] == step && longer[1..] == [];
    }
  }

  /** A journal of two events and one client that has persisted nothing. */
  function RaceStart(): State {
    var first := Event(1, "", "", "", 0, "", "", "", []);
    var history := [first, first.(id := 2)];
    State(history, history, map[0 := Worker(ZERO, map[])], map[0 := ZERO], map[], {}, map[])
  }

  lemma RacePage(world: World, limit: nat)
    requires 1 <= limit <= 2
    ensures Fetched(world, RaceStart().journal, Pull(0, ZERO, ZERO, []), limit).cursor == limit
  {
    var journal := RaceStart().journal;
    assert After(journal[1..][1..], ZERO) == [];
    assert After(journal[1..], ZERO) == [journal[1]];
    assert After(journal, ZERO) == journal;
    assert LastId(PageWindow(journal, ZERO, limit).events) == limit;
  }

  ghost predicate RaceOn(s: State) {
    && s.journal == RaceStart().journal
    && s.workers == RaceStart().workers && s.reached == RaceStart().reached && s.tasks == map[] && s.pulls == map[]
  }

  /** A tab pulls one page of the given size and hands it over. */
  lemma RaceTab(world: World, start: State, steps: seq<Step>, s: State, limit: nat)
    returns (longer: seq<Step>, t: State, m: Message)
    requires Runs(world, start, steps, s) && RaceOn(s) && 1 <= limit <= 2
    ensures Runs(world, start, longer, t) && RaceOn(t)
    ensures m in t.messages && m.client == 0 && m.cursor == limit && s.messages <= t.messages
  {
    OneMoreStep(world, start, steps, s, Open(0, 0, ZERO));
    var pulling := Apply(world, s, Open(0, 0, ZERO));
    RacePage(world, limit);
    OneMoreStep(world, start, steps + [Open(0, 0, ZERO)], pulling, FetchPage(0, limit));
    var fetched := Apply(world, pulling, FetchPage(0, limit));
    var p := fetched.pulls[0];
    OneMoreStep(world, start, steps + [Open(0, 0, ZERO)] + [FetchPage(0, limit)], fetched, HandOver(0));
    longer := steps + [Open(0, 0, ZERO)] + [FetchPage(0, limit)] + [HandOver(0)];
    t := Apply(world, fetched, HandOver(0));
    m := Message(0, p.cursor, p.collected);
    assert t.pulls == map[];
  }

  /** Both batches read the empty cursor, and the larger cursor is written. */
  lemma RaceWrites(world: World, start: State, steps: seq<Step>, s: State, m1: Message, m2: Message)
    returns (longer: seq<Step>, t: State)
    requires Runs(world, start, steps, s) && RaceOn(s)
    requires m1 in s.messages && m1.client == 0 && m1.cursor == 1
    requires m2 in s.messages && m2.client == 0 && m2.cursor == 2
    ensures Runs(world, start, longer, t) && 1 in t.tasks && t.tasks[1] == Task(m1, ZERO)
    ensures Known(t, 0) && t.workers[0].cursor == 2
  {
    OneMoreStep(world, start, steps, s, ReadCursor(1, m1));
    var s1 := Apply(world, s, ReadCursor(1, m1));
    OneMoreStep(world, start, steps + [ReadCursor(1, m1)], s1, ReadCursor(2, m2));
    var s2 := Apply(world, s1, ReadCursor(2, m2));
    OneMoreStep(world, start, steps + [ReadCursor(1, m1)] + [ReadCursor(2, m2)], s2, WriteBatch(2));
    longer := steps + [ReadCursor(1, m1)] + [ReadCursor(2, m2)] + [WriteBatch(2)];
    t := Apply(world, s2, WriteBatch(2));
  }

  /** It happens, in every world: two tabs hand over the cursors 1 and 2, both batches read the empty
      cursor, 2 is written, and then 1. */
  lemma CursorCanMoveBack(world: World) returns (s: State, steps: seq<Step>, before: State)
    ensures Init(s) && Runs(world, s, steps, before) && Enabled(before, WriteBatch(1))
    ensures 0 in before.workers && before.workers[0].cursor == 2
    ensures 0 in Apply(world, before, WriteBatch(1)).workers
    ensures Apply(world, before, WriteBatch(1)).workers[0].cursor == 1
  {
    s := RaceStart();
    var s1, m1, s2, m2;
    steps, s1, m1 := RaceTab(world, s, [], s, 1);
    steps, s2, m2 := RaceTab(world, s, steps, s1, 2);
    steps, before := RaceWrites(world, s, steps, s2, m1, m2);
  }

  lemma CollectedIffVisible(world: World, s: State, p: Pull, e: Event)
    requires JournalOk(s) && PullOk(world, s, p)
    requires e in s.journal && p.start < e.id <= p.cursor
    ensures Delivered(e, world.json) in p.collected <==> Sees(world.filters(p.client), e)
  {
    if Delivered(e, world.json) in p.collected {
      assert e in s.history;
      GenuineIsThatEvent(s.history, world.filters(p.client), world.json, p.start, p.cursor,
                         Delivered(e, world.json), e);
    }
  }

  /** Over every run, for a pull that has not handed over yet (so in particular for the plain
      client that only appends): what it collected is strictly ascending, hence free of
      duplicates, and between its start and its cursor it has exactly the visible events. */
  lemma CollectedIsExact(world: World, s: State, steps: seq<Step>, t: State, id: nat)
    requires Init(s) && Runs(world, s, steps, t) && id in t.pulls
    ensures var p := t.pulls[id];
            && AscendingWire(p.collected)
            && (forall e | e in t.journal && p.start < e.id <= p.cursor ::
                  Delivered(e, world.json) in p.collected <==> Sees(world.filters(p.client), e))
            && (forall w | w in p.collected ::
                  Genuine(t.history, world.filters(p.client), world.json, p.start, p.cursor, w))
  {
    RunKeepsInv(world, s, steps, t);
    assert PullOk(world, t, t.pulls[id]);
    forall e | e in t.journal && t.pulls[id].start < e.id <= t.pulls[id].cursor
      ensures Delivered(e, world.json) in t.pulls[id].collected <==> Sees(world.filters(t.pulls[id].client), e)
    {
      CollectedIffVisible(world, t, t.pulls[id], e);
    }
  }

  ghost predicate Forward(s: State, t: State) {
    && NoLoss(s, t)
    && s.history <= t.history
    && Evolved(s.journal, LastId(s.history), t.journal)
  }

  lemma StepMovesForward(world: World, s: State, step: Step)
    requires Inv(world, s) && Enabled(s, step)
    ensures Forward(s, Apply(world, s, step))
  {
    LastIdIsLargest(s.history);
    forall e | e in s.journal ensures e.id <= LastId(s.history) {
      assert e in s.history;
    }
  }

  lemma ForwardIsTransitive(s: State, m: State, t: State)
    requires Forward(s, m) && Forward(m, t) && Ascending(m.history)
    ensures Forward(s, t)
  {
    HistoryGrows(s.history, m.history);
    forall e | e in t.journal && e.id <= LastId(s.history) ensures e in s.journal {
      assert e in m.journal;
    }
  }

  /** The largest cursor a client persisted never shrinks, and the journals of two moments of one
      run are related as the 304 argument needs. */
  lemma {:induction false} RunOnlyMovesForward(world: World, s: State, steps: seq<Step>, t: State)
    requires Inv(world, s) && Runs(world, s, steps, t)
    ensures Forward(s, t)
    decreases |steps|
  {
    if steps == [] {
      LastIdIsLargest(s.history);
      forall e | e in s.journal ensures e.id <= LastId(s.history) {
        assert e in s.history;
      }
    } else {
      var m := Apply(world, s, steps[0]);
      StepKeepsInv(world, s, steps[0]);
      StepMovesForward(world, s, steps[0]);
      RunOnlyMovesForward(world, m, steps[1..], t);
      ForwardIsTransitive(s, m, t);
    }
  }

  /** The 304 over a run: revalidating later, with whatever happened in between, answers 304
      exactly when the page is still the one the client holds. */
  lemma RevalidationIsExact(world: World, s: State, before: seq<Step>, t: State, between: seq<Step>, u: State,
                            config: PullConfig, hash: string -> string, r: PullRequest)
    requires Init(s) && Runs(world, s, before, t) && Runs(world, t, between, u)
    requires IdealHash(hash) && r.condition == Unconditional
    requires Reply(config, world.json.isValid, hash, r, Some(t.journal)).Sent?
    ensures var held := Reply(config, world.json.isValid, hash, r, Some(t.journal));
            var again := Reply(config, world.json.isValid, hash, r.(condition := Tags({held.tag})), Some(u.journal));
            var current := Reply(config, world.json.isValid, hash, r, Some(u.journal));
            current.Sent? && (again.NotModified? <==> current.body == held.body)
  {
    RunKeepsInv(world, s, before, t);
    RunKeepsInv(world, t, between, u);
    RunOnlyMovesForward(world, t, between, u);
    NotModifiedIffUnchanged(config, world.json.isValid, hash, r, t.journal, LastId(t.history), u.journal);
  }
}

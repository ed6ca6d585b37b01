/** The worker that owns a client's cache: the two transactions that take in a batch, and what a
    rebuilt backend does to the cache. */
module SyncWorkers {
  import opened Prelude
  import opened EventIds
  import opened SyncWire
  import opened SyncPull
  import opened SyncRun

  /** What is persisted: the worker's cursor and cache, and the backend they were filled from. */
  datatype Disk = Disk(worker: Worker, backendId: string)

  /** What a tab posts: its pull's cursor, the backend's identity and the records. */
  datatype Batch = Batch(cursor: EventId, backendId: string, events: seq<SyncEvent>)

  const BLANK_DISK := Disk(Worker(ZERO, map[]), "")

  /** The batch names another backend than the one that was read. */
  predicate ResetDetected(known: string, backendId: string) {
    backendId != "" && known != "" && backendId != known
  }

  /** The write transaction of a batch that read `seen`: a changed backend empties the cache first
      and its batch's cursor is taken as it is. */
  function Persisted(disk: Disk, seen: Disk, b: Batch): Disk {
    var reset := ResetDetected(seen.backendId, b.backendId);
    var moves := b.cursor != ZERO && (reset || b.cursor >= seen.worker.cursor);
    Disk(
      Worker(if moves then b.cursor else disk.worker.cursor,
             Stored(if reset then map[] else disk.worker.cache, b.events)),
      if !moves then disk.backendId else if b.backendId != "" then b.backendId else seen.backendId)
  }

  class SyncWorker {
    var disk: Disk

    constructor ()
      ensures disk == BLANK_DISK == Disk(Worker(0, map[]), "")
    {
      disk := BLANK_DISK;
    }

    /** getSyncState: the read transaction. */
    method GetSyncState() returns (cursor: EventId, backendId: string)
      ensures cursor == disk.worker.cursor && backendId == disk.backendId
    {
      return disk.worker.cursor, disk.backendId;
    }

    /** The write transaction of cacheEvents, some time after its read. */
    method PersistBatch(cursor: EventId, backendId: string, seen: Disk, events: seq<SyncEvent>) returns (reset: bool)
      modifies this
      ensures reset <==> ResetDetected(seen.backendId, backendId)
      ensures disk == Persisted(old(disk), seen, Batch(cursor, backendId, events))
    {
      reset := backendId != "" && seen.backendId != "" && backendId != seen.backendId;
      var cursorRegression := !reset && seen.worker.cursor != ZERO && cursor != ZERO && cursor < seen.worker.cursor;
      var cache := if reset then map[] else disk.worker.cache;
      ghost var start := cache;
      for i := 0 to |events|
        invariant cache == Stored(start, events[..i])
      {
        assert events[..i + 1][..i] == events[..i];
        cache := cache[events[i].eventId := events[i]];
      }
      assert events[..|events|] == events;
      disk := disk.(worker := disk.worker.(cache := cache));
      if cursor != ZERO && !cursorRegression {
        disk := Disk(disk.worker.(cursor := cursor), if backendId != "" then backendId else seen.backendId);
      }
    }

    /** cacheEvents, when no other batch writes between its two transactions. */
    method CacheEvents(cursor: EventId, backendId: string, events: seq<SyncEvent>) returns (reset: bool)
      modifies this
      ensures reset <==> ResetDetected(old(disk).backendId, backendId)
      ensures disk == Persisted(old(disk), old(disk), Batch(cursor, backendId, events))
      ensures !reset ==> disk.worker.cursor >= old(disk).worker.cursor
    {
      var seenCursor, seenBackend := GetSyncState();
      reset := PersistBatch(cursor, backendId, Disk(Worker(seenCursor, disk.worker.cache), seenBackend), events);
    }
  }

  /** On one backend, a batch's write is the write step of the runs. */
  lemma SameBackendIsWritten(disk: Disk, seen: Disk, b: Batch)
    requires !ResetDetected(seen.backendId, b.backendId)
    ensures Persisted(disk, seen, b).worker == Written(disk.worker, seen.worker.cursor, b.cursor, b.events)
  {
  }

  // ---------- batches of several backends, one after the other ----------

  /** Batches taken in one at a time. */
  function TakenIn(batches: seq<Batch>): Disk {
    if batches == [] then BLANK_DISK
    else
      var before := TakenIn(batches[..|batches| - 1]);
      Persisted(before, before, batches[|batches| - 1])
  }

  /** The batches since the last one that was taken for a reset, that one included. */
  function SinceReset(batches: seq<Batch>): seq<Batch> {
    if batches == [] then []
    else
      var front, last := batches[..|batches| - 1], batches[|batches| - 1];
      if ResetDetected(TakenIn(front).backendId, last.backendId) then [last] else SinceReset(front) + [last]
  }

  /** A cache filled from nothing. */
  function FilledFrom(block: seq<Batch>): Worker {
    if block == [] then Worker(ZERO, map[])
    else
      var w := FilledFrom(block[..|block| - 1]);
      var b := block[|block| - 1];
      Written(w, w.cursor, b.cursor, b.events)
  }

  lemma OneMore(front: seq<Batch>, last: Batch)
    ensures TakenIn(front + [last]) == Persisted(TakenIn(front), TakenIn(front), last)
    ensures SinceReset(front + [last])
         == if ResetDetected(TakenIn(front).backendId, last.backendId) then [last] else SinceReset(front) + [last]
  {
    assert (front + [last])[..|front|] == front;
  }

  /** Nothing is known at first, so a first batch is never taken for a reset. */
  lemma FirstBatchIsKept(b: Batch)
    ensures SinceReset([b]) == [b]
    ensures TakenIn([b]) == Disk(Worker(b.cursor, Stored(map[], b.events)), if b.cursor == 0 then "" else b.backendId)
  {
    OneMore([], b);
    assert [] + [b] == [b];
  }

  lemma FilledFromOneMore(block: seq<Batch>, b: Batch)
    ensures FilledFrom(block + [b]) == Written(FilledFrom(block), FilledFrom(block).cursor, b.cursor, b.events)
  {
    assert (block + [b])[..|block|] == block;
  }

  lemma FilledFromOne(b: Batch)
    ensures FilledFrom([b]) == Worker(b.cursor, Stored(map[], b.events))
  {
    FilledFromOneMore([], b);
    assert [] + [b] == [b];
  }

  lemma SinceResetOneMore(before: seq<Batch>, block: seq<Batch>, last: Batch)
    ensures before + (block + [last]) == (before + block) + [last]
  {
  }

  /** Whatever came before, the cache is what the batches since the last detected reset fill from
      nothing; and so is the cursor, unless the batch that was taken for a reset carried none. */
  lemma {:induction false} DiskIsSinceTheLastReset(batches: seq<Batch>) returns (before: seq<Batch>)
    ensures batches == before + SinceReset(batches)
    ensures before != [] ==>
              SinceReset(batches) != [] && ResetDetected(TakenIn(before).backendId, SinceReset(batches)[0].backendId)
    ensures TakenIn(batches).worker.cache == FilledFrom(SinceReset(batches)).cache
    ensures before == [] || SinceReset(batches)[0].cursor != ZERO ==>
              TakenIn(batches).worker == FilledFrom(SinceReset(batches))
    decreases |batches|
  {
    before := [];
    if batches != [] {
      var n := |batches| - 1;
      var front, last := batches[..n], batches[n];
      assert batches == front + [last];
      OneMore(front, last);
      if ResetDetected(TakenIn(front).backendId, last.backendId) {
        before := front;
        FilledFromOne(last);
      } else {
        before := DiskIsSinceTheLastReset(front);
        SinceResetOneMore(before, SinceReset(front), last);
        FilledFromOneMore(SinceReset(front), last);
      }
    }
  }

  predicate OneName(block: seq<Batch>, backendId: string) {
    forall b | b in block :: b.backendId == "" || b.backendId == backendId
  }

  predicate CarryCursors(batches: seq<Batch>) {
    forall b | b in batches :: b.cursor != ZERO
  }

  lemma KnownStaysKnown(disk: Disk, b: Batch)
    requires disk == BLANK_DISK || disk.backendId != ""
    requires b.cursor != ZERO && (disk == BLANK_DISK ==> b.backendId != "")
    ensures Persisted(disk, disk, b).backendId == if b.backendId != "" then b.backendId else disk.backendId
    ensures !ResetDetected(disk.backendId, b.backendId) ==> OneName([b], Persisted(disk, disk, b).backendId)
  {
  }

  /** Once a backend has named itself in a first batch, some backend is always known, and since the
      last reset no other has named itself. */
  lemma {:induction false} OneBackendSinceTheReset(batches: seq<Batch>)
    requires batches != [] && batches[0].backendId != "" && CarryCursors(batches)
    ensures TakenIn(batches).backendId != "" && OneName(SinceReset(batches), TakenIn(batches).backendId)
    ensures batches[|batches| - 1].backendId != "" ==>
              TakenIn(batches).backendId == batches[|batches| - 1].backendId
    decreases |batches|
  {
    var n := |batches| - 1;
    var front, last := batches[..n], batches[n];
    assert batches == front + [last] && last in batches;
    if n > 0 {
      OneBackendSinceTheReset(front);
    } else {
      assert front == [] && SinceReset(front) == [];
    }
    KnownStaysKnown(TakenIn(front), last);
    OneMore(front, last);
  }

  /** While none is known, the name a batch gives is remembered only along with its cursor: one that
      regresses leaves the backend unknown, and a later change of backend undetected. */
  lemma NameIsRememberedIffCursorIsTaken(batches: seq<Batch>, b: Batch)
    requires TakenIn(batches).backendId == "" && b.backendId != ""
    ensures TakenIn(batches + [b]).backendId == b.backendId
       <==> b.cursor != ZERO && b.cursor >= TakenIn(batches).worker.cursor
    ensures TakenIn(batches + [b]).backendId != b.backendId ==> TakenIn(batches + [b]).backendId == ""
  {
    OneMore(batches, b);
  }

  /** Without a cursor a reset goes half way: it empties the cache but keeps the old backend's
      cursor and identity, so that a next pull starts from there and is taken for a reset again. */
  lemma ResetWithoutACursor(batches: seq<Batch>, b: Batch)
    requires ResetDetected(TakenIn(batches).backendId, b.backendId) && b.cursor == ZERO
    ensures TakenIn(batches + [b]).worker == Worker(TakenIn(batches).worker.cursor, Stored(map[], b.events))
    ensures TakenIn(batches + [b]).backendId == TakenIn(batches).backendId
  {
    OneMore(batches, b);
  }

  /** A late batch of the backend that was replaced is itself taken for a reset: it wipes what the
      new backend's batches had filled, and makes the old backend the known one. */
  lemma LateBatchWipesTheCache(batches: seq<Batch>, late: Batch)
    requires batches != [] && batches[0].backendId != "" && CarryCursors(batches + [late])
    requires batches[|batches| - 1].backendId != "" && late.backendId !in {"", batches[|batches| - 1].backendId}
    ensures TakenIn(batches + [late]) == Disk(Worker(late.cursor, Stored(map[], late.events)), late.backendId)
  {
    OneBackendSinceTheReset(batches);
    OneMore(batches, late);
  }

  // ---------- batches of several backends, interleaved at will ----------

  /** A write transaction with whatever its batch had read before. */
  datatype Write = Write(seen: Disk, batch: Batch)

  function AfterWrites(writes: seq<Write>): Disk {
    if writes == [] then BLANK_DISK
    else
      var last := writes[|writes| - 1];
      Persisted(AfterWrites(writes[..|writes| - 1]), last.seen, last.batch)
  }

  predicate Resets(w: Write) {
    ResetDetected(w.seen.backendId, w.batch.backendId)
  }

  /** Write k is the last that detected a reset; k is 0 if none did. */
  predicate LastResetAt(writes: seq<Write>, k: nat) {
    && k <= |writes| && (k > 0 ==> k < |writes| && Resets(writes[k]))
    && forall j | k < j < |writes| :: !Resets(writes[j])
  }

  /** The records of some writes, in order. */
  function RecordsOf(writes: seq<Write>): seq<SyncEvent> {
    if writes == [] then []
    else RecordsOf(writes[..|writes| - 1]) + writes[|writes| - 1].batch.events
  }

  lemma {:induction false} StoredTwice(cache: map<EventId, SyncEvent>, a: seq<SyncEvent>, b: seq<SyncEvent>)
    ensures Stored(Stored(cache, a), b) == Stored(cache, a + b)
    decreases |b|
  {
    if b == [] {
      assert a + b == a;
    } else {
      var n := |b| - 1;
      StoredTwice(cache, a, b[..n]);
      assert (a + b)[..|a + b| - 1] == a + b[..n];
    }
  }

  lemma RecordsFrom(writes: seq<Write>, k: nat)
    requires k < |writes|
    ensures var n := |writes| - 1;
            RecordsOf(writes[k..]) == RecordsOf(writes[..n][k..]) + writes[n].batch.events
  {
    var rest := writes[k..];
    assert rest[..|rest| - 1] == writes[..|writes| - 1][k..] && rest[|rest| - 1] == writes[|writes| - 1];
  }

  lemma WriteAdds(before: Disk, w: Write, records: seq<SyncEvent>)
    requires before.worker.cache == Stored(map[], records) && !Resets(w)
    ensures Persisted(before, w.seen, w.batch).worker.cache == Stored(map[], records + w.batch.events)
  {
    StoredTwice(map[], records, w.batch.events);
  }

  lemma WriteReplaces(before: Disk, w: Write)
    requires Resets(w)
    ensures Persisted(before, w.seen, w.batch).worker.cache == Stored(map[], [] + w.batch.events)
  {
    assert [] + w.batch.events == w.batch.events;
  }

  /** However reads and writes interleave and whatever backends the batches come from: the cache is
      what has been written since the last write that took its batch for a reset, that write
      included, and all that was ever written if none did. */
  lemma {:induction false} CacheIsSinceTheLastReset(writes: seq<Write>, k: nat)
    requires LastResetAt(writes, k)
    ensures AfterWrites(writes).worker.cache == Stored(map[], RecordsOf(writes[k..]))
    decreases |writes|
  {
    if writes == [] {
      assert writes[k..] == [];
    } else {
      var n := |writes| - 1;
      RecordsFrom(writes, k);
      if k < n || !Resets(writes[n]) {
        CacheIsSinceTheLastReset(writes[..n], k);
        WriteAdds(AfterWrites(writes[..n]), writes[n], RecordsOf(writes[..n][k..]));
      } else {
        assert writes[..n][k..] == [];
        WriteReplaces(AfterWrites(writes[..n]), writes[n]);
      }
    }
  }

  // ---------- a rebuilt backend ----------

  /** Up to its cursor the worker has what this journal shows it. */
  ghost predicate Complete(w: Worker, journal: seq<Event>, filter: Filter, json: JsonLibrary) {
    forall e | e in journal && e.id <= w.cursor && Sees(filter, e) ::
      e.id in w.cache && w.cache[e.id] == Delivered(e, json)
  }

  /** The records a pull hands over for the events it read. */
  function Pulled(read: seq<Event>, filter: Filter, json: JsonLibrary): seq<SyncEvent> {
    Received(VisibleWire(read, filter, json.isValid), json.rewrite)
  }

  /** What a worker holds once a batch from a rebuilt backend has reset it. */
  function ResetWorker(cursor: EventId, events: seq<SyncEvent>): Worker {
    Worker(cursor, Stored(map[], events))
  }

  /** Whatever it held before and read since. */
  lemma ResetLeavesTheBatch(disk: Disk, seen: Disk, b: Batch)
    requires ResetDetected(seen.backendId, b.backendId) && b.cursor != ZERO
    ensures Persisted(disk, seen, b) == Disk(ResetWorker(b.cursor, b.events), b.backendId)
  {
  }

  lemma PulledMembers(read: seq<Event>, filter: Filter, json: JsonLibrary)
    requires Ascending(read)
    ensures AscendingWire(Pulled(read, filter, json))
    ensures forall e | e in read && Sees(filter, e) :: Delivered(e, json) in Pulled(read, filter, json)
    ensures forall v | v in Pulled(read, filter, json) ::
              exists e :: e in read && Sees(filter, e) && v == Delivered(e, json)
  {
    var records := VisibleWire(read, filter, json.isValid);
    VisibleMembers(read, filter, json.isValid);
    ReceivedMembers(records, json.rewrite);
    forall e | e in read && Sees(filter, e) ensures Delivered(e, json) in Pulled(read, filter, json) {
      assert Delivers(read, filter, json.isValid, ToWire(e, json.isValid));
    }
    forall v | v in Pulled(read, filter, json)
      ensures exists e :: e in read && Sees(filter, e) && v == Delivered(e, json)
    {
      var w :| w in records && v == Encoded(w, json.rewrite);
      assert Delivers(read, filter, json.isValid, w);
    }
  }

  lemma BatchStored(read: seq<Event>, filter: Filter, json: JsonLibrary, cursor: EventId, e: Event)
    requires Ascending(read) && e in read && Sees(filter, e)
    ensures var w := ResetWorker(cursor, Pulled(read, filter, json));
            e.id in w.cache && w.cache[e.id] == Delivered(e, json)
  {
    PulledMembers(read, filter, json);
    StoredKeys(map[], Pulled(read, filter, json));
  }

  lemma BatchOnly(read: seq<Event>, filter: Filter, json: JsonLibrary, cursor: EventId, k: EventId)
    requires Ascending(read)
    requires k in ResetWorker(cursor, Pulled(read, filter, json)).cache
    ensures exists e :: e in read && e.id == k && Sees(filter, e)
  {
    var events := Pulled(read, filter, json);
    PulledMembers(read, filter, json);
    StoredKeys(map[], events);
    var v :| v in events && v.eventId == k;
    var e :| e in read && Sees(filter, e) && v == Delivered(e, json);
  }

  /** A tab pulls from the cursor persisted under the old backend. After the reset the worker
      lacks every visible event of the new journal at or below that cursor, and later pulls start
      above it: the cache is complete exactly if there is none. Documented is a fresh start, which
      would be a pull from ZERO, and that one always leaves the cache complete. */
  lemma ResetIsCompleteIffNothingLiesBelow(journal: seq<Event>, filter: Filter, json: JsonLibrary,
                                           start: EventId, cursor: EventId, read: seq<Event>)
    requires Ascending(journal) && start <= cursor
    requires read + After(journal, cursor) == After(journal, start)
    ensures Complete(ResetWorker(cursor, Pulled(read, filter, json)), journal, filter, json)
       <==> forall e | e in journal && Sees(filter, e) :: e.id > start
    ensures start == ZERO ==> Complete(ResetWorker(cursor, Pulled(read, filter, json)), journal, filter, json)
  {
    var w := ResetWorker(cursor, Pulled(read, filter, json));
    ReadIsTheRange(journal, start, cursor, read);
    if forall e | e in journal && Sees(filter, e) :: e.id > start {
      forall e | e in journal && e.id <= cursor && Sees(filter, e)
        ensures e.id in w.cache && w.cache[e.id] == Delivered(e, json)
      {
        BatchStored(read, filter, json, cursor, e);
      }
    }
    if Complete(w, journal, filter, json) {
      forall e | e in journal && Sees(filter, e) ensures e.id > start {
        if e.id <= start {
          BatchOnly(read, filter, json, cursor, e.id);
        }
      }
    }
  }

  lemma ReadIsTheRange(journal: seq<Event>, start: EventId, cursor: EventId, read: seq<Event>)
    requires Ascending(journal) && start <= cursor
    requires read + After(journal, cursor) == After(journal, start)
    ensures Ascending(read)
    ensures forall e :: e in read ==> e in journal && e.id > start
    ensures forall e :: e in journal && start < e.id <= cursor ==> e in read
  {
    AfterMembers(journal, start);
    AfterMembers(journal, cursor);
    var all := After(journal, start);
    assert read == all[..|read|];
    forall e | e in read ensures e in journal && e.id > start {
      assert e in all;
    }
    forall e | e in journal && start < e.id <= cursor ensures e in read {
      assert e in read + After(journal, cursor);
    }
  }

  /** It happens: a worker at cursor 5 of backend "a", a backend "b" rebuilt with the one event 1, and
      a pull from 5 that finds nothing. The batch resets the cache, and event 1 is missing from it. */
  lemma ResetCanLoseEvents(disk: Disk, json: JsonLibrary) returns (journal: seq<Event>, b: Batch)
    requires disk.backendId == "a" && disk.worker.cursor == 5
    ensures Ascending(journal) && After(journal, 5) == []
    ensures b == Batch(5, "b", Pulled([], None, json))
    ensures !Complete(Persisted(disk, disk, b).worker, journal, None, json)
  {
    var evt := Event(1, "", "", "", 0, "", "", "", []);
    journal := [evt];
    b := Batch(5, "b", Pulled([], None, json));
    assert After([], 5) == [] && journal[1..] == [];
    ResetLeavesTheBatch(disk, disk, b);
    ResetIsCompleteIffNothingLiesBelow(journal, None, json, 5, 5, []);
    assert evt in journal;
  }
}

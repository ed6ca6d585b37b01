/** The HTTP half of the pull endpoint: query parsing, the ETag and the 304 answer. */
module SyncPullHandling {
  import opened Prelude
  import opened EventIds
  import opened SyncWire
  import opened SyncPull

  // ---------- configuration ----------

  /** The filter sees the request it runs for; here the request is its caller's name. */
  type RequestFilter = Option<(string, Event) -> bool>

  datatype PullConfig = PullConfig(backendId: string, filter: RequestFilter, limit: int)

  datatype SyncPullOption =
    | WithSyncPullBackendID(backendId: string)
    | WithSyncPullFilter(filter: RequestFilter)
    | WithSyncPullLimit(limit: int)

  function Configured(opts: seq<SyncPullOption>): PullConfig {
    if opts == [] then PullConfig("", None, DEFAULT_SYNC_PULL_LIMIT)
    else
      var before := Configured(opts[..|opts| - 1]);
      match opts[|opts| - 1]
      case WithSyncPullBackendID(id) => before.(backendId := id)
      case WithSyncPullFilter(f) => before.(filter := f)
      case WithSyncPullLimit(n) => before.(limit := n)
  }

  /** Option n is the last that this kind of option is; n is the length of the list if there is none. */
  predicate IsLast(opts: seq<SyncPullOption>, n: nat, kind: SyncPullOption -> bool) {
    && n <= |opts| && (n < |opts| ==> kind(opts[n]))
    && forall m :: (if n < |opts| then n + 1 else 0) <= m < |opts| ==> !kind(opts[m])
  }

  /** The last option of a kind decides, and without one the default: no backend ID, no filter, 500. */
  lemma {:induction false} LastOptionsWin(opts: seq<SyncPullOption>, i: nat, j: nat, k: nat)
    requires IsLast(opts, i, (o: SyncPullOption) => o.WithSyncPullBackendID?)
    requires IsLast(opts, j, (o: SyncPullOption) => o.WithSyncPullFilter?)
    requires IsLast(opts, k, (o: SyncPullOption) => o.WithSyncPullLimit?)
    ensures Configured(opts).backendId == if i < |opts| then opts[i].backendId else ""
    ensures Configured(opts).filter == if j < |opts| then opts[j].filter else None
    ensures Configured(opts).limit == if k < |opts| then opts[k].limit else 500
    decreases |opts|
  {
    if opts != [] {
      var n: nat := |opts| - 1;
      var i', j', k' := LastIn(opts[..n], (o: SyncPullOption) => o.WithSyncPullBackendID?),
        LastIn(opts[..n], (o: SyncPullOption) => o.WithSyncPullFilter?),
        LastIn(opts[..n], (o: SyncPullOption) => o.WithSyncPullLimit?);
      LastOptionsWin(opts[..n], i', j', k');
      LastIsOne(opts, i, i', (o: SyncPullOption) => o.WithSyncPullBackendID?);
      LastIsOne(opts, j, j', (o: SyncPullOption) => o.WithSyncPullFilter?);
      LastIsOne(opts, k, k', (o: SyncPullOption) => o.WithSyncPullLimit?);
    }
  }

  function LastIn(opts: seq<SyncPullOption>, kind: SyncPullOption -> bool): (n: nat)
    ensures IsLast(opts, n, kind)
  {
    if opts == [] then 0
    else
      var front := opts[..|opts| - 1];
      if kind(opts[|opts| - 1]) then |opts| - 1
      else if LastIn(front, kind) < |front| then LastIn(front, kind) else |opts|
  }

  /** The last of a list is its last element, or else the last of what is before it. */
  lemma LastIsOne(opts: seq<SyncPullOption>, n: nat, front: nat, kind: SyncPullOption -> bool)
    requires opts != [] && IsLast(opts, n, kind) && IsLast(opts[..|opts| - 1], front, kind)
    ensures n == if kind(opts[|opts| - 1]) then |opts| - 1 else if front < |opts| - 1 then front else |opts|
  {
    var m := |opts| - 1;
    if n < m {
      assert opts[..m][n] == opts[n];
    }
    if front < m {
      assert opts[..m][front] == opts[front];
    }
  }

  function FilterFor(config: PullConfig, caller: string): Filter {
    match config.filter
    case None => None
    case Some(f) => Some((e: Event) => f(caller, e))
  }

  // ---------- the request ----------

  /** ?limit= as strconv.Atoi read it; ?after= as id.ParseEventID read it. */
  datatype LimitParam = LimitAbsent | LimitMalformed | LimitGiven(n: int)
  datatype CursorParam = CursorAbsent | CursorMalformed | CursorGiven(id: EventId)

  /** If-None-Match after parsing: section 13.1.2 of RFC 9110. */
  datatype Condition = Unconditional | AnyTag | Tags(tags: set<string>)

  datatype PullRequest = PullRequest(
    method_: string,
    limit: LimitParam,
    after: CursorParam,
    condition: Condition,
    caller: string)

  datatype PullReply =
    | MethodNotAllowed
    | LimitInvalid
    | CursorInvalid
    | JournalReadFailed
    | Panicked
    | NotModified(tag: string)
    | Sent(tag: string, body: PullBody)

  function EffectiveLimit(default: int, param: LimitParam): int {
    Min(if param.LimitGiven? then param.n else default, MAX_SYNC_PULL_LIMIT)
  }

  function EffectiveCursor(param: CursorParam): EventId {
    if param.CursorGiven? then param.id else ZERO
  }

  datatype ParsedQuery = Parsed(after: EventId, limit: int) | Refused(reply: PullReply)

  method ParseSyncPullQuery(r: PullRequest, defaultLimit: int) returns (q: ParsedQuery)
    ensures r.limit.LimitMalformed? || (r.limit.LimitGiven? && r.limit.n <= 0) ==> q == Refused(LimitInvalid)
    ensures !(r.limit.LimitMalformed? || (r.limit.LimitGiven? && r.limit.n <= 0)) ==>
              q == if r.after.CursorMalformed? then Refused(CursorInvalid)
                   else Parsed(EffectiveCursor(r.after), EffectiveLimit(defaultLimit, r.limit))
    ensures q.Parsed? && r.after.CursorGiven? ==> q.after == r.after.id
    ensures q.Parsed? && r.after.CursorAbsent? ==> q.after == ZERO
    ensures q.Parsed? && r.limit.LimitGiven? ==> q.limit == if r.limit.n > 1000 then 1000 else r.limit.n
    ensures q.Parsed? && r.limit.LimitGiven? ==> 1 <= q.limit <= MAX_SYNC_PULL_LIMIT
    ensures q.Parsed? && defaultLimit >= 1 ==> 1 <= q.limit <= MAX_SYNC_PULL_LIMIT
  {
    var limit := defaultLimit;
    match r.limit {
      case LimitAbsent =>
      case LimitMalformed => return Refused(LimitInvalid);
      case LimitGiven(n) =>
        if n <= 0 {
          return Refused(LimitInvalid);
        }
        limit := n;
    }
    if limit > MAX_SYNC_PULL_LIMIT {
      limit := MAX_SYNC_PULL_LIMIT;
    }
    var after := ZERO;
    match r.after {
      case CursorAbsent =>
      case CursorMalformed => return Refused(CursorInvalid);
      case CursorGiven(id) => after := id;
    }
    return Parsed(after, limit);
  }

  // ---------- the ETag ----------

  function Decimal(n: nat): string {
    if n < 10 then [('0' as int + n) as char] else Decimal(n / 10) + [('0' as int + n % 10) as char]
  }

  function FormatBool(b: bool): string {
    if b then "true" else "false"
  }

  const NUL := "\0"

  /** The bytes handed to the FNV-1a hasher, separators included. */
  function HashInput(body: PullBody): string {
    body.backendId + NUL + CursorText(body.nextCursor) + NUL + Decimal(|body.events|) + NUL + FormatBool(body.hasMore)
  }

  function Quoted(hash: string): string {
    "\"" + hash + "\""
  }

  predicate Matches(condition: Condition, tag: string) {
    condition.AnyTag? || (condition.Tags? && tag in condition.tags)
  }

  function Answer(hash: string -> string, condition: Condition, body: PullBody): PullReply {
    var tag := Quoted(hash(HashInput(body)));
    if Matches(condition, tag) then NotModified(tag) else Sent(tag, body)
  }

  // ---------- the handler ----------

  /** The whole reply; read is None when the journal read failed. */
  function Reply(config: PullConfig, isJson: JsonCheck, hash: string -> string,
                 r: PullRequest, read: Option<seq<Event>>): PullReply
  {
    var limit := EffectiveLimit(config.limit, r.limit);
    if r.method_ != "GET" && r.method_ != "HEAD" then MethodNotAllowed
    else if r.limit.LimitMalformed? || (r.limit.LimitGiven? && r.limit.n <= 0) then LimitInvalid
    else if r.after.CursorMalformed? then CursorInvalid
    else if read.None? then JournalReadFailed
    else if limit < 0 then Panicked
    else
      var filter := FilterFor(config, r.caller);
      Answer(hash, r.condition,
             Page(config.backendId, filter, isJson, read.value, EffectiveCursor(r.after), limit))
  }

  /** Which requests are turned away, and for what. */
  lemma RefusalsAreOrdered(config: PullConfig, isJson: JsonCheck, hash: string -> string,
                           r: PullRequest, read: Option<seq<Event>>)
    ensures var reply := Reply(config, isJson, hash, r, read);
            var reading := r.method_ == "GET" || r.method_ == "HEAD";
            var limitOk := r.limit.LimitAbsent? || (r.limit.LimitGiven? && r.limit.n > 0);
            var cursorOk := !r.after.CursorMalformed?;
            && (reply.MethodNotAllowed? <==> !reading)
            && (reply.LimitInvalid? <==> reading && !limitOk)
            && (reply.CursorInvalid? <==> reading && limitOk && !cursorOk)
            && (reply.JournalReadFailed? <==> reading && limitOk && cursorOk && read.None?)
            && (reply.Panicked? <==>
                  reading && limitOk && cursorOk && read.Some? && r.limit.LimitAbsent? && config.limit < 0)
            && (reply.NotModified? || reply.Sent? <==>
                  reading && limitOk && cursorOk && read.Some? && (r.limit.LimitGiven? || config.limit >= 0))
            && (reply.NotModified? ==>
                  r.condition.AnyTag? || (r.condition.Tags? && reply.tag in r.condition.tags))
            && (reply.Sent? ==> r.condition.Unconditional? || (r.condition.Tags? && reply.tag !in r.condition.tags))
  {
  }

  /** What is sent is what was asked for: the page strictly after the cursor given, or from the start
      without one, of as many events as asked for, or as the handler gives by default, but at most a
      thousand; with those the request's caller may see, and from the backend configured. */
  lemma AskedPageIsSent(config: PullConfig, isJson: JsonCheck, hash: string -> string,
                        r: PullRequest, journal: seq<Event>)
    requires Ascending(journal) && Reply(config, isJson, hash, r, Some(journal)).Sent?
    ensures var body := Reply(config, isJson, hash, r, Some(journal)).body;
            var after := if r.after.CursorGiven? then r.after.id else 0;
            var asked := if r.limit.LimitGiven? then r.limit.n else config.limit;
            var limit := if asked > 1000 then 1000 else asked;
            var filter := FilterFor(config, r.caller);
            && limit >= 0
            && body.backendId == config.backendId
            && (forall e :: Sees(filter, e) <==> config.filter.None? || config.filter.value(r.caller, e))
            && PageContract(body, filter, isJson, journal, after, limit)
            && |After(journal, after)| - |After(journal, if body.nextCursor == 0 then after else body.nextCursor)|
               == Min(limit, |After(journal, after)|)
  {
    var after, limit := EffectiveCursor(r.after), EffectiveLimit(config.limit, r.limit);
    PageIsExact(config.backendId, FilterFor(config, r.caller), isJson, journal, after, limit);
    PageIsFull(config.backendId, FilterFor(config, r.caller), isJson, journal, after, limit);
  }

  lemma VisibleOneMore(events: seq<Event>, i: nat, filter: Filter, isJson: JsonCheck)
    requires i < |events|
    ensures VisibleWire(events[..i + 1], filter, isJson)
         == VisibleWire(events[..i], filter, isJson)
            + if Sees(filter, events[i]) then [ToWire(events[i], isJson)] else []
    ensures LastId(events[..i + 1]) == events[i].id
  {
    VisibleAppends(events[..i], [events[i]], filter, isJson);
    assert events[..i + 1] == events[..i] + [events[i]];
  }

  class SyncPullHandler {
    var config: PullConfig
    const seekable: bool
    const isJson: JsonCheck
    const hash: string -> string

    constructor (seekable: bool, isJson: JsonCheck, hash: string -> string, opts: seq<SyncPullOption>)
      ensures config == Configured(opts)
      ensures this.seekable == seekable && this.isJson == isJson && this.hash == hash
    {
      this.seekable := seekable;
      this.isJson := isJson;
      this.hash := hash;
      config := PullConfig("", None, DEFAULT_SYNC_PULL_LIMIT);
      new;
      for i := 0 to |opts|
        invariant config == Configured(opts[..i])
      {
        assert opts[..i + 1][..i] == opts[..i];
        match opts[i] {
          case WithSyncPullBackendID(id) => config := config.(backendId := id);
          case WithSyncPullFilter(f) => config := config.(filter := f);
          case WithSyncPullLimit(n) => config := config.(limit := n);
        }
      }
      assert opts[..|opts|] == opts;
    }

    method ServeHTTP(r: PullRequest, read: Option<seq<Event>>) returns (reply: PullReply)
      requires read.Some? ==> forall e | e in read.value :: e.id != ZERO
      ensures reply == Reply(config, isJson, hash, r, read)
    {
      if r.method_ != "GET" && r.method_ != "HEAD" {
        return MethodNotAllowed;
      }
      var query := ParseSyncPullQuery(r, config.limit);
      if query.Refused? {
        return query.reply;
      }
      if read.None? {
        return JournalReadFailed;
      }
      var outcome := ReadSyncPullWindow(read.value, seekable, query.after, query.limit);
      if outcome.SlicePanic? {
        return Panicked;
      }
      var visible, nextCursor := CollectVisible(r.caller, outcome.window.events);
      reply := WriteSyncPullResponse(r, PullBody(config.backendId, visible, nextCursor, outcome.window.hasMore));
    }

    /** The loop of the handler: the cursor advances past hidden events too. */
    method CollectVisible(caller: string, events: seq<Event>) returns (visible: seq<SyncEvent>, nextCursor: EventId)
      ensures visible == VisibleWire(events, FilterFor(config, caller), isJson)
      ensures nextCursor == LastId(events)
    {
      ghost var filter := FilterFor(config, caller);
      visible, nextCursor := [], ZERO;
      for i := 0 to |events|
        invariant visible == VisibleWire(events[..i], filter, isJson)
        invariant nextCursor == LastId(events[..i])
      {
        var evt := events[i];
        VisibleOneMore(events, i, filter, isJson);
        nextCursor := evt.id;
        if config.filter.Some? && !config.filter.value(caller, evt) {
          continue;
        }
        var wire := NewSyncEvent(evt, isJson);
        visible := visible + [wire];
      }
      assert events[..|events|] == events;
    }

    /** 304 without a body exactly if the request's condition names the body's tag; otherwise the
        body, under that tag. */
    method WriteSyncPullResponse(r: PullRequest, body: PullBody) returns (reply: PullReply)
      ensures reply.NotModified? <==> Matches(r.condition, Quoted(hash(HashInput(body))))
      ensures reply.NotModified? || reply.Sent?
      ensures reply.tag == Quoted(hash(HashInput(body)))
      ensures var cursor := if body.nextCursor == 0 then "" else Text(body.nextCursor);
              var more := if body.hasMore then "true" else "false";
              var position := body.backendId + "\0" + cursor + "\0" + Decimal(|body.events|) + "\0" + more;
              reply.tag == "\"" + hash(position) + "\""
      ensures reply.Sent? ==> reply.body == body
    {
      var tag := Quoted(hash(HashInput(body)));
      if Matches(r.condition, tag) {
        return NotModified(tag);
      }
      return Sent(tag, body);
    }
  }

  // ---------- the hash input is injective ----------

  lemma DecimalLength(n: nat)
    ensures |Decimal(n)| >= 1
    ensures |Decimal(n)| == 1 <==> n < 10
  {
    if n >= 10 {
      assert |Decimal(n / 10)| > 0;
    }
  }

  lemma {:induction false} DecimalIsInjective(m: nat, n: nat)
    requires Decimal(m) == Decimal(n)
    ensures m == n
  {
    var a, b := Decimal(m), Decimal(n);
    assert a[|a| - 1] as int == '0' as int + m % 10 && b[|b| - 1] as int == '0' as int + n % 10;
    DecimalLength(m);
    DecimalLength(n);
    if m >= 10 {
      assert a[..|a| - 1] == Decimal(m / 10) && b[..|b| - 1] == Decimal(n / 10);
      DecimalIsInjective(m / 10, n / 10);
    }
  }

  lemma {:induction false} DecimalHasNoNul(n: nat)
    ensures NUL[0] !in Decimal(n)
  {
    if n >= 10 {
      DecimalHasNoNul(n / 10);
    }
  }

  lemma CursorHasNoNul(id: EventId)
    ensures NUL[0] !in CursorText(id)
  {
    DigitsAreCrockford(id, 26);
  }

  /** A field without NUL after a NUL separator can be read back from the right. */
  lemma LastFieldReadsBack(a: string, x: string, b: string, y: string)
    requires a + NUL + x == b + NUL + y
    requires NUL[0] !in x && NUL[0] !in y
    ensures a == b && x == y
  {
    var s := a + NUL + x;
    assert s[|a|] == NUL[0] && s[|b|] == NUL[0];
    assert forall k | |a| < k < |s| :: s[k] == x[k - |a| - 1] && s[k] != NUL[0];
    assert forall k | |b| < k < |s| :: s[k] == y[k - |b| - 1] && s[k] != NUL[0];
    assert s[..|a|] == a && s[..|b|] == b;
    assert s[|a| + 1..] == x && s[|b| + 1..] == y;
  }

  lemma CursorTextIsInjective(a: EventId, b: EventId)
    requires CursorText(a) == CursorText(b)
    ensures a == b
  {
    TextKeepsOrder(a, b);
  }

  lemma HashInputIsInjective(p: PullBody, q: PullBody)
    requires HashInput(p) == HashInput(q)
    ensures p.backendId == q.backendId && p.nextCursor == q.nextCursor
    ensures |p.events| == |q.events| && p.hasMore == q.hasMore
  {
    DecimalHasNoNul(|p.events|);
    DecimalHasNoNul(|q.events|);
    CursorHasNoNul(p.nextCursor);
    CursorHasNoNul(q.nextCursor);
    var p1 := p.backendId + NUL + CursorText(p.nextCursor);
    var q1 := q.backendId + NUL + CursorText(q.nextCursor);
    LastFieldReadsBack(p1 + NUL + Decimal(|p.events|), FormatBool(p.hasMore),
                       q1 + NUL + Decimal(|q.events|), FormatBool(q.hasMore));
    LastFieldReadsBack(p1, Decimal(|p.events|), q1, Decimal(|q.events|));
    LastFieldReadsBack(p.backendId, CursorText(p.nextCursor), q.backendId, CursorText(q.nextCursor));
    DecimalIsInjective(|p.events|, |q.events|);
    CursorTextIsInjective(p.nextCursor, q.nextCursor);
  }

  // ---------- exactness of the 304 ----------

  /** The later journal was reached from the earlier one by appends and compactions: nothing
      at or below the highest ID ever used then is new. */
  ghost predicate Evolved(earlier: seq<Event>, top: EventId, later: seq<Event>) {
    && (forall e | e in earlier :: e.id <= top)
    && (forall e | e in later && e.id <= top :: e in earlier)
  }

  lemma {:induction false} SubsequenceOfOneLength(a: seq<SyncEvent>, b: seq<SyncEvent>)
    requires AscendingWire(a) && AscendingWire(b)
    requires forall w | w in b :: w in a
    ensures |b| <= |a|
    ensures |b| == |a| ==> a == b
  {
    if b != [] {
      var m := |b| - 1;
      assert b[m] in b;
      var i :| 0 <= i < |a| && a[i] == b[m];
      forall w | w in b[..m] ensures w in a[..i] {
        var k :| 0 <= k < m && b[k] == w;
        assert w in b;
        var l :| 0 <= l < |a| && a[l] == w;
        assert a[l].eventId < a[i].eventId;
      }
      SubsequenceOfOneLength(a[..i], b[..m]);
    }
  }

  /** The hashed position decides the body: with the same cursor, limit and filter, two
      journal states of one history that agree on it have the same page. */
  lemma PositionDecidesBody(backendId: string, filter: Filter, isJson: JsonCheck, after: EventId, limit: nat,
                            earlier: seq<Event>, top: EventId, later: seq<Event>)
    requires Ascending(earlier) && Ascending(later) && Evolved(earlier, top, later)
    ensures var p := Page(backendId, filter, isJson, earlier, after, limit);
            var q := Page(backendId, filter, isJson, later, after, limit);
            p.nextCursor == q.nextCursor && |p.events| == |q.events| && p.hasMore == q.hasMore ==> p == q
  {
    var p := Page(backendId, filter, isJson, earlier, after, limit);
    var q := Page(backendId, filter, isJson, later, after, limit);
    if p.nextCursor == q.nextCursor && |p.events| == |q.events| {
      PageIsExact(backendId, filter, isJson, earlier, after, limit);
      PageIsExact(backendId, filter, isJson, later, after, limit);
      forall w | w in q.events ensures w in p.events {
        var upTo := if q.nextCursor == ZERO then after else q.nextCursor;
        var e :| e in later && after < e.id <= upTo && Sees(filter, e) && w == ToWire(e, isJson);
        assert e in earlier;
      }
      SubsequenceOfOneLength(p.events, q.events);
    }
  }

  ghost predicate IdealHash(hash: string -> string) {
    forall x, y :: hash(x) == hash(y) ==> x == y
  }

  /** Between two states of one journal, equal tags mean equal pages. */
  lemma TagDecidesBody(backendId: string, filter: Filter, isJson: JsonCheck, hash: string -> string,
                       after: EventId, limit: nat,
                       earlier: seq<Event>, top: EventId, later: seq<Event>)
    requires IdealHash(hash)
    requires Ascending(earlier) && Ascending(later) && Evolved(earlier, top, later)
    ensures var p := Page(backendId, filter, isJson, earlier, after, limit);
            var q := Page(backendId, filter, isJson, later, after, limit);
            Quoted(hash(HashInput(p))) == Quoted(hash(HashInput(q))) <==> p == q
  {
    var p := Page(backendId, filter, isJson, earlier, after, limit);
    var q := Page(backendId, filter, isJson, later, after, limit);
    PositionDecidesBody(backendId, filter, isJson, after, limit, earlier, top, later);
    if Quoted(hash(HashInput(p))) == Quoted(hash(HashInput(q))) {
      TagIsInjective(hash, p, q);
      HashInputIsInjective(p, q);
    }
  }

  lemma TagIsInjective(hash: string -> string, p: PullBody, q: PullBody)
    requires IdealHash(hash)
    requires Quoted(hash(HashInput(p))) == Quoted(hash(HashInput(q)))
    ensures HashInput(p) == HashInput(q)
  {
    var x, y := hash(HashInput(p)), hash(HashInput(q));
    assert Quoted(x)[1..|x| + 1] == x && Quoted(y)[1..|y| + 1] == y;
  }

  /** A request answered once with a body is answered by the page of whatever is read later. */
  lemma LaterReply(config: PullConfig, isJson: JsonCheck, hash: string -> string, r: PullRequest,
                   earlier: seq<Event>, later: seq<Event>, condition: Condition)
    requires Reply(config, isJson, hash, r, Some(earlier)).Sent?
    ensures EffectiveLimit(config.limit, r.limit) >= 0
    ensures Reply(config, isJson, hash, r.(condition := condition), Some(later))
         == Answer(hash, condition, Page(config.backendId, FilterFor(config, r.caller), isJson, later,
                                         EffectiveCursor(r.after), EffectiveLimit(config.limit, r.limit)))
  {
  }

  /** A client that revalidates with the tag it was given is answered 304 exactly when the
      body it would be sent is the body it holds. */
  lemma NotModifiedIffUnchanged(
    config: PullConfig, isJson: JsonCheck, hash: string -> string, r: PullRequest,
    earlier: seq<Event>, top: EventId, later: seq<Event>)
    requires IdealHash(hash)
    requires Ascending(earlier) && Ascending(later) && Evolved(earlier, top, later)
    requires r.condition == Unconditional
    requires Reply(config, isJson, hash, r, Some(earlier)).Sent?
    ensures var held := Reply(config, isJson, hash, r, Some(earlier));
            var again := Reply(config, isJson, hash, r.(condition := Tags({held.tag})), Some(later));
            var current := Reply(config, isJson, hash, r, Some(later));
            && current.Sent?
            && (again.NotModified? <==> current.body == held.body)
            && (again.NotModified? || again == current)
  {
    var limit := EffectiveLimit(config.limit, r.limit);
    var filter := FilterFor(config, r.caller);
    var held := Reply(config, isJson, hash, r, Some(earlier));
    LaterReply(config, isJson, hash, r, earlier, earlier, Unconditional);
    LaterReply(config, isJson, hash, r, earlier, later, Unconditional);
    LaterReply(config, isJson, hash, r, earlier, later, Tags({held.tag}));
    assert r.(condition := Unconditional) == r;
    TagDecidesBody(config.backendId, filter, isJson, hash, EffectiveCursor(r.after), limit, earlier, top, later);
  }

  /** The comments and the decision record list (backendId, nextCursor, hasMore) only. Without
      the count the code also hashes, a compacted visible event would go unnoticed. */
  lemma DocumentedTupleIsNotEnough(isJson: JsonCheck)
    ensures exists earlier: seq<Event>, top: EventId, later: seq<Event> ::
              && Ascending(earlier) && Ascending(later) && Evolved(earlier, top, later)
              && var p := Page("", None, isJson, earlier, ZERO, 2);
                 var q := Page("", None, isJson, later, ZERO, 2);
                 p.nextCursor == q.nextCursor && p.hasMore == q.hasMore && p != q
  {
    var a := Event(1, "", "", "", 0, "", "", "", []);
    var b := a.(id := 2);
    var earlier, later := [a, b], [b];
    assert After(later, ZERO) == [b];
    assert After(earlier, ZERO) == [a] + After([b], ZERO) by {
      assert earlier[1..] == [b];
    }
    var p := Page("", None, isJson, earlier, ZERO, 2);
    var q := Page("", None, isJson, later, ZERO, 2);
    assert VisibleWire([b], None, isJson) == [ToWire(b, isJson)];
    assert |p.events| == 2 by {
      assert [a, b][1..] == [b];
    }
    assert Ascending(earlier) && Ascending(later) && Evolved(earlier, 2, later);
    assert p.nextCursor == q.nextCursor && p.hasMore == q.hasMore && p != q;
  }
}

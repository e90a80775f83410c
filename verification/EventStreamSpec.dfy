/** The stream manager and its readers as a step protocol: publishes, readers
    opening, receiving, dropping and resuming, in any order.  The hub keeps the
    unbounded log beside the bounded buffer, so that what readers receive can be
    compared with everything ever published. */
module EventStreamSpec {
  import opened Common
  import opened EventLog

  // ------------------------------------------------------------------ hub

  /** A registered live queue: the session it serves and what it still holds. */
  datatype Subscription = Subscription(sid: string, items: seq<BufferedEvent>)

  /** Manager state.  `log` is history, never consulted by the operations. */
  datatype Hub = Hub(
    maxlen: nat,
    log: seq<Event>,
    seqNo: nat,
    buffer: seq<BufferedEvent>,
    queues: map<nat, Subscription>)

  function EmptyHub(maxlen: nat): Hub {
    Hub(maxlen, [], 0, [], map[])
  }

  /** An event fans out only if it names a non-empty session. */
  predicate FansOutTo(e: Event, sid: string) {
    e.sessionId == Some(sid) && sid != ""
  }

  function Receive(q: Subscription, b: BufferedEvent): Subscription {
    if FansOutTo(b.event, q.sid) then q.(items := q.items + [b]) else q
  }

  function PublishTo(h: Hub, e: Event): Hub {
    var b := BufferedEvent(h.seqNo + 1, e);
    Hub(h.maxlen, h.log + [e], h.seqNo + 1, PushBounded(h.maxlen, h.buffer, b),
        map id | id in h.queues :: Receive(h.queues[id], b))
  }

  function Subscribe(h: Hub, id: nat, sid: string): Hub {
    h.(queues := h.queues[id := Subscription(sid, [])])
  }

  function Unsubscribe(h: Hub, id: nat): Hub {
    h.(queues := h.queues - {id})
  }

  function Replay(h: Hub, cursor: int, sid: string): seq<BufferedEvent> {
    ForSession(AboveCursor(h.buffer, cursor), sid)
  }

  ghost predicate HubInv(h: Hub) {
    && h.seqNo == |h.log|
    && h.buffer == Window(h.log, h.maxlen)
  }

  lemma PublishKeepsHubInv(h: Hub, e: Event)
    requires HubInv(h)
    ensures HubInv(PublishTo(h, e))
  {
    WindowAfterPush(h.log, h.maxlen, e);
  }

  // --------------------------------------------------------------- reader

  /** One reader.  `cursor`, `snapshot` and `replay` are the generator's locals for
      the current connection.  `carried` is what earlier connections delivered,
      `yielded` what this one did.  `origin` is the number above which the first
      connection started, and `gapFree` records that no resume missed anything. */
  datatype Client = Client(
    sid: string,
    cursor: int,
    snapshot: nat,
    replay: seq<BufferedEvent>,
    yielded: seq<BufferedEvent>,
    connected: bool,
    carried: seq<BufferedEvent>,
    origin: int,
    gapFree: bool)

  function Received(c: Client): seq<BufferedEvent> {
    c.carried + c.yielded
  }

  /** The number a reader that drops now resumes from. */
  function ResumePoint(c: Client): int {
    if Received(c) == [] then c.cursor else Last(Received(c)).seqNo
  }

  /** A caller-visible test: the buffer still covers everything above `cursor`. */
  predicate Covered(h: Hub, cursor: int) {
    if h.buffer == [] then h.seqNo <= cursor else h.buffer[0].seqNo <= cursor + 1
  }

  function Connect(h: Hub, sid: string, cursor: int): Client {
    Client(sid, cursor, h.seqNo, Replay(h, cursor, sid), [], true, [], Max(cursor, Evicted(h.seqNo, h.maxlen)), true)
  }

  /** A resume now would miss an event: one that the reader is due has neither been
      received nor is it in the buffer any more. */
  predicate Misses(h: Hub, c: Client) {
    HasBetween(h.log, Max(c.origin, ResumePoint(c)), Evicted(h.seqNo, h.maxlen), c.sid)
  }

  function Reconnect(h: Hub, c: Client): Client {
    var gapFree := c.gapFree && !Misses(h, c);
    Connect(h, c.sid, ResumePoint(c)).(carried := Received(c), origin := c.origin, gapFree := gapFree)
  }

  /** Drop leading items that the generator's loops skip. */
  function SkipAbove(s: seq<BufferedEvent>, snapshot: nat): seq<BufferedEvent> {
    if s != [] && s[0].seqNo > snapshot then SkipAbove(s[1..], snapshot) else s
  }

  function SkipUpTo(s: seq<BufferedEvent>, cursor: int): seq<BufferedEvent> {
    if s != [] && s[0].seqNo <= cursor then SkipUpTo(s[1..], cursor) else s
  }

  /** Resuming the generator once: the next replayed event, else the next live one, else it waits. */
  function Next(q: Subscription, c: Client): (r: (Subscription, Client, Option<BufferedEvent>)) {
    var replay := SkipAbove(c.replay, c.snapshot);
    if replay != [] then
      (q, c.(replay := replay[1..], yielded := c.yielded + [replay[0]]), Some(replay[0]))
    else
      var items := SkipUpTo(q.items, c.cursor);
      if items != [] then
        (q.(items := items[1..]), c.(replay := [], yielded := c.yielded + [items[0]]), Some(items[0]))
      else
        (q.(items := []), c.(replay := []), None)
  }

  /** The hub after reader `id` has taken its next item. */
  function TakeNext(h: Hub, id: nat, c: Client): Hub
    requires id in h.queues
  {
    h.(queues := h.queues[id := Next(h.queues[id], c).0])
  }

  // ---------------------------------------------------------------- world

  datatype World = World(hub: Hub, clients: map<nat, Client>)

  datatype Action =
    | Publish(e: Event)
    | Open(id: nat, sid: string, cursor: int)
    | Deliver(id: nat)
    | Drop(id: nat)
    | Resume(id: nat)

  /** Actions that make no sense in a state (receiving while dropped, say) change nothing. */
  function Step(w: World, a: Action): World {
    match a
    case Publish(e) => w.(hub := PublishTo(w.hub, e))
    case Open(id, sid, cursor) =>
      if id in w.clients || sid == "" then w
      else World(Subscribe(w.hub, id, sid), w.clients[id := Connect(w.hub, sid, cursor)])
    case Deliver(id) =>
      if id !in w.clients || !w.clients[id].connected || id !in w.hub.queues then w
      else
        World(TakeNext(w.hub, id, w.clients[id]), w.clients[id := Next(w.hub.queues[id], w.clients[id]).1])
    case Drop(id) =>
      if id !in w.clients || !w.clients[id].connected then w
      else World(Unsubscribe(w.hub, id), w.clients[id := w.clients[id].(connected := false)])
    case Resume(id) =>
      if id !in w.clients || w.clients[id].connected then w
      else World(Subscribe(w.hub, id, w.clients[id].sid), w.clients[id := Reconnect(w.hub, w.clients[id])])
  }

  function Run(w: World, actions: seq<Action>): World
    decreases |actions|
  {
    if actions == [] then w else Run(Step(w, actions[0]), actions[1..])
  }

  // ------------------------------------------------------------ invariant

  /** What the connection still owes the reader: the rest of the replay, then the
      live queue without what the cursor excludes. */
  function Pending(h: Hub, id: nat, c: Client): seq<BufferedEvent> {
    c.replay + (if id in h.queues then AboveCursor(h.queues[id].items, c.cursor) else [])
  }

  /** The number above which the current connection started. */
  function Floor(h: Hub, c: Client): int {
    Max(c.cursor, Evicted(c.snapshot, h.maxlen))
  }

  /** The current connection: what was yielded and what is still owed make up exactly
      what the session is due above the floor. */
  ghost predicate OnTrack(h: Hub, id: nat, c: Client) {
    && c.sid != ""
    && c.snapshot <= |h.log|
    && (id in h.queues <==> c.connected)
    && (forall i :: 0 <= i < |c.replay| ==> c.replay[i].seqNo <= c.snapshot)
    && (c.connected ==> h.queues[id].sid == c.sid
                        && c.yielded + Pending(h, id, c) == Since(h.log, Floor(h, c), c.sid))
    && IsPrefix(c.yielded, Since(h.log, Floor(h, c), c.sid))
  }

  /** Everything the reader was due before this connection's floor was received earlier. */
  ghost predicate NothingMissed(h: Hub, c: Client) {
    forall x :: IsDue(h.log, c.origin, c.sid, x) && x.seqNo <= Floor(h, c) ==> x in c.carried
  }

  /** Earlier connections delivered, in order, events the reader was due below this
      connection's floor; all of them exactly if no resume missed anything. */
  ghost predicate Joined(h: Hub, c: Client) {
    && c.origin <= Floor(h, c) <= Max(c.origin, |h.log|)
    && (c.carried != [] ==> c.cursor == Last(c.carried).seqNo)
    && Increasing(c.carried)
    && (forall x :: x in c.carried ==> IsDue(h.log, c.origin, c.sid, x) && x.seqNo <= Floor(h, c))
    && (c.gapFree <==> NothingMissed(h, c))
  }

  ghost predicate ClientInv(h: Hub, id: nat, c: Client) {
    OnTrack(h, id, c) && Joined(h, c)
  }

  ghost predicate Inv(w: World) {
    && HubInv(w.hub)
    && (forall id :: id in w.hub.queues ==> id in w.clients)
    && (forall id :: id in w.clients ==> ClientInv(w.hub, id, w.clients[id]))
  }

  // ------------------------------------------------- one lemma per action

  lemma PendingAfterPublish(h: Hub, e: Event, id: nat, c: Client)
    requires id in h.queues && h.queues[id].sid == c.sid != ""
    ensures var b := BufferedEvent(h.seqNo + 1, e);
            Pending(PublishTo(h, e), id, c) ==
            Pending(h, id, c) + (if b.seqNo > c.cursor && e.sessionId == Some(c.sid) then [b] else [])
  {
  }

  /** What a session is due only grows at the end. */
  lemma SinceGrows(log: seq<Event>, e: Event, cursor: int, sid: string)
    ensures Since(log, cursor, sid) <= Since(log + [e], cursor, sid)
    ensures forall p :: IsPrefix(p, Since(log, cursor, sid)) ==> IsPrefix(p, Since(log + [e], cursor, sid))
  {
    SinceAfterPublish(log, e, cursor, sid);
    forall p | IsPrefix(p, Since(log, cursor, sid)) ensures IsPrefix(p, Since(log + [e], cursor, sid)) {
      assert Since(log + [e], cursor, sid)[..|p|] == Since(log, cursor, sid)[..|p|];
    }
  }

  lemma {:induction false} BothGrow(yielded: seq<BufferedEvent>, pending: seq<BufferedEvent>, due: seq<BufferedEvent>,
                                    more: seq<BufferedEvent>)
    requires yielded + pending == due
    ensures yielded + (pending + more) == due + more
  {
    assert yielded + (pending + more) == yielded + pending + more;
  }

  /** Publishing extends what the session is due and what the reader is still owed, alike. */
  lemma {:induction false} PublishExtendsBoth(h: Hub, e: Event, id: nat, c: Client)
    requires HubInv(h) && OnTrack(h, id, c) && c.connected
    ensures c.yielded + Pending(PublishTo(h, e), id, c) == Since(h.log + [e], Floor(h, c), c.sid)
  {
    var b := BufferedEvent(h.seqNo + 1, e);
    SinceAfterPublish(h.log, e, Floor(h, c), c.sid);
    PendingAfterPublish(h, e, id, c);
    BothGrow(c.yielded, Pending(h, id, c), Since(h.log, Floor(h, c), c.sid),
             if b.seqNo > c.cursor && e.sessionId == Some(c.sid) then [b] else []);
  }

  lemma PublishKeepsTrack(h: Hub, e: Event, id: nat, c: Client)
    requires HubInv(h) && OnTrack(h, id, c)
    ensures OnTrack(PublishTo(h, e), id, c)
  {
    SinceGrows(h.log, e, Floor(h, c), c.sid);
    if c.connected {
      PublishExtendsBoth(h, e, id, c);
    }
  }

  /** A new event is numbered above everything earlier connections were due. */
  lemma PublishKeepsJoined(h: Hub, e: Event, c: Client)
    requires HubInv(h) && Joined(h, c)
    ensures Joined(PublishTo(h, e), c)
  {
    var h' := PublishTo(h, e);
    forall x: BufferedEvent | x.seqNo <= Floor(h, c)
      ensures IsDue(h'.log, c.origin, c.sid, x) <==> IsDue(h.log, c.origin, c.sid, x)
    {
    }
  }

  lemma PublishKeepsClient(h: Hub, e: Event, id: nat, c: Client)
    requires HubInv(h) && ClientInv(h, id, c)
    ensures ClientInv(PublishTo(h, e), id, c)
  {
    PublishKeepsTrack(h, e, id, c);
    PublishKeepsJoined(h, e, c);
  }

  /** What a new connection replays is everything the session is due above its floor. */
  lemma ConnectStartsComplete(h: Hub, sid: string, cursor: int)
    requires HubInv(h)
    ensures Replay(h, cursor, sid) == Since(h.log, Max(cursor, Evicted(h.seqNo, h.maxlen)), sid)
    ensures forall i :: 0 <= i < |Replay(h, cursor, sid)| ==> Replay(h, cursor, sid)[i].seqNo <= h.seqNo
  {
    ReplayIsSuffix(h.log, h.maxlen, cursor);
    var floor := Max(cursor, Evicted(h.seqNo, h.maxlen));
    forall i | 0 <= i < |Replay(h, cursor, sid)| ensures Replay(h, cursor, sid)[i].seqNo <= h.seqNo {
      SinceExact(h.log, floor, sid, Replay(h, cursor, sid)[i]);
    }
  }

  /** The caller-visible coverage test says the eviction horizon has not passed the cursor. */
  lemma CoveredMeansNotEvicted(h: Hub, cursor: int)
    requires HubInv(h)
    ensures Covered(h, cursor) <==> Evicted(h.seqNo, h.maxlen) <= cursor
  {
  }

  lemma {:induction false} SkipUpToKeeps(s: seq<BufferedEvent>, cursor: int)
    ensures AboveCursor(SkipUpTo(s, cursor), cursor) == AboveCursor(s, cursor)
    ensures SkipUpTo(s, cursor) != [] ==> SkipUpTo(s, cursor)[0].seqNo > cursor
  {
    if s != [] && s[0].seqNo <= cursor {
      SkipUpToKeeps(s[1..], cursor);
      assert s == [s[0]] + s[1..];
      assert [s[0]][..0] == [];
      AboveCursorAppend([s[0]], s[1..], cursor);
    }
  }

  /** Taking the first admitted item off a queue takes off the first item it owes. */
  lemma TakeOwed(items: seq<BufferedEvent>, cursor: int)
    ensures var owed, rest := AboveCursor(items, cursor), SkipUpTo(items, cursor);
            if rest == [] then owed == []
            else owed == [rest[0]] + AboveCursor(rest[1..], cursor)
  {
    SkipUpToKeeps(items, cursor);
    var rest := SkipUpTo(items, cursor);
    if rest != [] {
      assert rest == [rest[0]] + rest[1..];
      AboveCursorAppend([rest[0]], rest[1..], cursor);
      AboveCursorOneMore([], rest[0], cursor);
      assert [] + [rest[0]] == [rest[0]];
    }
  }

  /** What the reader is owed, given its queue. */
  function OwedFrom(q: Subscription, c: Client): seq<BufferedEvent> {
    c.replay + AboveCursor(q.items, c.cursor)
  }

  /** Resuming the generator yields exactly the first thing the reader is owed, and
      waits only when nothing is owed. */
  lemma {:induction false} NextYieldsHead(q: Subscription, c: Client)
    requires forall i :: 0 <= i < |c.replay| ==> c.replay[i].seqNo <= c.snapshot
    ensures var (q', c', got) := Next(q, c);
            var owed := OwedFrom(q, c);
            && q'.sid == q.sid
            && (forall i :: 0 <= i < |c'.replay| ==> c'.replay[i].seqNo <= c.snapshot)
            && got == (if owed == [] then None else Some(owed[0]))
            && OwedFrom(q', c') == (if owed == [] then [] else owed[1..])
            && c' == c.(replay := c'.replay, yielded := if owed == [] then c.yielded else c.yielded + [owed[0]])
  {
    if c.replay == [] {
      TakeOwed(q.items, c.cursor);
    } else {
      assert SkipAbove(c.replay, c.snapshot) == c.replay;
    }
  }

  /** The head of what is owed is the next thing due. */
  lemma MoveHead(yielded: seq<BufferedEvent>, owed: seq<BufferedEvent>, due: seq<BufferedEvent>)
    requires yielded + owed == due && owed != []
    ensures yielded + [owed[0]] + owed[1..] == due && IsPrefix(yielded + [owed[0]], due)
  {
    assert yielded + owed == yielded + [owed[0]] + owed[1..];
  }

  /** Moving the head of what is owed to what was yielded keeps the connection on track. */
  lemma YieldKeepsTrack(h: Hub, id: nat, c: Client, q': Subscription, c': Client)
    requires OnTrack(h, id, c) && c.connected && q'.sid == c.sid
    requires forall i :: 0 <= i < |c'.replay| ==> c'.replay[i].seqNo <= c.snapshot
    requires var owed := OwedFrom(h.queues[id], c);
             && OwedFrom(q', c') == (if owed == [] then [] else owed[1..])
             && c' == c.(replay := c'.replay, yielded := if owed == [] then c.yielded else c.yielded + [owed[0]])
    ensures OnTrack(h.(queues := h.queues[id := q']), id, c')
  {
    var owed := OwedFrom(h.queues[id], c);
    if owed != [] {
      MoveHead(c.yielded, owed, Since(h.log, Floor(h, c), c.sid));
    }
  }

  /** What earlier connections left is not touched by deliveries, drops and other readers. */
  lemma SameJoined(h: Hub, h': Hub, c: Client, c': Client)
    requires Joined(h, c) && h'.log == h.log && h'.maxlen == h.maxlen
    requires c' == c.(replay := c'.replay, yielded := c'.yielded, connected := c'.connected)
    ensures Joined(h', c')
  {
  }

  lemma DeliverKeepsClient(h: Hub, id: nat, c: Client)
    requires ClientInv(h, id, c) && c.connected
    ensures ClientInv(TakeNext(h, id, c), id, Next(h.queues[id], c).1)
  {
    NextYieldsHead(h.queues[id], c);
    var r := Next(h.queues[id], c);
    YieldKeepsTrack(h, id, c, r.0, r.1);
    SameJoined(h, TakeNext(h, id, c), c, r.1);
  }

  /** `p` holds exactly what is due above `floor` up to `point`. */
  ghost predicate HoldsDue(log: seq<Event>, floor: int, point: int, sid: string, p: seq<BufferedEvent>) {
    forall x :: x in p <==> IsDue(log, floor, sid, x) && x.seqNo <= point
  }

  lemma PrefixHoldsDue(log: seq<Event>, floor: int, point: int, sid: string, p: seq<BufferedEvent>)
    requires IsPrefix(p, Since(log, floor, sid))
    requires if p == [] then point <= floor else point == Last(p).seqNo
    ensures Increasing(p) && HoldsDue(log, floor, point, sid, p)
  {
    var due := Since(log, floor, sid);
    SinceIncreasing(log, floor, sid);
    assert forall i :: 0 <= i < |p| ==> p[i] == due[..|p|][i];
    if p != [] {
      forall x ensures x in p <==> IsDue(log, floor, sid, x) && x.seqNo <= point {
        PrefixExact(log, floor, sid, p, x);
      }
    }
  }

  /** This connection yielded exactly what was due from its floor to the resume point. */
  lemma YieldedExact(h: Hub, id: nat, c: Client)
    requires ClientInv(h, id, c)
    ensures Increasing(c.yielded) && HoldsDue(h.log, Floor(h, c), ResumePoint(c), c.sid, c.yielded)
  {
    PrefixHoldsDue(h.log, Floor(h, c), ResumePoint(c), c.sid, c.yielded);
  }

  /** Two increasing stretches, the first up to `m`, the second above it. */
  lemma IncreasingJoin(a: seq<BufferedEvent>, b: seq<BufferedEvent>, m: int)
    requires Increasing(a) && Increasing(b)
    requires forall x :: x in a ==> x.seqNo <= m
    requires forall x :: x in b ==> x.seqNo > m
    ensures Increasing(a + b)
  {
    forall i, j | 0 <= i < j < |a + b| ensures (a + b)[i].seqNo < (a + b)[j].seqNo {
      if i < |a| <= j {
        assert a[i] in a && b[j - |a|] in b;
      }
    }
  }

  /** The carried events and what is due above the floor are all the reader was ever due,
      exactly if nothing was missed. */
  lemma CarriedAndRest(h: Hub, c: Client)
    requires Joined(h, c)
    ensures c.carried + Since(h.log, Floor(h, c), c.sid) == Since(h.log, c.origin, c.sid) <==> c.gapFree
  {
    var rest, all := Since(h.log, Floor(h, c), c.sid), Since(h.log, c.origin, c.sid);
    forall x ensures x in rest <==> IsDue(h.log, Floor(h, c), c.sid, x) {
      SinceExact(h.log, Floor(h, c), c.sid, x);
    }
    forall x ensures x in all <==> IsDue(h.log, c.origin, c.sid, x) {
      SinceExact(h.log, c.origin, c.sid, x);
    }
    if c.gapFree {
      SinceIncreasing(h.log, Floor(h, c), c.sid);
      SinceIncreasing(h.log, c.origin, c.sid);
      IncreasingJoin(c.carried, rest, Floor(h, c));
      IncreasingUnique(c.carried + rest, all);
    } else {
      var x :| IsDue(h.log, c.origin, c.sid, x) && x.seqNo <= Floor(h, c) && x !in c.carried;
      assert x in all && x !in c.carried + rest;
    }
  }

  /** What a reader received is always in order and due. */
  lemma ReceivedInOrder(h: Hub, c: Client)
    requires Joined(h, c) && Increasing(c.yielded)
    requires HoldsDue(h.log, Floor(h, c), ResumePoint(c), c.sid, c.yielded)
    ensures Increasing(Received(c))
    ensures forall x :: x in Received(c) ==> IsDue(h.log, c.origin, c.sid, x) && x.seqNo <= ResumePoint(c)
  {
    IncreasingJoin(c.carried, c.yielded, Floor(h, c));
    forall x | x in Received(c) ensures x.seqNo <= ResumePoint(c) {
      LastIsGreatest(Received(c), x);
    }
  }

  lemma PrefixOfWhole(p: seq<BufferedEvent>, q: seq<BufferedEvent>, rest: seq<BufferedEvent>)
    requires IsPrefix(q, rest)
    ensures IsPrefix(p + q, p + rest)
  {
    assert (p + rest)[..|p + q|] == p + rest[..|q|];
  }

  /** It is a prefix of all the reader is due if nothing was missed, and complete up to
      what is pending only then. */
  lemma {:induction false} ReceivedIsPrefix(h: Hub, id: nat, c: Client)
    requires ClientInv(h, id, c)
    ensures c.gapFree ==> IsPrefix(Received(c), Since(h.log, c.origin, c.sid))
    ensures c.connected ==> (Received(c) + Pending(h, id, c) == Since(h.log, c.origin, c.sid) <==> c.gapFree)
  {
    CarriedAndRest(h, c);
    PrefixOfWhole(c.carried, c.yielded, Since(h.log, Floor(h, c), c.sid));
    assert Received(c) + Pending(h, id, c) == c.carried + (c.yielded + Pending(h, id, c));
  }

  /** Without misses, everything due up to the horizon was received. */
  lemma ReceivedUpTo(h: Hub, c: Client, x: BufferedEvent)
    requires Joined(h, c) && c.gapFree && !Misses(h, c)
    requires HoldsDue(h.log, Floor(h, c), ResumePoint(c), c.sid, c.yielded)
    requires IsDue(h.log, c.origin, c.sid, x) && x.seqNo <= Max(ResumePoint(c), Evicted(h.seqNo, h.maxlen))
    ensures x in Received(c)
  {
    assert h.log[x.seqNo - 1].sessionId == Some(c.sid);
    if x.seqNo > Floor(h, c) && x.seqNo > ResumePoint(c) {
      assert false;
    }
  }

  /** A missed event is due, behind the horizon, and was not received. */
  lemma MissedIsDue(h: Hub, c: Client) returns (x: BufferedEvent)
    requires Misses(h, c)
    requires forall x :: x in Received(c) ==> x.seqNo <= ResumePoint(c)
    ensures IsDue(h.log, c.origin, c.sid, x) && x.seqNo <= Evicted(h.seqNo, h.maxlen) && x !in Received(c)
  {
    var i :| 0 <= i < |h.log| && Max(c.origin, ResumePoint(c)) < i + 1 <= Evicted(h.seqNo, h.maxlen)
        && h.log[i].sessionId == Some(c.sid);
    x := BufferedEvent(i + 1, h.log[i]);
  }

  /** What was missed before stays missed. */
  lemma MissedStaysMissed(h: Hub, c: Client) returns (x: BufferedEvent)
    requires Joined(h, c) && !c.gapFree
    requires HoldsDue(h.log, Floor(h, c), ResumePoint(c), c.sid, c.yielded)
    ensures IsDue(h.log, c.origin, c.sid, x) && x.seqNo <= Floor(h, c) && x !in Received(c)
  {
    x :| IsDue(h.log, c.origin, c.sid, x) && x.seqNo <= Floor(h, c) && x !in c.carried;
  }

  lemma FloorOfReconnect(h: Hub, c: Client)
    ensures Floor(h, Reconnect(h, c)) == Max(ResumePoint(c), Evicted(h.seqNo, h.maxlen))
  {
  }

  /** A reader resumes no lower than it asked for, and from nothing it could not have seen. */
  lemma {:induction false} ResumePointBounds(h: Hub, c: Client)
    requires Joined(h, c)
    requires HoldsDue(h.log, Floor(h, c), ResumePoint(c), c.sid, c.yielded)
    ensures c.cursor <= ResumePoint(c) <= Max(c.origin, |h.log|)
  {
    if c.yielded != [] {
      assert Last(c.yielded) in c.yielded;
      assert ResumePoint(c) == Last(c.yielded).seqNo;
    } else if c.carried != [] {
      assert ResumePoint(c) == Last(c.carried).seqNo;
    } else {
      assert ResumePoint(c) == c.cursor;
    }
  }

  /** The next connection starts no lower than this one did. */
  lemma {:induction false} FloorRises(h: Hub, c: Client)
    requires HubInv(h) && Joined(h, c) && c.snapshot <= |h.log|
    requires HoldsDue(h.log, Floor(h, c), ResumePoint(c), c.sid, c.yielded)
    ensures Floor(h, Reconnect(h, c)) == Max(ResumePoint(c), Evicted(h.seqNo, h.maxlen))
    ensures Floor(h, c) <= Floor(h, Reconnect(h, c)) <= Max(c.origin, |h.log|)
  {
    FloorOfReconnect(h, c);
    ResumePointBounds(h, c);
  }

  /** After a resume something is missing exactly if something was before, or the resume
      misses it. */
  lemma MissedAfterResume(h: Hub, c: Client)
    requires Joined(h, c)
    requires HoldsDue(h.log, Floor(h, c), ResumePoint(c), c.sid, c.yielded)
    requires forall x :: x in Received(c) ==> x.seqNo <= ResumePoint(c)
    requires Floor(h, c) <= Floor(h, Reconnect(h, c)) == Max(ResumePoint(c), Evicted(h.seqNo, h.maxlen))
    ensures NothingMissed(h, Reconnect(h, c)) <==> c.gapFree && !Misses(h, c)
  {
    if c.gapFree && !Misses(h, c) {
      forall x | IsDue(h.log, c.origin, c.sid, x) && x.seqNo <= Floor(h, Reconnect(h, c)) ensures x in Received(c) {
        ReceivedUpTo(h, c, x);
      }
    } else if c.gapFree {
      var x := MissedIsDue(h, c);
    } else {
      var x := MissedStaysMissed(h, c);
    }
  }

  lemma ResumeKeepsJoined(h: Hub, id: nat, c: Client)
    requires HubInv(h) && ClientInv(h, id, c)
    ensures Joined(h, Reconnect(h, c))
  {
    YieldedExact(h, id, c);
    ReceivedInOrder(h, c);
    FloorRises(h, c);
    MissedAfterResume(h, c);
  }

  lemma {:induction false} ConnectIsOnTrack(h: Hub, id: nat, sid: string, cursor: int)
    requires HubInv(h) && sid != ""
    ensures OnTrack(Subscribe(h, id, sid), id, Connect(h, sid, cursor))
  {
    ConnectStartsComplete(h, sid, cursor);
    assert AboveCursor([], cursor) == [];
  }

  lemma {:induction false} ConnectIsJoined(h: Hub, h': Hub, sid: string, cursor: int)
    requires HubInv(h) && h'.log == h.log && h'.maxlen == h.maxlen
    ensures Joined(h', Connect(h, sid, cursor))
  {
  }

  lemma {:induction false} ConnectKeepsClient(h: Hub, id: nat, sid: string, cursor: int)
    requires HubInv(h) && sid != ""
    ensures ClientInv(Subscribe(h, id, sid), id, Connect(h, sid, cursor))
  {
    ConnectIsOnTrack(h, id, sid, cursor);
    ConnectIsJoined(h, Subscribe(h, id, sid), sid, cursor);
  }

  /** Whether a connection is on track has nothing to do with earlier ones. */
  lemma SameTrack(h: Hub, id: nat, c: Client, c': Client)
    requires OnTrack(h, id, c) && c' == c.(carried := c'.carried, origin := c'.origin, gapFree := c'.gapFree)
    ensures OnTrack(h, id, c')
  {
  }

  /** Resuming re-reads from the buffer whatever the dropped queue still held. */
  lemma ResumeKeepsClient(h: Hub, id: nat, c: Client)
    requires HubInv(h) && ClientInv(h, id, c) && !c.connected
    ensures ClientInv(Subscribe(h, id, c.sid), id, Reconnect(h, c))
  {
    var h', c' := Subscribe(h, id, c.sid), Reconnect(h, c);
    ConnectKeepsClient(h, id, c.sid, ResumePoint(c));
    SameTrack(h', id, Connect(h, c.sid, ResumePoint(c)), c');
    ResumeKeepsJoined(h, id, c);
    SameJoined(h, h', c', c');
  }

  lemma DropKeepsClient(h: Hub, id: nat, c: Client)
    requires ClientInv(h, id, c)
    ensures ClientInv(Unsubscribe(h, id), id, c.(connected := false))
  {
  }

  /** A client's invariant depends on the hub only through the log and its own queue. */
  lemma OtherQueuesDoNotMatter(h: Hub, h': Hub, id: nat, c: Client)
    requires ClientInv(h, id, c)
    requires h'.log == h.log && h'.maxlen == h.maxlen
    requires id in h'.queues <==> id in h.queues
    requires id in h.queues ==> h'.queues[id] == h.queues[id]
    ensures ClientInv(h', id, c)
  {
  }

  lemma {:induction false} StepKeepsClient(w: World, a: Action, id: nat)
    requires Inv(w) && id in Step(w, a).clients
    ensures ClientInv(Step(w, a).hub, id, Step(w, a).clients[id])
  {
    var h := w.hub;
    if Step(w, a) == w {
    } else if a.Publish? {
      PublishKeepsClient(h, a.e, id, w.clients[id]);
    } else if a.id != id {
      OtherQueuesDoNotMatter(h, Step(w, a).hub, id, w.clients[id]);
    } else {
      match a
      case Open(_, sid, cursor) => ConnectKeepsClient(h, id, sid, cursor);
      case Deliver(_) => DeliverKeepsClient(h, id, w.clients[id]);
      case Drop(_) => DropKeepsClient(h, id, w.clients[id]);
      case Resume(_) => ResumeKeepsClient(h, id, w.clients[id]);
    }
  }

  lemma {:induction false} StepKeepsInv(w: World, a: Action)
    requires Inv(w)
    ensures Inv(Step(w, a)) && Step(w, a).hub.maxlen == w.hub.maxlen
  {
    if a.Publish? {
      PublishKeepsHubInv(w.hub, a.e);
    }
    forall id | id in Step(w, a).clients ensures ClientInv(Step(w, a).hub, id, Step(w, a).clients[id]) {
      StepKeepsClient(w, a, id);
    }
  }

  lemma {:induction false} RunKeepsInv(w: World, actions: seq<Action>)
    requires Inv(w)
    ensures Inv(Run(w, actions))
    ensures Run(w, actions).hub.maxlen == w.hub.maxlen
    decreases |actions|
  {
    if actions != [] {
      StepKeepsInv(w, actions[0]);
      RunKeepsInv(Step(w, actions[0]), actions[1..]);
    }
  }

  // --------------------------------------------------------- main results

  ghost function Start(maxlen: nat): World {
    World(EmptyHub(maxlen), map[])
  }

  /** The buffer is the last `min(maxlen, seqNo)` events, numbered contiguously up to
      `seqNo`, and replaying it gives the log above the cursor and the eviction horizon. */
  ghost predicate ShowsLog(h: Hub, cursor: int) {
    && h.seqNo == |h.log|
    && |h.buffer| == Min(h.maxlen, |h.log|)
    && (forall i :: 0 <= i < |h.buffer| ==>
          var n := |h.log| - |h.buffer| + i + 1;
          h.buffer[i] == BufferedEvent(n, h.log[n - 1]))
    && AboveCursor(h.buffer, cursor) == Suffix(h.log, Max(cursor, Evicted(|h.log|, h.maxlen)))
  }

  lemma {:induction false} HubShowsLog(h: Hub, cursor: int)
    requires HubInv(h)
    ensures ShowsLog(h, cursor)
  {
    WindowIsContiguous(h.log, h.maxlen);
    ReplayIsSuffix(h.log, h.maxlen, cursor);
  }

  /** In every reachable state the ring buffer refines the unbounded log. */
  lemma {:induction false} BufferRefinesLog(maxlen: nat, actions: seq<Action>, cursor: int)
    ensures ShowsLog(Run(Start(maxlen), actions).hub, cursor)
    ensures Run(Start(maxlen), actions).hub.maxlen == maxlen
  {
    RunKeepsInv(Start(maxlen), actions);
    HubShowsLog(Run(Start(maxlen), actions).hub, cursor);
  }

  /** For every interleaving: what a connection has yielded is strictly increasing and
      is a prefix of exactly the session's events above the cursor that were not
      evicted when it opened; what it still owes completes that sequence. */
  lemma {:induction false} StreamIsExact(maxlen: nat, actions: seq<Action>, id: nat)
    requires id in Run(Start(maxlen), actions).clients
    ensures var w := Run(Start(maxlen), actions);
            var c := w.clients[id];
            var due := Since(w.hub.log, Max(c.cursor, Evicted(c.snapshot, maxlen)), c.sid);
            && Increasing(c.yielded)
            && IsPrefix(c.yielded, due)
            && (c.connected ==> c.yielded + Pending(w.hub, id, c) == due)
  {
    RunKeepsInv(Start(maxlen), actions);
    var w := Run(Start(maxlen), actions);
    SinceIncreasing(w.hub.log, Floor(w.hub, w.clients[id]), w.clients[id].sid);
    var c := w.clients[id];
    var due := Since(w.hub.log, Floor(w.hub, c), c.sid);
    assert forall i :: 0 <= i < |c.yielded| ==> c.yielded[i] == due[..|c.yielded|][i];
  }

  /** No resume of reader `id` in the run misses an event. */
  predicate NeverMisses(w: World, actions: seq<Action>, id: nat)
    decreases |actions|
  {
    actions != [] ==>
      && (Resumes(w, actions[0], id) ==> !Misses(w.hub, w.clients[id]))
      && NeverMisses(Step(w, actions[0]), actions[1..], id)
  }

  predicate Resumes(w: World, a: Action, id: nat) {
    a == Resume(id) && id in w.clients && !w.clients[id].connected
  }

  lemma {:induction false} GapFreeIff(w: World, actions: seq<Action>, id: nat)
    requires id in Run(w, actions).clients
    ensures Run(w, actions).clients[id].gapFree <==>
            (id in w.clients ==> w.clients[id].gapFree) && NeverMisses(w, actions, id)
    decreases |actions|
  {
    if actions != [] {
      GapFreeIff(Step(w, actions[0]), actions[1..], id);
      StepAndGaps(w, actions[0], id);
    }
  }

  lemma StepAndGaps(w: World, a: Action, id: nat)
    ensures id in w.clients ==>
              && id in Step(w, a).clients
              && (Step(w, a).clients[id].gapFree <==>
                    w.clients[id].gapFree && (Resumes(w, a, id) ==> !Misses(w.hub, w.clients[id])))
    ensures id !in w.clients && id in Step(w, a).clients ==> Step(w, a).clients[id].gapFree
  {
  }

  /** For every interleaving and any number of drops and resumes, what a reader received
      over all its connections is in order, without repeats, and due to it; together with
      what is pending it is what one connection opened at `origin` would yield exactly
      when no resume missed an event. */
  lemma {:induction false} ResumedStreamIsCompleteIff(maxlen: nat, actions: seq<Action>, id: nat)
    requires id in Run(Start(maxlen), actions).clients
    ensures var w := Run(Start(maxlen), actions);
            var c := w.clients[id];
            var due := Since(w.hub.log, c.origin, c.sid);
            && Increasing(Received(c))
            && (forall x :: x in Received(c) ==> x in due)
            && (c.connected ==> (Received(c) + Pending(w.hub, id, c) == due <==>
                NeverMisses(Start(maxlen), actions, id)))
  {
    RunKeepsInv(Start(maxlen), actions);
    GapFreeIff(Start(maxlen), actions, id);
    var w := Run(Start(maxlen), actions);
    var c := w.clients[id];
    ReceivedIsPrefix(w.hub, id, c);
    YieldedExact(w.hub, id, c);
    ReceivedInOrder(w.hub, c);
    forall x | x in Received(c) ensures x in Since(w.hub.log, c.origin, c.sid) {
      SinceExact(w.hub.log, c.origin, c.sid, x);
    }
  }

  /** So as long as no resume missed anything, everything received, over all connections
      and also while dropped, is a prefix of what the uninterrupted stream yields. */
  lemma {:induction false} ResumedStreamIsUninterrupted(maxlen: nat, actions: seq<Action>, id: nat)
    requires id in Run(Start(maxlen), actions).clients
    requires NeverMisses(Start(maxlen), actions, id)
    ensures var w := Run(Start(maxlen), actions);
            var c := w.clients[id];
            IsPrefix(Received(c), Since(w.hub.log, c.origin, c.sid))
  {
    RunKeepsInv(Start(maxlen), actions);
    GapFreeIff(Start(maxlen), actions, id);
    var w := Run(Start(maxlen), actions);
    ReceivedIsPrefix(w.hub, id, w.clients[id]);
  }

  /** Each resume of reader `id` in the run finds its cursor covered by the buffer. */
  predicate AlwaysCovered(w: World, actions: seq<Action>, id: nat)
    decreases |actions|
  {
    actions != [] ==>
      && (Resumes(w, actions[0], id) ==> Covered(w.hub, ResumePoint(w.clients[id])))
      && AlwaysCovered(Step(w, actions[0]), actions[1..], id)
  }

  lemma {:induction false} CoveredMissesNothing(h: Hub, c: Client)
    requires HubInv(h) && Covered(h, ResumePoint(c))
    ensures !Misses(h, c)
  {
    CoveredMeansNotEvicted(h, ResumePoint(c));
  }

  /** For that, it is enough that the oldest buffered number is at most the cursor plus
      one at each resume. */
  lemma {:induction false} CoveredResumesSuffice(w: World, actions: seq<Action>, id: nat)
    requires Inv(w) && AlwaysCovered(w, actions, id)
    ensures NeverMisses(w, actions, id)
    decreases |actions|
  {
    if actions != [] {
      StepKeepsInv(w, actions[0]);
      if Resumes(w, actions[0], id) {
        CoveredMissesNothing(w.hub, w.clients[id]);
      }
      CoveredResumesSuffice(Step(w, actions[0]), actions[1..], id);
    }
  }

  /** Two readers that started from the same place agree, however often either dropped:
      one has received a prefix of what the other has. */
  lemma {:induction false} ReadersAgree(maxlen: nat, actions: seq<Action>, a: nat, b: nat)
    requires var cs := Run(Start(maxlen), actions).clients;
             && a in cs && b in cs
             && NeverMisses(Start(maxlen), actions, a) && NeverMisses(Start(maxlen), actions, b)
             && cs[a].sid == cs[b].sid && cs[a].origin == cs[b].origin
             && |Received(cs[a])| <= |Received(cs[b])|
    ensures var cs := Run(Start(maxlen), actions).clients;
            IsPrefix(Received(cs[a]), Received(cs[b]))
  {
    ResumedStreamIsUninterrupted(maxlen, actions, a);
    ResumedStreamIsUninterrupted(maxlen, actions, b);
    var w := Run(Start(maxlen), actions);
    var (p, q) := (Received(w.clients[a]), Received(w.clients[b]));
    var due := Since(w.hub.log, w.clients[a].origin, w.clients[a].sid);
    assert p == due[..|p|] && q == due[..|q|];
    assert q[..|p|] == due[..|p|];
  }

  /** A resume is lossless exactly when no event of the session lies above the resume
      point but behind the eviction horizon; coverage of the cursor is enough for that. */
  lemma ResumeLosslessIff(h: Hub, c: Client)
    requires HubInv(h)
    ensures Replay(h, ResumePoint(c), c.sid) == Since(h.log, ResumePoint(c), c.sid) <==>
            !HasBetween(h.log, ResumePoint(c), Evicted(h.seqNo, h.maxlen), c.sid)
    ensures Covered(h, ResumePoint(c)) ==> Replay(h, ResumePoint(c), c.sid) == Since(h.log, ResumePoint(c), c.sid)
  {
    ConnectStartsComplete(h, c.sid, ResumePoint(c));
    NothingLostIff(h.log, ResumePoint(c), Evicted(h.seqNo, h.maxlen), c.sid);
    CoveredMeansNotEvicted(h, ResumePoint(c));
  }

  /** The restriction to non-empty session ids is needed: events of the empty session
      are buffered, and replayed, but never reach a live queue. */
  lemma EmptySessionIsNeverLive(h: Hub, e: Event, id: nat)
    requires HubInv(h) && id in h.queues && h.queues[id].sid == "" && e.sessionId == Some("") && h.maxlen > 0
    ensures PublishTo(h, e).queues[id] == h.queues[id]
    ensures Replay(PublishTo(h, e), h.seqNo, "") == [BufferedEvent(h.seqNo + 1, e)]
  {
    PublishKeepsHubInv(h, e);
    ReplayOfNewest(PublishTo(h, e), h.log, e, "");
  }

  /** Exactly so: an event of the reader's session reaches it live, keeping it complete, if
      and only if the session is not the empty one. */
  lemma {:induction false} LiveIffSessionNotEmpty(h: Hub, e: Event, id: nat, c: Client)
    requires HubInv(h) && id in h.queues && h.queues[id].sid == c.sid && e.sessionId == Some(c.sid)
    requires Floor(h, c) <= h.seqNo && c.yielded + Pending(h, id, c) == Since(h.log, Floor(h, c), c.sid)
    ensures c.yielded + Pending(PublishTo(h, e), id, c) == Since(h.log + [e], Floor(h, c), c.sid) <==> c.sid != ""
  {
    var b := BufferedEvent(h.seqNo + 1, e);
    var due := Since(h.log, Floor(h, c), c.sid);
    SinceAfterPublish(h.log, e, Floor(h, c), c.sid);
    if c.sid != "" {
      PendingAfterPublish(h, e, id, c);
      BothGrow(c.yielded, Pending(h, id, c), due, [b]);
    } else {
      assert Pending(PublishTo(h, e), id, c) == Pending(h, id, c);
      assert |due + [b]| > |due|;
    }
  }

  lemma ReplayOfNewest(h: Hub, log: seq<Event>, e: Event, sid: string)
    requires HubInv(h) && h.log == log + [e] && h.maxlen > 0 && e.sessionId == Some(sid)
    ensures Replay(h, |log|, sid) == [BufferedEvent(|log| + 1, e)]
  {
    ConnectStartsComplete(h, sid, |log|);
    SinceAfterPublish(log, e, |log|, sid);
    assert Suffix(log, |log|) == [];
  }
}

/** The stream manager and its per-reader generator as mutable objects, each
    operation proved to perform the corresponding hub or reader transition. */
module EventStream {
  import opened Common
  import opened EventLog
  import Spec = EventStreamSpec
  import EventBus

  /** A subscriber's unbounded FIFO queue. */
  class LiveQueue {
    ghost const id: nat
    ghost const sid: string
    var items: seq<BufferedEvent>

    constructor (ghost id: nat, ghost sid: string)
      ensures this.id == id && this.sid == sid && items == []
    {
      this.id, this.sid := id, sid;
      items := [];
    }

    method PutNowait(b: BufferedEvent)
      modifies this
      ensures items == old(items) + [b]
    {
      items := items + [b];
    }
  }

  /** The dictionary of queue lists holds exactly the registered queues, each once,
      under its own session, and no empty list. */
  ghost predicate Filed(queues: map<string, seq<LiveQueue>>, registry: map<nat, LiveQueue>) {
    && (forall id :: id in registry ==> registry[id].id == id && Listed(queues, registry[id]))
    && (forall sid :: sid in queues ==> queues[sid] != [] && Distinct(queues[sid]))
    && (forall sid, q :: sid in queues && q in queues[sid] ==> q.sid == sid && q.id in registry && registry[q.id] == q)
  }

  ghost predicate Listed(queues: map<string, seq<LiveQueue>>, q: LiveQueue) {
    q.sid in queues && q in queues[q.sid]
  }

  lemma RegisteredIsListed(queues: map<string, seq<LiveQueue>>, registry: map<nat, LiveQueue>, q: LiveQueue)
    requires Filed(queues, registry) && q.id in registry && registry[q.id] == q
    ensures Listed(queues, q)
  {
  }

  /** The registered queues hold what the hub's subscriptions hold. */
  ghost predicate Holds(registry: map<nat, LiveQueue>, subs: map<nat, Spec.Subscription>)
    reads registry.Values
  {
    && subs.Keys == registry.Keys
    && forall id :: id in registry ==> subs[id] == Spec.Subscription(registry[id].sid, registry[id].items)
  }

  lemma HoldsAdd(registry: map<nat, LiveQueue>, subs: map<nat, Spec.Subscription>, q: LiveQueue)
    requires Holds(registry, subs) && q.id !in registry && q.items == []
    ensures Holds(registry[q.id := q], subs[q.id := Spec.Subscription(q.sid, [])])
  {
  }

  lemma {:induction false} FiledAdd(queues: map<string, seq<LiveQueue>>, registry: map<nat, LiveQueue>, q: LiveQueue)
    requires Filed(queues, registry) && q.id !in registry
    ensures Filed(queues[q.sid := (if q.sid in queues then queues[q.sid] else []) + [q]], registry[q.id := q])
  {
  }

  lemma {:induction false} FiledRemove(queues: map<string, seq<LiveQueue>>, registry: map<nat, LiveQueue>, sid: string,
                                       i: nat)
    requires Filed(queues, registry) && sid in queues && i < |queues[sid]|
    ensures var qs := queues[sid];
            var left := qs[..i] + qs[i + 1..];
            Filed(if left == [] then queues - {sid} else queues[sid := left], registry - {qs[i].id})
  {
    var qs := queues[sid];
    var left := qs[..i] + qs[i + 1..];
    Without(qs, i);
    var queues' := if left == [] then queues - {sid} else queues[sid := left];
    var registry' := registry - {qs[i].id};
    forall id | id in registry' ensures registry'[id].id == id && Listed(queues', registry'[id]) {
      assert Listed(queues, registry[id]);
    }
    forall s, q: LiveQueue | s in queues' && q in queues'[s]
      ensures q.sid == s && q.id in registry' && registry'[q.id] == q
    {
      assert q in queues[s];
    }
  }

  lemma Without(qs: seq<LiveQueue>, i: nat)
    requires i < |qs| && Distinct(qs)
    ensures Distinct(qs[..i] + qs[i + 1..])
    ensures forall k :: k in qs[..i] + qs[i + 1..] <==> k in qs && k != qs[i]
  {
  }

  class EventStreamManager {
    const bus: EventBus.EventBus
    const handler: EventBus.Handler
    const maxlen: nat
    var seqNo: nat
    var buffer: seq<BufferedEvent>
    var listening: bool
    var queues: map<string, seq<LiveQueue>>

    ghost var hub: Spec.Hub
    ghost var registry: map<nat, LiveQueue>

    /** The fields represent `hub`; its log is everything ever published here. */
    ghost predicate Valid()
      reads this, registry.Values
    {
      && hub == Spec.Hub(maxlen, hub.log, seqNo, buffer, hub.queues)
      && Filed(queues, registry)
      && Holds(registry, hub.queues)
    }

    ghost predicate Registered(q: LiveQueue)
      reads this
    {
      q.id in registry && registry[q.id] == q
    }

    constructor (bus: EventBus.EventBus, handler: EventBus.Handler, maxlen: nat)
      ensures Valid() && hub == Spec.EmptyHub(maxlen) && !listening
      ensures this.bus == bus && this.handler == handler && registry == map[]
    {
      this.bus, this.handler, this.maxlen := bus, handler, maxlen;
      seqNo, buffer, listening, queues := 0, [], false, map[];
      hub, registry := Spec.EmptyHub(maxlen), map[];
    }

    /** Subscribes on the first call only. */
    method Start()
      modifies this`listening, bus
      ensures listening
      ensures bus.globals == if old(listening) then old(bus.globals) else old(bus.globals) + [handler]
      ensures bus.byTopic == old(bus.byTopic)
    {
      if !listening {
        bus.Subscribe(handler);
        listening := true;
      }
    }

    method BufferEvent(e: Event) returns (n: nat)
      requires Valid()
      modifies this`seqNo, this`buffer, this`hub, registry.Values
      ensures Valid()
      ensures hub == Spec.PublishTo(old(hub), e) && n == hub.seqNo
    {
      seqNo := seqNo + 1;
      var b := BufferedEvent(seqNo, e);
      buffer := PushBounded(maxlen, buffer, b);
      PutAll(b);
      hub := Spec.PublishTo(hub, e);
      n := seqNo;
    }

    /** Hands `b` to every queue of its session. */
    method PutAll(b: BufferedEvent)
      requires Filed(queues, registry)
      modifies registry.Values
      ensures forall id :: id in registry ==>
                Spec.Subscription(registry[id].sid, registry[id].items) ==
                Spec.Receive(Spec.Subscription(registry[id].sid, old(registry[id].items)), b)
    {
      var session := b.event.sessionId;
      if session.Some? && session.value != "" && session.value in queues {
        var qs := queues[session.value];
        forall q | q in qs ensures q in registry.Values {
          assert registry[q.id] == q;
        }
        FanOut(qs, b);
      }
    }

    static method FanOut(qs: seq<LiveQueue>, b: BufferedEvent)
      requires Distinct(qs)
      modifies qs
      ensures forall q :: q in qs ==> q.items == old(q.items) + [b]
    {
      for i := 0 to |qs|
        invariant forall j :: 0 <= j < i ==> qs[j].items == old(qs[j].items) + [b]
        invariant forall j :: i <= j < |qs| ==> qs[j].items == old(qs[j].items)
      {
        qs[i].PutNowait(b);
      }
    }

    /** Buffered events above the cursor, of one session or of all. */
    function Replay(cursor: int, sessionId: Option<string>): seq<BufferedEvent>
      reads this
    {
      var out := AboveCursor(buffer, cursor);
      if sessionId.Some? then ForSession(out, sessionId.value) else out
    }

    method Subscribe(sid: string, ghost id: nat) returns (q: LiveQueue)
      requires Valid() && id !in registry
      modifies this`queues, this`hub, this`registry
      ensures Valid() && fresh(q) && q.id == id && q.sid == sid && registry == old(registry)[id := q]
      ensures hub == Spec.Subscribe(old(hub), id, sid)
    {
      q := new LiveQueue(id, sid);
      HoldsAdd(registry, hub.queues, q);
      hub := Spec.Subscribe(hub, id, sid);
      File(sid, q);
    }

    /** Lists a queue under its session, which gets its first list if it has none. */
    method File(sid: string, q: LiveQueue)
      requires Filed(queues, registry) && q.id !in registry && q.sid == sid
      modifies this`queues, this`registry
      ensures Filed(queues, registry) && registry == old(registry)[q.id := q]
    {
      FiledAdd(queues, registry, q);
      queues := queues[sid := (if sid in queues then queues[sid] else []) + [q]];
      registry := registry[q.id := q];
    }

    /** Removes `q`, and the session's entry with its last queue; otherwise nothing. */
    method Unsubscribe(sid: string, q: LiveQueue)
      requires Valid()
      modifies this`queues, this`hub, this`registry
      ensures Valid()
      ensures if sid in old(queues) && q in old(queues)[sid]
              then registry == old(registry) - {q.id} && hub == Spec.Unsubscribe(old(hub), q.id)
              else registry == old(registry) && hub == old(hub)
    {
      if sid in queues && q in queues[sid] {
        var qs := queues[sid];
        var i :| 0 <= i < |qs| && qs[i] == q;  // `list.remove`: the only occurrence
        var left := qs[..i] + qs[i + 1..];
        FiledRemove(queues, registry, sid, i);
        if left == [] {
          queues := queues - {sid};
        } else {
          queues := queues[sid := left];
        }
        registry := registry - {q.id};
        hub := Spec.Unsubscribe(hub, q.id);
      }
    }
  }

  /** Publishing an event on the bus.  Other handlers do not touch the manager.
      However often the manager was started or registered, on the global list or on
      topics, the event gets exactly one number. */
  method Publish(m: EventStreamManager, e: Event)
    requires m.Valid()
    modifies m`seqNo, m`buffer, m`hub, m.registry.Values
    ensures m.Valid()
    ensures m.hub == if m.handler in m.bus.Matching(e) then Spec.PublishTo(old(m.hub), e) else old(m.hub)
  {
    var ordered := m.bus.SubscribersFor(e);
    for i := 0 to |ordered|
      modifies m`seqNo, m`buffer, m`hub, m.registry.Values
      invariant m.Valid()
      invariant m.hub == if m.handler in ordered[..i] then Spec.PublishTo(old(m.hub), e) else old(m.hub)
    {
      assert ordered[..i + 1] == ordered[..i] + [ordered[i]];
      if ordered[i] == m.handler {
        var _ := m.BufferEvent(e);
      }
    }
    assert ordered[..|ordered|] == ordered;
  }

  /** The suspended body of `stream`: its locals, and where it is in its two loops.
      `yielded` is what it has delivered so far. */
  class Generator {
    const manager: EventStreamManager
    const sid: string
    const cursor: int
    const snapshot: nat
    const queue: LiveQueue
    var replay: seq<BufferedEvent>
    var open: bool
    ghost var client: Spec.Client

    /** The manager is in order and the locals represent `client`. */
    ghost predicate Valid()
      reads this, manager, manager.registry.Values
    {
      manager.Valid() && Represents(manager.registry)
    }

    /** The locals represent `client`, and an open generator's queue is registered. */
    ghost predicate Represents(registry: map<nat, LiveQueue>)
      reads this
    {
      && client == client.(sid := sid, cursor := cursor, snapshot := snapshot, replay := replay, connected := open)
      && queue.sid == sid
      && (open ==> queue.id in registry && registry[queue.id] == queue)
    }

    /** First step of the generator, up to the replay list: one atomic step. */
    constructor (manager: EventStreamManager, sid: string, cursor: int, ghost id: nat)
      requires manager.Valid() && id !in manager.registry
      modifies manager`queues, manager`hub, manager`registry
      ensures Valid() && open && this.manager == manager && queue.id == id && fresh(queue)
      ensures manager.hub == Spec.Subscribe(old(manager.hub), id, sid)
      ensures manager.registry == old(manager.registry)[id := queue]
      ensures this.sid == sid && this.cursor == cursor
      ensures client == Spec.Connect(old(manager.hub), sid, cursor)
    {
      var q := manager.Subscribe(sid, id);
      this.manager, this.sid, this.cursor, this.queue := manager, sid, cursor, q;
      snapshot := manager.seqNo;
      replay := manager.Replay(cursor, Some(sid));
      open := true;
      client := Spec.Connect(manager.hub, sid, cursor);
    }

    /** Runs to the next `yield`, or until it has to wait for the queue. */
    method Next() returns (got: Option<BufferedEvent>)
      requires Valid() && open
      modifies this`replay, this`client, queue, manager`hub
      ensures Valid() && open
      ensures manager.hub == Spec.TakeNext(old(manager.hub), queue.id, old(client))
      ensures (client, got) == (var r := Spec.Next(old(manager.hub).queues[queue.id], old(client)); (r.1, r.2))
    {
      ghost var r := Spec.Next(manager.hub.queues[queue.id], client);
      got := Pull(client);
      Commit(r.0, r.1);
    }

    /** Everything `Valid` says, except that the hub and `client` may lag behind this
        generator's queue and replay list. */
    ghost predicate Lagging()
      reads this, manager, manager.registry.Values
    {
      && manager.hub == Spec.Hub(manager.maxlen, manager.hub.log, manager.seqNo, manager.buffer, manager.hub.queues)
      && Filed(manager.queues, manager.registry)
      && manager.registry.Keys == manager.hub.queues.Keys
      && (forall id :: id in manager.registry && id != queue.id ==>
            manager.hub.queues[id] == Spec.Subscription(manager.registry[id].sid, manager.registry[id].items))
      && manager.Registered(queue) && queue.sid == sid
    }

    ghost method Commit(q: Spec.Subscription, c: Spec.Client)
      requires Lagging() && open
      requires q == Spec.Subscription(queue.sid, queue.items)
      requires c == c.(sid := sid, cursor := cursor, snapshot := snapshot, replay := replay, connected := true)
      modifies this`client, manager`hub
      ensures Valid() && client == c
      ensures manager.hub == old(manager.hub).(queues := old(manager.hub).queues[queue.id := q])
    {
      manager.hub := manager.hub.(queues := manager.hub.queues[queue.id := q]);
      client := c;
    }

    /** The reader remembers what its earlier connections delivered. */
    ghost method Remember(c: Spec.Client)
      requires Valid() && c == client.(carried := c.carried, origin := c.origin, gapFree := c.gapFree)
      modifies this`client
      ensures Valid() && client == c
    {
      client := c;
    }

    /** The two loops, up to the next `yield`. */
    method Pull(ghost c: Spec.Client) returns (got: Option<BufferedEvent>)
      requires c.replay == replay && c.cursor == cursor && c.snapshot == snapshot
      modifies this`replay, queue
      ensures var r := Spec.Next(Spec.Subscription(queue.sid, old(queue.items)), c);
              r.0 == Spec.Subscription(queue.sid, queue.items) && r.1.replay == replay && r.2 == got
    {
      SkipStale();
      if replay != [] {
        got := Some(replay[0]);
        replay := replay[1..];
      } else {
        got := Take();
      }
    }

    /** The replay loop's `if`. */
    method SkipStale()
      modifies this`replay
      ensures replay == Spec.SkipAbove(old(replay), snapshot)
    {
      while replay != [] && replay[0].seqNo > snapshot
        invariant Spec.SkipAbove(replay, snapshot) == Spec.SkipAbove(old(replay), snapshot)
        decreases |replay|
      {
        replay := replay[1..];
      }
    }

    /** The live loop up to its `yield`: takes the first item the cursor admits. */
    method Take() returns (got: Option<BufferedEvent>)
      modifies queue
      ensures var items := Spec.SkipUpTo(old(queue.items), cursor);
              if items == [] then got == None && queue.items == []
              else got == Some(items[0]) && queue.items == items[1..]
    {
      while queue.items != [] && queue.items[0].seqNo <= cursor
        invariant Spec.SkipUpTo(queue.items, cursor) == Spec.SkipUpTo(old(queue.items), cursor)
        decreases |queue.items|
      {
        queue.items := queue.items[1..];
      }
      if queue.items == [] {
        got := None;
      } else {
        got := Some(queue.items[0]);
        queue.items := queue.items[1..];
      }
    }

    /** The generator's `finally`: leaves the manager without this queue. */
    method Close()
      requires Valid() && open
      modifies this`open, this`client, manager`queues, manager`hub, manager`registry
      ensures Valid() && !open
      ensures manager.hub == Spec.Unsubscribe(old(manager.hub), queue.id)
      ensures manager.registry == old(manager.registry) - {queue.id}
      ensures client == old(client).(connected := false)
    {
      RegisteredIsListed(manager.queues, manager.registry, queue);
      open, client := false, client.(connected := false);
      manager.Unsubscribe(sid, queue);
    }
  }
}

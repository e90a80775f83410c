/** Any number of readers on one stream manager: what one of them does never disturbs the
    others, and any schedule of them does what the protocol says. */
module EventReaders {
  import opened Common
  import opened EventLog
  import Spec = EventStreamSpec
  import opened EventStream

  type Registry = map<nat, LiveQueue>

  type Connections = map<nat, Generator>

  type Clients = map<nat, Spec.Client>

  /** Generator `g` is reader `id`'s connection, represents `c`, and is registered under
      its id exactly while open. */
  ghost predicate Connected(manager: EventStreamManager, registry: Registry, id: nat, g: Generator, c: Spec.Client)
    reads g
  {
    g.manager == manager && g.Represents(registry) && g.queue.id == id && g.client == c
  }

  ghost predicate AllConnected(manager: EventStreamManager, registry: Registry, connections: Connections,
                               clients: Clients)
    reads connections.Values
  {
    && clients.Keys == connections.Keys
    && forall id :: id in connections ==> Connected(manager, registry, id, connections[id], clients[id])
  }

  /** The manager is in order, so is every reader's connection, and nobody else is registered. */
  ghost predicate Ready(manager: EventStreamManager, connections: Connections, clients: Clients)
    reads manager, manager.registry.Values, connections.Values
  {
    && manager.Valid() && AllConnected(manager, manager.registry, connections, clients)
    && OnlyReaders(manager.registry, clients)
  }

  /** The manager's handler is registered for all events, and perhaps elsewhere too. */
  ghost predicate Listening(manager: EventStreamManager)
    reads manager.bus
  {
    manager.handler in manager.bus.globals
  }

  ghost predicate OnlyReaders(registry: Registry, clients: Clients) {
    forall id :: id in registry ==> id in clients && clients[id].connected
  }

  /** The two registries differ at most in `id`. */
  ghost predicate SameBut(registry: Registry, registry': Registry, id: nat) {
    forall k :: k != id ==> (k in registry <==> k in registry') && (k in registry ==> registry[k] == registry'[k])
  }

  /** The other readers' connections are other objects. */
  lemma SetAside(manager: EventStreamManager, registry: Registry, connections: Connections, clients: Clients, id: nat)
    requires AllConnected(manager, registry, connections, clients)
    ensures AllConnected(manager, registry, connections - {id}, clients - {id})
    ensures id in connections ==>
              connections[id] !in (connections - {id}).Values
                  && Connected(manager, registry, id, connections[id], clients[id])
  {
  }

  /** One reader has changed its connection, and with it the registry: all are connected. */
  lemma PutBack(manager: EventStreamManager, registry: Registry, registry': Registry,
                connections: Connections, clients: Clients, id: nat, g: Generator)
    requires AllConnected(manager, registry, connections - {id}, clients - {id}) && SameBut(registry, registry', id)
    requires clients.Keys == connections.Keys && Connected(manager, registry', id, g, g.client)
    ensures AllConnected(manager, registry', connections[id := g], clients[id := g.client])
  {
    var all, cs := connections[id := g], clients[id := g.client];
    forall k | k in all ensures Connected(manager, registry', k, all[k], cs[k]) {
      if k != id {
        assert Connected(manager, registry, k, (connections - {id})[k], (clients - {id})[k]);
      }
    }
  }

  lemma PutBackSame(manager: EventStreamManager, registry: Registry, registry': Registry,
                    connections: Connections, clients: Clients, id: nat)
    requires AllConnected(manager, registry, connections - {id}, clients - {id}) && SameBut(registry, registry', id)
    requires id in connections && clients.Keys == connections.Keys
    requires Connected(manager, registry', id, connections[id], connections[id].client)
    ensures AllConnected(manager, registry', connections, clients[id := connections[id].client])
  {
    PutBack(manager, registry, registry', connections, clients, id, connections[id]);
    assert connections[id := connections[id]] == connections;
  }

  lemma OnlyReadersAfter(registry: Registry, registry': Registry, clients: Clients, id: nat, c: Spec.Client)
    requires OnlyReaders(registry, clients) && SameBut(registry, registry', id) && (id in registry' ==> c.connected)
    ensures OnlyReaders(registry', clients[id := c])
  {
  }

  lemma OneMoreValue(connections: Connections, id: nat, g: Generator)
    ensures connections[id := g].Values <= connections.Values + {g}
  {
  }

  lemma RegistryGrows(registry: Registry, registry': Registry, id: nat, q: LiveQueue)
    requires SameBut(registry, registry', id) && (id in registry' ==> registry'[id] == q)
    ensures registry'.Values <= registry.Values + {q}
  {
  }

  method TakeBeside(g: Generator, ghost others: Connections, ghost clients: Clients)
      returns (got: Option<BufferedEvent>)
    requires g.Valid() && g.open && AllConnected(g.manager, g.manager.registry, others, clients) && g !in others.Values
    modifies g`replay, g`client, g.queue, g.manager`hub
    ensures g.Valid() && g.open && g.client.connected && AllConnected(g.manager, g.manager.registry, others, clients)
    ensures g.manager.hub == Spec.TakeNext(old(g.manager.hub), g.queue.id, old(g.client))
    ensures (g.client, got) == (var r := Spec.Next(old(g.manager.hub).queues[g.queue.id], old(g.client)); (r.1, r.2))
  {
    got := g.Next();
  }

  method DropBeside(g: Generator, ghost others: Connections, ghost clients: Clients)
    requires g.Valid() && g.open && AllConnected(g.manager, g.manager.registry, others, clients) && g !in others.Values
    modifies g`open, g`client, g.manager`queues, g.manager`hub, g.manager`registry
    ensures g.Valid() && !g.open && AllConnected(g.manager, old(g.manager.registry), others, clients)
    ensures g.queue.id !in g.manager.registry && SameBut(old(g.manager.registry), g.manager.registry, g.queue.id)
    ensures g.manager.hub == Spec.Unsubscribe(old(g.manager.hub), g.queue.id)
    ensures g.client == old(g.client).(connected := false)
  {
    g.Close();
  }

  /** The reader a new connection belongs to: a new one, or the one that was dropped. */
  ghost function Opened(h: Spec.Hub, sid: string, cursor: int, earlier: Option<Spec.Client>): Spec.Client {
    match earlier
    case None => Spec.Connect(h, sid, cursor)
    case Some(was) => Spec.Reconnect(h, was)
  }

  /** A new connection remembers what earlier ones delivered. */
  ghost method RememberBeside(g: Generator, others: Connections, clients: Clients, registry: Registry, h: Spec.Hub,
                              was: Spec.Client)
    requires g.Valid() && AllConnected(g.manager, registry, others, clients) && g !in others.Values
    requires g.client == Spec.Connect(h, was.sid, Spec.ResumePoint(was))
    modifies g`client
    ensures g.Valid() && AllConnected(g.manager, registry, others, clients)
    ensures g.client == Spec.Reconnect(h, was)
  {
    g.Remember(Spec.Reconnect(h, was));
  }

  method NewBeside(manager: EventStreamManager, sid: string, cursor: int, ghost id: nat, ghost others: Connections,
                   ghost clients: Clients)
    returns (g: Generator)
    requires manager.Valid() && id !in manager.registry && AllConnected(manager, manager.registry, others, clients)
    modifies manager`queues, manager`hub, manager`registry
    ensures g.Valid() && g.open && fresh(g) && fresh(g.queue) && g.manager == manager && g.queue.id == id
    ensures AllConnected(manager, old(manager.registry), others, clients)
    ensures SameBut(old(manager.registry), manager.registry, id)
    ensures manager.hub == Spec.Subscribe(old(manager.hub), id, sid)
    ensures g.client == Spec.Connect(old(manager.hub), sid, cursor)
  {
    g := new Generator(manager, sid, cursor, id);
  }

  method OpenBeside(manager: EventStreamManager, sid: string, cursor: int, ghost id: nat,
                    ghost earlier: Option<Spec.Client>,
                    ghost others: Connections, ghost clients: Clients)
    returns (g: Generator)
    requires manager.Valid() && id !in manager.registry && AllConnected(manager, manager.registry, others, clients)
    requires earlier.Some? ==> sid == earlier.value.sid && cursor == Spec.ResumePoint(earlier.value)
    modifies manager`queues, manager`hub, manager`registry
    ensures g.Valid() && g.open && fresh(g) && fresh(g.queue) && g.manager == manager && g.queue.id == id
    ensures AllConnected(manager, old(manager.registry), others, clients)
    ensures SameBut(old(manager.registry), manager.registry, id)
    ensures manager.hub == Spec.Subscribe(old(manager.hub), id, sid)
    ensures g.client == Opened(old(manager.hub), sid, cursor, earlier)
  {
    ghost var h, registry := manager.hub, manager.registry;
    g := NewBeside(manager, sid, cursor, id, others, clients);
    if earlier.Some? {
      RememberBeside(g, others, clients, registry, h, earlier.value);
    }
  }

  method PublishTo(manager: EventStreamManager, ghost connections: Connections, ghost clients: Clients, e: Event)
    requires Ready(manager, connections, clients) && Listening(manager)
    modifies manager`seqNo, manager`buffer, manager`hub, manager.registry.Values
    ensures fresh(manager.registry.Values - old(manager.registry.Values))
    ensures Ready(manager, connections, clients) && manager.hub == Spec.PublishTo(old(manager.hub), e)
  {
    Publish(manager, e);
  }

  method DeliverTo(manager: EventStreamManager, connections: Connections, ghost clients: Clients, id: nat)
      returns (got: Option<BufferedEvent>, ghost clients': Clients)
    requires Ready(manager, connections, clients) && id in connections && connections[id].open
    modifies manager`hub, connections[id], connections[id].queue
    ensures Ready(manager, connections, clients')
    ensures manager.hub == Spec.TakeNext(old(manager.hub), id, clients[id])
    ensures (clients', got) == (var r := Spec.Next(old(manager.hub).queues[id], clients[id]); (clients[id := r.1], r.2))
  {
    var g: Generator := connections[id];
    SetAside(manager, manager.registry, connections, clients, id);
    got := TakeBeside(g, connections - {id}, clients - {id});
    clients' := clients[id := g.client];
    PutBackSame(manager, manager.registry, manager.registry, connections, clients, id);
    OnlyReadersAfter(manager.registry, manager.registry, clients, id, g.client);
  }

  method DropTo(manager: EventStreamManager, connections: Connections, ghost clients: Clients, id: nat)
    returns (ghost clients': Clients)
    requires Ready(manager, connections, clients) && id in connections && connections[id].open
    modifies manager`queues, manager`hub, manager`registry, connections[id]
    ensures fresh(manager.registry.Values - old(manager.registry.Values))
    ensures Ready(manager, connections, clients') && manager.hub == Spec.Unsubscribe(old(manager.hub), id)
    ensures clients' == clients[id := clients[id].(connected := false)]
  {
    var g: Generator := connections[id];
    ghost var registry := manager.registry;
    SetAside(manager, registry, connections, clients, id);
    DropBeside(g, connections - {id}, clients - {id});
    clients' := clients[id := g.client];
    PutBackSame(manager, registry, manager.registry, connections, clients, id);
    OnlyReadersAfter(registry, manager.registry, clients, id, g.client);
    RegistryGrows(registry, manager.registry, id, g.queue);
    assert g.queue in registry.Values;
  }

  /** A reader's first connection, or its next one after a drop. */
  method Connect(manager: EventStreamManager, connections: Connections, ghost clients: Clients,
              id: nat, sid: string, cursor: int, ghost earlier: Option<Spec.Client>)
    returns (connections': Connections, ghost clients': Clients)
    requires Ready(manager, connections, clients) && id !in manager.registry
    requires earlier.Some? ==> sid == earlier.value.sid && cursor == Spec.ResumePoint(earlier.value)
    modifies manager`queues, manager`hub, manager`registry
    ensures Ready(manager, connections', clients') && manager.hub == Spec.Subscribe(old(manager.hub), id, sid)
    ensures fresh(connections'.Values - connections.Values)
            && fresh(manager.registry.Values - old(manager.registry.Values))
    ensures clients' == clients[id := Opened(old(manager.hub), sid, cursor, earlier)]
  {
    ghost var registry := manager.registry;
    SetAside(manager, registry, connections, clients, id);
    var g := OpenBeside(manager, sid, cursor, id, earlier, connections - {id}, clients - {id});
    connections', clients' := connections[id := g], clients[id := g.client];
    assert Connected(manager, manager.registry, id, g, g.client) && g.client.connected;
    PutBack(manager, registry, manager.registry, connections, clients, id, g);
    OneMoreValue(connections, id, g);
    RegistryGrows(registry, manager.registry, id, g.queue);
    OnlyReadersAfter(registry, manager.registry, clients, id, g.client);
  }

  // ------------------------------------------------------------- schedules

  /** A delivery moves the resume point to the event delivered. */
  lemma ResumePointAfter(q: Spec.Subscription, c: Spec.Client)
    ensures var (_, c', got) := Spec.Next(q, c);
            Spec.ResumePoint(c') == if got.Some? then got.value.seqNo else Spec.ResumePoint(c)
  {
  }

  /** What each reader would resume from. */
  ghost predicate Remembers(resumeAt: map<nat, int>, clients: Clients) {
    resumeAt.Keys == clients.Keys && forall id :: id in clients ==> resumeAt[id] == Spec.ResumePoint(clients[id])
  }

  lemma RemembersAfter(resumeAt: map<nat, int>, clients: Clients, id: nat, c: Spec.Client, at: int)
    requires Remembers(resumeAt, clients) && at == Spec.ResumePoint(c)
    ensures Remembers(resumeAt[id := at], clients[id := c])
    ensures id in resumeAt && resumeAt[id] == at ==> Remembers(resumeAt, clients[id := c])
  {
  }

  lemma OpenIs(h: Spec.Hub, clients: Clients, id: nat, sid: string, cursor: int)
    ensures Spec.Step(Spec.World(h, clients), Spec.Open(id, sid, cursor)) ==
            if id in clients || sid == "" then Spec.World(h, clients)
            else Spec.World(Spec.Subscribe(h, id, sid), clients[id := Spec.Connect(h, sid, cursor)])
    ensures Spec.ResumePoint(Spec.Connect(h, sid, cursor)) == cursor
  {
  }

  lemma DropIs(h: Spec.Hub, clients: Clients, id: nat)
    ensures Spec.Step(Spec.World(h, clients), Spec.Drop(id)) ==
            if id in clients && clients[id].connected
            then Spec.World(Spec.Unsubscribe(h, id), clients[id := clients[id].(connected := false)])
            else Spec.World(h, clients)
    ensures id in clients ==> Spec.ResumePoint(clients[id].(connected := false)) == Spec.ResumePoint(clients[id])
  {
  }

  lemma ResumeIs(h: Spec.Hub, clients: Clients, id: nat)
    ensures Spec.Step(Spec.World(h, clients), Spec.Resume(id)) ==
            if id in clients && !clients[id].connected
            then Spec.World(Spec.Subscribe(h, id, clients[id].sid), clients[id := Spec.Reconnect(h, clients[id])])
            else Spec.World(h, clients)
    ensures id in clients ==> Spec.ResumePoint(Spec.Reconnect(h, clients[id])) == Spec.ResumePoint(clients[id])
  {
  }

  lemma OpenMeansConnected(manager: EventStreamManager, registry: Registry, connections: Connections, clients: Clients,
                           id: nat)
    requires AllConnected(manager, registry, connections, clients)
    ensures id in connections <==> id in clients
    ensures id in connections ==>
            connections[id].open == clients[id].connected && connections[id].sid == clients[id].sid
  {
  }

  method Deliver(manager: EventStreamManager, connections: Connections, resumeAt: map<nat, int>,
                 ghost clients: Clients, id: nat)
    returns (resumeAt': map<nat, int>, ghost clients': Clients)
    requires Ready(manager, connections, clients) && Remembers(resumeAt, clients)
    modifies manager`hub, connections.Values, manager.registry.Values
    ensures fresh(manager.registry.Values - old(manager.registry.Values))
    ensures Ready(manager, connections, clients') && Remembers(resumeAt', clients')
    ensures Spec.World(manager.hub, clients') == Spec.Step(Spec.World(old(manager.hub), clients), Spec.Deliver(id))
  {
    resumeAt', clients' := resumeAt, clients;
    if id in connections && connections[id].open {
      ResumePointAfter(manager.hub.queues[id], clients[id]);
      var got;
      got, clients' := DeliverTo(manager, connections, clients, id);
      var at := if got.Some? then got.value.seqNo else resumeAt[id];
      RemembersAfter(resumeAt, clients, id, clients'[id], at);
      resumeAt' := resumeAt[id := at];
    }
  }

  method Drop(manager: EventStreamManager, connections: Connections, resumeAt: map<nat, int>, ghost clients: Clients,
              id: nat)
    returns (ghost clients': Clients)
    requires Ready(manager, connections, clients) && Remembers(resumeAt, clients)
    modifies manager`queues, manager`hub, manager`registry, connections.Values
    ensures fresh(manager.registry.Values - old(manager.registry.Values))
    ensures Ready(manager, connections, clients') && Remembers(resumeAt, clients')
    ensures Spec.World(manager.hub, clients') == Spec.Step(Spec.World(old(manager.hub), clients), Spec.Drop(id))
  {
    clients' := clients;
    DropIs(manager.hub, clients, id);
    OpenMeansConnected(manager, manager.registry, connections, clients, id);
    if id in connections && connections[id].open {
      clients' := DropTo(manager, connections, clients, id);
      RemembersAfter(resumeAt, clients, id, clients'[id], resumeAt[id]);
    }
  }

  method Open(manager: EventStreamManager, connections: Connections, resumeAt: map<nat, int>, ghost clients: Clients,
              id: nat, sid: string, cursor: int)
    returns (connections': Connections, resumeAt': map<nat, int>, ghost clients': Clients)
    requires Ready(manager, connections, clients) && Remembers(resumeAt, clients)
    modifies manager`queues, manager`hub, manager`registry
    ensures fresh(connections'.Values - connections.Values)
            && fresh(manager.registry.Values - old(manager.registry.Values))
    ensures Ready(manager, connections', clients') && Remembers(resumeAt', clients')
    ensures Spec.World(manager.hub, clients') ==
            Spec.Step(Spec.World(old(manager.hub), clients), Spec.Open(id, sid, cursor))
  {
    connections', resumeAt', clients' := connections, resumeAt, clients;
    OpenIs(manager.hub, clients, id, sid, cursor);
    OpenMeansConnected(manager, manager.registry, connections, clients, id);
    if id !in connections && sid != "" {
      connections', clients' := Connect(manager, connections, clients, id, sid, cursor, None);
      RemembersAfter(resumeAt, clients, id, clients'[id], cursor);
      resumeAt' := resumeAt[id := cursor];
    }
  }

  /** A dropped reader reconnects where it left off. */
  method Reconnect(manager: EventStreamManager, connections: Connections, ghost clients: Clients, id: nat, at: int)
    returns (connections': Connections, ghost clients': Clients)
    requires Ready(manager, connections, clients) && id in connections && id in clients && !clients[id].connected
             && at == Spec.ResumePoint(clients[id])
    modifies manager`queues, manager`hub, manager`registry
    ensures fresh(connections'.Values - connections.Values)
            && fresh(manager.registry.Values - old(manager.registry.Values))
    ensures Ready(manager, connections', clients')
            && manager.hub == Spec.Subscribe(old(manager.hub), id, clients[id].sid)
    ensures clients' == clients[id := Spec.Reconnect(old(manager.hub), clients[id])]
  {
    OpenMeansConnected(manager, manager.registry, connections, clients, id);
    connections', clients' := Connect(manager, connections, clients, id, connections[id].sid, at, Some(clients[id]));
  }

  method Resume(manager: EventStreamManager, connections: Connections, resumeAt: map<nat, int>, ghost clients: Clients,
                id: nat)
    returns (connections': Connections, ghost clients': Clients)
    requires Ready(manager, connections, clients) && Remembers(resumeAt, clients)
    modifies manager`queues, manager`hub, manager`registry
    ensures fresh(connections'.Values - connections.Values)
            && fresh(manager.registry.Values - old(manager.registry.Values))
    ensures Ready(manager, connections', clients') && Remembers(resumeAt, clients')
    ensures Spec.World(manager.hub, clients') == Spec.Step(Spec.World(old(manager.hub), clients), Spec.Resume(id))
  {
    connections', clients' := connections, clients;
    ResumeIs(manager.hub, clients, id);
    OpenMeansConnected(manager, manager.registry, connections, clients, id);
    if id in connections && !connections[id].open {
      connections', clients' := Reconnect(manager, connections, clients, id, resumeAt[id]);
      RemembersAfter(resumeAt, clients, id, clients'[id], resumeAt[id]);
    }
  }

  /** One turn of a schedule.  `resumeAt` holds the last number each reader received, or
      the cursor it asked for. */
  method Turn(manager: EventStreamManager, connections: Connections, resumeAt: map<nat, int>, ghost clients: Clients,
              a: Spec.Action)
    returns (connections': Connections, resumeAt': map<nat, int>, ghost clients': Clients)
    requires Ready(manager, connections, clients) && Remembers(resumeAt, clients) && Listening(manager)
    modifies manager, connections.Values, manager.registry.Values
    ensures Listening(manager)
    ensures fresh(connections'.Values - connections.Values)
            && fresh(manager.registry.Values - old(manager.registry.Values))
    ensures Ready(manager, connections', clients') && Remembers(resumeAt', clients')
    ensures Spec.World(manager.hub, clients') == Spec.Step(Spec.World(old(manager.hub), clients), a)
  {
    connections', resumeAt', clients' := connections, resumeAt, clients;
    match a
    case Publish(e) => PublishTo(manager, connections, clients, e);
    case Open(id, sid, cursor) => connections', resumeAt', clients' :=
        Open(manager, connections, resumeAt, clients, id, sid, cursor);
    case Deliver(id) => resumeAt', clients' := Deliver(manager, connections, resumeAt, clients, id);
    case Drop(id) => clients' := Drop(manager, connections, resumeAt, clients, id);
    case Resume(id) => connections', clients' := Resume(manager, connections, resumeAt, clients, id);
  }

  /** Any schedule, on any number of readers, is a run of the protocol. */
  method Serve(manager: EventStreamManager, connections: Connections, resumeAt: map<nat, int>, ghost clients: Clients,
               schedule: seq<Spec.Action>)
    returns (connections': Connections, ghost clients': Clients)
    requires Ready(manager, connections, clients) && Remembers(resumeAt, clients) && Listening(manager)
    modifies manager, connections.Values, manager.registry.Values
    ensures Ready(manager, connections', clients')
    ensures Spec.World(manager.hub, clients') == Spec.Run(Spec.World(old(manager.hub), clients), schedule)
    decreases |schedule|
  {
    if schedule == [] {
      return connections, clients;
    }
    var next, at;
    ghost var after;
    next, at, after := Turn(manager, connections, resumeAt, clients, schedule[0]);
    connections', clients' := Serve(manager, next, at, after, schedule[1..]);
  }

  /** A new manager, started any number of times and on a bus with any other registrations,
      the same handler's on topics included: every publish of the schedule is one publish of
      the protocol. */
  method StartAndServe(manager: EventStreamManager, starts: nat, schedule: seq<Spec.Action>)
    returns (connections: Connections, ghost clients: Clients)
    requires manager.Valid() && manager.registry == map[] && !manager.listening && starts > 0
    modifies manager, manager.bus
    ensures Ready(manager, connections, clients)
    ensures Spec.World(manager.hub, clients) == Spec.Run(Spec.World(old(manager.hub), map[]), schedule)
  {
    StartTimes(manager, starts);
    connections, clients := Serve(manager, map[], map[], map[], schedule);
  }

  /** Starting again changes nothing: there is one registration more than before the first. */
  method StartTimes(manager: EventStreamManager, starts: nat)
    requires !manager.listening && starts > 0
    modifies manager`listening, manager.bus
    ensures Listening(manager) && manager.bus.globals == old(manager.bus.globals) + [manager.handler]
    ensures manager.bus.byTopic == old(manager.bus.byTopic)
  {
    for k := 0 to starts
      invariant manager.listening <==> k > 0
      invariant manager.bus.byTopic == old(manager.bus.byTopic)
      invariant manager.bus.globals == if k == 0 then old(manager.bus.globals)
                else old(manager.bus.globals) + [manager.handler]
    {
      manager.Start();
    }
  }
}

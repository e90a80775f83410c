/** What a reader gets from opening a stream, in terms of what was published: nothing here
    speaks of how connections are made or how items are taken. */
module EventDelivery {
  import opened Common
  import opened EventLog
  import opened EventStreamSpec

  /** The events the run publishes, in order. */
  function Published(actions: seq<Action>): seq<Event> {
    if actions == [] then []
    else (if actions[0].Publish? then [actions[0].e] else []) + Published(actions[1..])
  }

  lemma {:induction false} StepLogs(w: World, a: Action)
    ensures Step(w, a).hub.log == w.hub.log + Published([a])
  {
    assert w.hub.log + [] == w.hub.log && Published([a][1..]) == [];
  }

  lemma {:induction false} PublishedInTwo(a: Action, rest: seq<Action>)
    ensures Published([a] + rest) == Published([a]) + Published(rest)
  {
    assert ([a] + rest)[1..] == rest && [a][1..] == [];
  }

  /** The log is what was published, whatever readers do. */
  lemma {:induction false} LogIsPublished(w: World, actions: seq<Action>)
    ensures Run(w, actions).hub.log == w.hub.log + Published(actions)
    decreases |actions|
  {
    if actions != [] {
      var a, rest := actions[0], actions[1..];
      StepLogs(w, a);
      assert actions == [a] + rest;
      PublishedInTwo(a, rest);
      LogIsPublished(Step(w, a), rest);
    } else {
      assert w.hub.log + [] == w.hub.log;
    }
  }

  lemma {:induction false} RunInTwo(w: World, a: seq<Action>, b: seq<Action>)
    ensures Run(w, a + b) == Run(Run(w, a), b)
    decreases |a|
  {
    if a == [] {
      assert a + b == b;
    } else {
      assert (a + b)[0] == a[0] && (a + b)[1..] == a[1..] + b;
      RunInTwo(Step(w, a[0]), a[1..], b);
    }
  }

  // --------------------------------------------------------- opening a stream

  /** The reader asked for this session and has been served from this number on. */
  predicate Serves(w: World, id: nat, sid: string, origin: int) {
    id in w.clients && w.clients[id].sid == sid && w.clients[id].origin == origin
  }

  /** Opening serves the asked session from the asked cursor, or from the oldest event
      still buffered if that is later; nothing is received yet. */
  lemma {:induction false} OpenServes(w: World, id: nat, sid: string, cursor: int)
    requires HubInv(w.hub) && id !in w.clients && sid != ""
    ensures var w' := Step(w, Open(id, sid, cursor));
            && Serves(w', id, sid, Max(cursor, if |w.hub.log| <= w.hub.maxlen then 0 else |w.hub.log| - w.hub.maxlen))
            && Received(w'.clients[id]) == [] && w'.clients[id].connected
  {
  }

  lemma {:induction false} StillServes(w: World, actions: seq<Action>, id: nat, sid: string, origin: int)
    requires Serves(w, id, sid, origin)
    ensures Serves(Run(w, actions), id, sid, origin)
    decreases |actions|
  {
    if actions != [] {
      ServesStep(w, actions[0], id, sid, origin);
      StillServes(Step(w, actions[0]), actions[1..], id, sid, origin);
    }
  }

  lemma {:induction false} ServesStep(w: World, a: Action, id: nat, sid: string, origin: int)
    requires Serves(w, id, sid, origin)
    ensures Serves(Step(w, a), id, sid, origin)
  {
    if a.Deliver? && a.id == id && w.clients[id].connected && id in w.hub.queues {
      var r := Next(w.hub.queues[id], w.clients[id]);
      assert r.1.sid == sid && r.1.origin == origin;
    }
  }

  // ----------------------------------------------------------- single actions

  /** The first pending event, if any, has moved to what the reader received. */
  ghost predicate HandedOver(h: Hub, c: Client, h': Hub, c': Client, id: nat) {
    var pending := Pending(h, id, c);
    && c'.connected && h'.log == h.log
    && Received(c') == Received(c) + (if pending == [] then [] else [pending[0]])
    && Pending(h', id, c') == (if pending == [] then [] else pending[1..])
  }

  lemma {:induction false} TakingHandsOver(h: Hub, id: nat, c: Client)
    requires id in h.queues && c.connected
    requires forall i :: 0 <= i < |c.replay| ==> c.replay[i].seqNo <= c.snapshot
    ensures HandedOver(h, c, TakeNext(h, id, c), Next(h.queues[id], c).1, id)
  {
    NextYieldsHead(h.queues[id], c);
    var r := Next(h.queues[id], c);
    var owed := OwedFrom(h.queues[id], c);
    assert owed == Pending(h, id, c) && OwedFrom(r.0, r.1) == Pending(TakeNext(h, id, c), id, r.1);
    assert owed != [] ==> c.carried + (c.yielded + [owed[0]]) == c.carried + c.yielded + [owed[0]];
  }

  /** A delivery to a connected reader hands over the first pending event. */
  lemma {:induction false} DeliverMoves(w: World, id: nat)
    requires id in w.clients && ClientInv(w.hub, id, w.clients[id]) && w.clients[id].connected
    ensures var w' := Step(w, Deliver(id));
            id in w'.clients && HandedOver(w.hub, w.clients[id], w'.hub, w'.clients[id], id)
  {
    TakingHandsOver(w.hub, id, w.clients[id]);
  }

  /** Dropping disconnects this reader and takes nothing away, from it or from another. */
  lemma {:induction false} DropKeeps(w: World, id: nat)
    requires id in w.clients
    ensures var w' := Step(w, Drop(id));
            && id in w'.clients && !w'.clients[id].connected && Received(w'.clients[id]) == Received(w.clients[id])
            && w'.clients - {id} == w.clients - {id}
  {
  }

  /** Resuming connects it again, with all it had. */
  lemma {:induction false} ResumeKeeps(w: World, id: nat)
    requires id in w.clients
    ensures var w' := Step(w, Resume(id));
            && id in w'.clients && w'.clients[id].connected && Received(w'.clients[id]) == Received(w.clients[id])
            && w'.clients - {id} == w.clients - {id}
  {
    assert Received(w.clients[id]) + [] == Received(w.clients[id]);
  }

  // ------------------------------------------------------------------ draining

  /** The reader's next `n` resumptions. */
  function Drain(w: World, id: nat, n: nat): World
    decreases n
  {
    if n == 0 then w else Step(Drain(w, id, n - 1), Deliver(id))
  }

  /** The reader is connected, has got so much and is owed so much. */
  ghost predicate Stands(w: World, id: nat, got: seq<BufferedEvent>, pending: seq<BufferedEvent>) {
    && id in w.clients && w.clients[id].connected && ClientInv(w.hub, id, w.clients[id])
    && Received(w.clients[id]) == got && Pending(w.hub, id, w.clients[id]) == pending
  }

  lemma {:induction false} DeliverOne(w: World, id: nat, got: seq<BufferedEvent>, pending: seq<BufferedEvent>)
    requires Stands(w, id, got, pending) && pending != []
    ensures Stands(Step(w, Deliver(id)), id, got + [pending[0]], pending[1..])
  {
    DeliverMoves(w, id);
    DeliverKeepsClient(w.hub, id, w.clients[id]);
  }

  /** The first `n` pending events have been handed over. */
  ghost predicate StandsAfter(w: World, id: nat, got: seq<BufferedEvent>, pending: seq<BufferedEvent>, n: nat)
    requires n <= |pending|
  {
    Stands(w, id, got + pending[..n], pending[n..])
  }

  lemma {:induction false} OneMoreHandedOver(w: World, id: nat, got: seq<BufferedEvent>, pending: seq<BufferedEvent>,
                                             n: nat)
    requires n < |pending| && StandsAfter(w, id, got, pending, n)
    ensures StandsAfter(Step(w, Deliver(id)), id, got, pending, n + 1)
  {
    var first, rest := pending[n..][0], pending[n..][1..];
    assert got + pending[..n] + [first] == got + pending[..n + 1];
    assert rest == pending[n + 1..];
    DeliverOne(w, id, got + pending[..n], pending[n..]);
  }

  /** What each of the first `n` deliveries takes one further holds after all of them. */
  lemma {:induction false} DrainInduction(w: World, id: nat, n: nat, after: (World, nat) -> bool)
    requires after(w, 0)
    requires forall v: World, k: nat :: k < n && after(v, k) ==> after(Step(v, Deliver(id)), k + 1)
    ensures after(Drain(w, id, n), n)
    decreases n
  {
    if n > 0 {
      DrainInduction(w, id, n - 1, after);
    }
  }

  /** As many deliveries as events are pending hand them all over, in order. */
  lemma {:induction false} DrainHandsOver(w: World, id: nat)
    requires id in w.clients && w.clients[id].connected && ClientInv(w.hub, id, w.clients[id])
    ensures var pending := Pending(w.hub, id, w.clients[id]);
            Stands(Drain(w, id, |pending|), id, Received(w.clients[id]) + pending, [])
  {
    var got, pending := Received(w.clients[id]), Pending(w.hub, id, w.clients[id]);
    var after := (v: World, k: nat) => k <= |pending| && StandsAfter(v, id, got, pending, k);
    assert got + pending[..0] == got && pending[0..] == pending;
    forall v: World, k: nat | k < |pending| && after(v, k) ensures after(Step(v, Deliver(id)), k + 1) {
      OneMoreHandedOver(v, id, got, pending, k);
    }
    DrainInduction(w, id, |pending|, after);
    assert pending[..|pending|] == pending && pending[|pending|..] == [];
  }

  /** The reader opened after `before` and then served through `after`. */
  function Opened(before: seq<Action>, id: nat, sid: string, cursor: int, after: seq<Action>): seq<Action> {
    before + [Open(id, sid, cursor)] + after
  }

  /** Where a stream opened after `before` starts: at the cursor, or behind what the
      buffer had already lost. */
  function StartsAt(maxlen: nat, before: seq<Action>, cursor: int): int {
    var n := |Published(before)|;
    Max(cursor, if n <= maxlen then 0 else n - maxlen)
  }

  lemma {:induction false} OpenedServes(maxlen: nat, before: seq<Action>, id: nat, sid: string, cursor: int,
                                        after: seq<Action>)
    requires id !in Run(Start(maxlen), before).clients && sid != ""
    ensures Serves(Run(Start(maxlen), Opened(before, id, sid, cursor, after)), id, sid,
            StartsAt(maxlen, before, cursor))
  {
    var w0 := Run(Start(maxlen), before);
    RunKeepsInv(Start(maxlen), before);
    AllLogged(maxlen, before);
    OpenServes(w0, id, sid, cursor);
    var rest := [Open(id, sid, cursor)] + after;
    StillServes(Step(w0, Open(id, sid, cursor)), after, id, sid, StartsAt(maxlen, before, cursor));
    RunInTwo(Start(maxlen), before, rest);
    assert Opened(before, id, sid, cursor, after) == before + rest;
    assert rest[1..] == after;
  }

  lemma {:induction false} AllLogged(maxlen: nat, actions: seq<Action>)
    ensures Run(Start(maxlen), actions).hub.log == Published(actions)
  {
    LogIsPublished(Start(maxlen), actions);
    assert [] + Published(actions) == Published(actions);
  }

  /** A reader that opens the session at a cursor, is dropped and resumed any number of
      times without missing anything, and is then served until nothing is pending, has
      received exactly the session's published events above where it started: each
      numbered by its place among all published events, once, and in that order. */
  lemma {:induction false} DrainedReaderHasAll(maxlen: nat, before: seq<Action>, id: nat, sid: string, cursor: int,
                                               after: seq<Action>)
    requires id !in Run(Start(maxlen), before).clients && sid != ""
    requires var actions := Opened(before, id, sid, cursor, after);
             && NeverMisses(Start(maxlen), actions, id)
             && id in Run(Start(maxlen), actions).clients && Run(Start(maxlen), actions).clients[id].connected
    ensures var actions := Opened(before, id, sid, cursor, after);
            var w := Run(Start(maxlen), actions);
            var w' := Drain(w, id, |Pending(w.hub, id, w.clients[id])|);
            && id in w'.clients
            && Received(w'.clients[id]) == Since(Published(actions), StartsAt(maxlen, before, cursor), sid)
  {
    var actions := Opened(before, id, sid, cursor, after);
    RunKeepsInv(Start(maxlen), actions);
    OpenedServes(maxlen, before, id, sid, cursor, after);
    ResumedStreamIsCompleteIff(maxlen, actions, id);
    AllLogged(maxlen, actions);
    var w := Run(Start(maxlen), actions);
    DrainHandsOver(w, id);
  }

  /** Nothing a reader received is ever taken back or reordered. */
  lemma {:induction false} ReceivedOnlyGrows(w: World, actions: seq<Action>, id: nat)
    requires Inv(w) && id in w.clients
    ensures id in Run(w, actions).clients
    ensures IsPrefix(Received(w.clients[id]), Received(Run(w, actions).clients[id]))
    decreases |actions|
  {
    if actions != [] {
      var w' := Step(w, actions[0]);
      StepKeepsInv(w, actions[0]);
      ReceivedStep(w, actions[0], id);
      ReceivedOnlyGrows(w', actions[1..], id);
      PrefixChain(Received(w.clients[id]), Received(w'.clients[id]), Received(Run(w, actions).clients[id]));
    }
  }

  lemma {:induction false} ReceivedStep(w: World, a: Action, id: nat)
    requires id in w.clients && ClientInv(w.hub, id, w.clients[id])
    ensures id in Step(w, a).clients
    ensures IsPrefix(Received(w.clients[id]), Received(Step(w, a).clients[id]))
  {
    if a == Deliver(id) && w.clients[id].connected {
      DeliverMoves(w, id);
    } else if a == Resume(id) {
      ResumeKeeps(w, id);
    } else if a == Drop(id) {
      DropKeeps(w, id);
    } else {
      assert Step(w, a).clients[id] == w.clients[id];
    }
  }

  lemma {:induction false} PrefixChain<T>(a: seq<T>, b: seq<T>, c: seq<T>)
    requires IsPrefix(a, b) && IsPrefix(b, c)
    ensures IsPrefix(a, c)
  {
    assert a == b[..|a|] == c[..|b|][..|a|];
  }
}

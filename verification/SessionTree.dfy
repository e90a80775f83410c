/** Sessions, their append-only events and their branches, as rows in insertion order,
    and what every sequence of creates, appends, rollbacks and branches keeps. */
module SessionTree {
  import opened Common

  type Id = string

  datatype SessionEvent = SessionEvent(
    id: Id, sessionId: string, parent: Option<Id>, seqNo: nat, eventType: string, content: string)

  datatype Session = Session(active: Option<Id>)

  datatype Branch = Branch(id: Id, sessionId: string, base: Option<Id>, name: string, active: bool)

  datatype Store = Store(sessions: map<string, Session>, events: seq<SessionEvent>, branches: seq<Branch>)

  datatype Error = KeyError(id: Id) | IntegrityError(id: Id) | AttributeError(sid: string)

  const EMPTY_STORE := Store(map[], [], [])

  // -------------------------------------------------------------- lookups

  predicate HasId(events: seq<SessionEvent>, id: Id) {
    exists i :: 0 <= i < |events| && events[i].id == id
  }

  function IndexOf(events: seq<SessionEvent>, id: Id): (i: nat)
    requires HasId(events, id)
    ensures i < |events| && events[i].id == id
    ensures forall j :: 0 <= j < i ==> events[j].id != id
  {
    if events[0].id == id then 0
    else
      assert exists i :: 0 <= i < |events[1..]| && events[1..][i].id == id by {
        var i :| 0 <= i < |events| && events[i].id == id;
        assert events[1..][i - 1].id == id;
      }
      IndexOf(events[1..], id) + 1
  }

  /** Whether `id` names an event of session `sid`. */
  predicate InSession(events: seq<SessionEvent>, sid: string, id: Id) {
    HasId(events, id) && events[IndexOf(events, id)].sessionId == sid
  }

  /** The rows of one session, in insertion order. */
  function RowsOf(events: seq<SessionEvent>, sid: string): seq<SessionEvent> {
    if events == [] then []
    else RowsOf(events[..|events| - 1], sid) + (if Last(events).sessionId == sid then [Last(events)] else [])
  }

  /** `coalesce(max(seq), 0)` over one session. */
  function MaxSeq(events: seq<SessionEvent>, sid: string): nat {
    if events == [] then 0
    else
      var m := MaxSeq(events[..|events| - 1], sid);
      if Last(events).sessionId == sid && Last(events).seqNo > m then Last(events).seqNo else m
  }

  function ActiveOf(s: Store, sid: string): Option<Id> {
    if sid in s.sessions then s.sessions[sid].active else None
  }

  function SetActive(s: Store, sid: string, id: Id): Store {
    if sid in s.sessions then s.(sessions := s.sessions[sid := Session(Some(id))]) else s
  }

  // ----------------------------------------------------------- operations

  datatype Op =
    | Create(sid: string)
    | Append(sid: string, parent: Option<Id>, id: Id, eventType: string, content: string)
    | Rollback(sid: string, eventId: Id)
    | MakeBranch(sid: string, base: Id, name: string, branchId: Id)

  /** The row an append inserts. */
  function NewRow(s: Store, op: Op): SessionEvent
    requires op.Append?
  {
    SessionEvent(op.id, op.sid, if op.parent.Some? then op.parent else ActiveOf(s, op.sid),
                 MaxSeq(s.events, op.sid) + 1, op.eventType, op.content)
  }

  function Deactivated(branches: seq<Branch>, sid: string): (r: seq<Branch>)
    ensures |r| == |branches|
    ensures forall i :: 0 <= i < |r| ==>
              r[i] == if branches[i].sessionId == sid then branches[i].(active := false) else branches[i]
  {
    if branches == [] then []
    else Deactivated(branches[..|branches| - 1], sid)
         + [if Last(branches).sessionId == sid then Last(branches).(active := false) else Last(branches)]
  }

  /** What an operation does, or the error it raises; a failed operation changes nothing. */
  function Perform(s: Store, op: Op): Result<Store, Error> {
    match op
    case Create(sid) =>
      if sid in s.sessions then Err(IntegrityError(sid))
      else Ok(s.(sessions := s.sessions[sid := Session(None)]))
    case Append(sid, _, id, _, _) =>
      if HasId(s.events, id) then Err(IntegrityError(id))
      else Ok(SetActive(s.(events := s.events + [NewRow(s, op)]), sid, id))
    case Rollback(sid, id) =>
      if !InSession(s.events, sid, id) then Err(KeyError(id))
      else if sid !in s.sessions then Err(KeyError(sid))
      else Ok(SetActive(s, sid, id))
    case MakeBranch(sid, base, name, branchId) =>
      if !InSession(s.events, sid, base) then Err(KeyError(base))
      else if exists i :: 0 <= i < |s.branches| && s.branches[i].id == branchId then Err(IntegrityError(branchId))
      else Ok(SetActive(s.(branches :=
          Deactivated(s.branches, sid) + [Branch(branchId, sid, Some(base), name, true)]), sid, base))
  }

  function Step(s: Store, op: Op): Store {
    match Perform(s, op)
    case Ok(s') => s'
    case Err(_) => s
  }

  /** An explicit parent is not validated by the store: callers name an event of the session. */
  predicate Allowed(s: Store, op: Op) {
    op.Append? && op.parent.Some? ==> InSession(s.events, op.sid, op.parent.value)
  }

  function Run(s: Store, ops: seq<Op>): Store
    decreases |ops|
  {
    if ops == [] then s else Run(Step(s, ops[0]), ops[1..])
  }

  predicate AllowedRun(s: Store, ops: seq<Op>)
    decreases |ops|
  {
    ops != [] ==> Allowed(s, ops[0]) && AllowedRun(Step(s, ops[0]), ops[1..])
  }

  // ------------------------------------------------------------ invariant

  ghost predicate UniqueIds(events: seq<SessionEvent>) {
    forall i, j :: 0 <= i < j < |events| ==> events[i].id != events[j].id
  }

  ghost predicate SeqGrows(events: seq<SessionEvent>) {
    forall i, j :: 0 <= i < j < |events| && events[i].sessionId == events[j].sessionId ==>
        events[i].seqNo < events[j].seqNo
  }

  /** Every parent is an earlier row of the same session. */
  ghost predicate ParentsEarlier(events: seq<SessionEvent>) {
    forall i :: 0 <= i < |events| && events[i].parent.Some? ==>
      HasId(events, events[i].parent.value) && EarlierKin(events, IndexOf(events, events[i].parent.value), i)
  }

  ghost predicate EarlierKin(events: seq<SessionEvent>, j: nat, i: nat)
    requires j < |events| && i < |events|
  {
    j < i && events[j].sessionId == events[i].sessionId
  }

  ghost predicate TipsExist(s: Store) {
    forall sid :: sid in s.sessions && s.sessions[sid].active.Some? ==>
        InSession(s.events, sid, s.sessions[sid].active.value)
  }

  /** A branch is active exactly when it is the last one created in its session. */
  ghost predicate LastBranchActive(branches: seq<Branch>) {
    forall i :: 0 <= i < |branches| ==>
      (branches[i].active <==> forall j :: i < j < |branches| ==> branches[j].sessionId != branches[i].sessionId)
  }

  ghost predicate Inv(s: Store) {
    && UniqueIds(s.events) && SeqGrows(s.events) && ParentsEarlier(s.events)
    && TipsExist(s)
    && LastBranchActive(s.branches)
  }

  lemma {:induction false} MaxSeqBounds(events: seq<SessionEvent>, sid: string)
    ensures forall i :: 0 <= i < |events| && events[i].sessionId == sid ==> events[i].seqNo <= MaxSeq(events, sid)
  {
    if events != [] {
      MaxSeqBounds(events[..|events| - 1], sid);
    }
  }

  lemma IndexOfStable(events: seq<SessionEvent>, e: SessionEvent, id: Id)
    requires HasId(events, id)
    ensures HasId(events + [e], id) && IndexOf(events + [e], id) == IndexOf(events, id)
  {
    assert (events + [e])[IndexOf(events, id)].id == id;
  }

  lemma AppendKeepsRows(events: seq<SessionEvent>, e: SessionEvent)
    requires UniqueIds(events) && SeqGrows(events) && ParentsEarlier(events)
    requires !HasId(events, e.id) && e.seqNo == MaxSeq(events, e.sessionId) + 1
    requires e.parent.Some? ==> InSession(events, e.sessionId, e.parent.value)
    ensures UniqueIds(events + [e]) && SeqGrows(events + [e]) && ParentsEarlier(events + [e])
  {
    MaxSeqBounds(events, e.sessionId);
    var events' := events + [e];
    forall i | 0 <= i < |events'| && events'[i].parent.Some?
      ensures HasId(events', events'[i].parent.value)
              && EarlierKin(events', IndexOf(events', events'[i].parent.value), i)
    {
      IndexOfStable(events, e, events'[i].parent.value);
    }
  }

  lemma InSessionStable(events: seq<SessionEvent>, e: SessionEvent, sid: string, id: Id)
    requires InSession(events, sid, id)
    ensures InSession(events + [e], sid, id)
  {
    IndexOfStable(events, e, id);
  }

  lemma AppendKeepsTips(s: Store, op: Op)
    requires op.Append? && TipsExist(s) && !HasId(s.events, op.id)
    ensures TipsExist(Step(s, op))
  {
    var e := NewRow(s, op);
    forall sid | sid in s.sessions && s.sessions[sid].active.Some?
      ensures InSession(s.events + [e], sid, s.sessions[sid].active.value)
    {
      InSessionStable(s.events, e, sid, s.sessions[sid].active.value);
    }
    assert (s.events + [e])[|s.events|].id == op.id;
    assert IndexOf(s.events + [e], op.id) == |s.events|;
  }

  lemma MakeBranchKeepsBranches(branches: seq<Branch>, b: Branch)
    requires LastBranchActive(branches) && b.active
    ensures LastBranchActive(Deactivated(branches, b.sessionId) + [b])
  {
    var branches' := Deactivated(branches, b.sessionId) + [b];
    forall i | 0 <= i < |branches'|
      ensures branches'[i].active <==>
              forall j :: i < j < |branches'| ==> branches'[j].sessionId != branches'[i].sessionId
    {
      if i < |branches| {
        assert branches'[i].sessionId == branches[i].sessionId;
        if branches[i].sessionId == b.sessionId {
          assert branches'[|branches|].sessionId == branches'[i].sessionId;
        } else {
          assert forall j :: i < j < |branches| ==> branches'[j].sessionId == branches[j].sessionId;
        }
      }
    }
  }

  lemma {:induction false} StepKeepsInv(s: Store, op: Op)
    requires Inv(s) && Allowed(s, op)
    ensures Inv(Step(s, op))
  {
    if Perform(s, op).Ok? {
      match op
      case Create(_) =>
      case Append(_, _, _, _, _) =>
        AppendKeepsRows(s.events, NewRow(s, op));
        AppendKeepsTips(s, op);
      case Rollback(_, _) =>
      case MakeBranch(sid, base, name, id) =>
        MakeBranchKeepsBranches(s.branches, Branch(id, sid, Some(base), name, true));
    }
  }

  lemma {:induction false} RunKeepsInv(s: Store, ops: seq<Op>)
    requires Inv(s) && AllowedRun(s, ops)
    ensures Inv(Run(s, ops))
    decreases |ops|
  {
    if ops != [] {
      StepKeepsInv(s, ops[0]);
      RunKeepsInv(Step(s, ops[0]), ops[1..]);
    }
  }

  // ---------------------------------------------------------------- paths

  /** From the root to row i, by parent pointers. */
  function Path(events: seq<SessionEvent>, i: nat): (p: seq<SessionEvent>)
    requires i < |events|
    ensures p != [] && Last(p) == events[i]
  {
    var parent := events[i].parent;
    if parent.Some? && HasId(events, parent.value) && IndexOf(events, parent.value) < i
    then Path(events, IndexOf(events, parent.value)) + [events[i]]
    else [events[i]]
  }

  function PathTo(events: seq<SessionEvent>, id: Id): seq<SessionEvent>
    requires HasId(events, id)
  {
    Path(events, IndexOf(events, id))
  }

  /** A chain: it starts at a parentless event and each next event's parent is the one
      before; ids never repeat because numbers grow along it. */
  ghost predicate IsChain(p: seq<SessionEvent>, sid: string) {
    && p != [] && p[0].parent == None
    && (forall k :: 0 <= k < |p| ==> p[k].sessionId == sid)
    && (forall k :: 0 < k < |p| ==> p[k].parent == Some(p[k - 1].id))
    && (forall j, k :: 0 <= j < k < |p| ==> p[j].seqNo < p[k].seqNo && p[j].id != p[k].id)
  }

  /** Parents alone make a path linked, rooted and within its session. */
  lemma {:induction false} PathIsLinked(events: seq<SessionEvent>, i: nat)
    requires ParentsEarlier(events) && i < |events|
    ensures var p := Path(events, i);
            && p[0].parent == None
            && (forall k :: 0 < k < |p| ==> p[k].parent == Some(p[k - 1].id))
            && (forall k :: 0 <= k < |p| ==> p[k] in events && p[k].sessionId == events[i].sessionId)
  {
    if events[i].parent.Some? {
      var j := IndexOf(events, events[i].parent.value);
      assert EarlierKin(events, j, i);
      PathIsLinked(events, j);
    }
  }

  lemma {:induction false} PathIsChain(events: seq<SessionEvent>, i: nat)
    requires UniqueIds(events) && SeqGrows(events) && ParentsEarlier(events) && i < |events|
    ensures IsChain(Path(events, i), events[i].sessionId)
    ensures forall e :: e in Path(events, i) ==> e in events[..i + 1]
  {
    assert events[i] in events[..i + 1] by {
      assert events[..i + 1][i] == events[i];
    }
    if events[i].parent.Some? {
      var j := IndexOf(events, events[i].parent.value);
      assert EarlierKin(events, j, i);
      PathIsChain(events, j);
      LongerChain(events, j, i, Path(events, j));
    }
  }

  lemma RowsOneMore(events: seq<SessionEvent>, i: nat)
    requires i < |events|
    ensures |RowsOf(events[..i + 1], events[i].sessionId)| == |RowsOf(events[..i], events[i].sessionId)| + 1
  {
    assert events[..i + 1][..i] == events[..i];
  }

  /** A path is no longer than its session had rows when its last event was added. */
  lemma {:induction false} PathFits(events: seq<SessionEvent>, i: nat)
    requires ParentsEarlier(events) && i < |events|
    ensures |Path(events, i)| <= |RowsOf(events[..i + 1], events[i].sessionId)|
  {
    RowsOneMore(events, i);
    if events[i].parent.Some? {
      var j := IndexOf(events, events[i].parent.value);
      assert EarlierKin(events, j, i);
      PathFits(events, j);
      RowsMonotone(events, j + 1, i, events[i].sessionId);
    }
  }

  lemma PathFitsSession(events: seq<SessionEvent>, i: nat)
    requires ParentsEarlier(events) && i < |events|
    ensures |Path(events, i)| <= |RowsOf(events, events[i].sessionId)|
  {
    PathFits(events, i);
    RowsMonotone(events, i + 1, |events|, events[i].sessionId);
    assert events[..|events|] == events;
  }

  /** A chain of rows up to j, and a later child of its end. */
  lemma LongerChain(events: seq<SessionEvent>, j: nat, i: nat, p: seq<SessionEvent>)
    requires UniqueIds(events) && SeqGrows(events) && j < i < |events|
    requires IsChain(p, events[i].sessionId) && events[i].parent == Some(Last(p).id)
    requires forall e :: e in p ==> e in events[..j + 1]
    ensures IsChain(p + [events[i]], events[i].sessionId)
    ensures forall e :: e in p + [events[i]] ==> e in events[..i + 1]
  {
    forall k | 0 <= k < |p| ensures p[k].seqNo < events[i].seqNo && p[k].id != events[i].id {
      assert p[k] in p;
      InEarlierRow(events, j + 1, p[k], i);
    }
    ExtendChain(p, events[i]);
    assert events[..j + 1] <= events[..i];
  }

  lemma ExtendChain(p: seq<SessionEvent>, e: SessionEvent)
    requires IsChain(p, e.sessionId) && e.parent == Some(Last(p).id)
    requires forall k :: 0 <= k < |p| ==> p[k].seqNo < e.seqNo && p[k].id != e.id
    ensures IsChain(p + [e], e.sessionId)
  {
  }

  lemma InEarlierRow(events: seq<SessionEvent>, n: nat, e: SessionEvent, i: nat)
    requires UniqueIds(events) && SeqGrows(events)
    requires n <= i < |events| && e in events[..n] && e.sessionId == events[i].sessionId
    ensures e.seqNo < events[i].seqNo && e.id != events[i].id
  {
  }

  lemma {:induction false} RowsMonotone(events: seq<SessionEvent>, a: nat, b: nat, sid: string)
    requires a <= b <= |events|
    ensures |RowsOf(events[..a], sid)| <= |RowsOf(events[..b], sid)|
  {
    if a < b {
      assert events[..b][..b - 1] == events[..b - 1];
      RowsMonotone(events, a, b - 1, sid);
    }
  }

  /** Inserting a row changes no existing path... */
  lemma {:induction false} PathStable(events: seq<SessionEvent>, e: SessionEvent, i: nat)
    requires ParentsEarlier(events) && i < |events|
    ensures Path(events + [e], i) == Path(events, i)
  {
    if events[i].parent.Some? {
      IndexOfStable(events, e, events[i].parent.value);
      PathStable(events, e, IndexOf(events, events[i].parent.value));
    }
  }

  /** ...and the new row's path is its parent's path and itself. */
  lemma {:induction false} NewPath(events: seq<SessionEvent>, e: SessionEvent)
    requires ParentsEarlier(events) && !HasId(events, e.id)
    requires e.parent.Some? ==> HasId(events, e.parent.value)
    ensures HasId(events + [e], e.id)
    ensures PathTo(events + [e], e.id) == (if e.parent.None? then [] else PathTo(events, e.parent.value)) + [e]
  {
    var events' := events + [e];
    assert events'[|events|].id == e.id;
    assert IndexOf(events', e.id) == |events|;
    if e.parent.Some? {
      IndexOfStable(events, e, e.parent.value);
      PathStable(events, e, IndexOf(events, e.parent.value));
    }
  }

  // --------------------------------------------------------- main results

  /** Only a successful append changes the rows, by one at the end. */
  lemma {:induction false} StepAppends(s: Store, op: Op)
    ensures Step(s, op).events == if op.Append? && Perform(s, op).Ok? then s.events + [NewRow(s, op)] else s.events
  {
  }

  lemma {:induction false} StepKeepsHistory(s: Store, op: Op, i: nat)
    requires Inv(s) && i < |s.events|
    ensures s.events <= Step(s, op).events && Path(Step(s, op).events, i) == Path(s.events, i)
  {
    StepAppends(s, op);
    if op.Append? {
      PathStable(s.events, NewRow(s, op), i);
    }
  }

  /** Append-only: whatever happens, existing rows stay, in place, and so do their paths. */
  lemma {:induction false} HistoryIsStable(s: Store, ops: seq<Op>, i: nat)
    requires Inv(s) && AllowedRun(s, ops) && i < |s.events|
    ensures s.events <= Run(s, ops).events
    ensures Path(Run(s, ops).events, i) == Path(s.events, i)
    decreases |ops|
  {
    if ops != [] {
      StepKeepsInv(s, ops[0]);
      StepKeepsHistory(s, ops[0], i);
      HistoryIsStable(Step(s, ops[0]), ops[1..], i);
    }
  }

  lemma PathsAreChains(s: Store, i: nat)
    requires Inv(s) && i < |s.events|
    ensures IsChain(Path(s.events, i), s.events[i].sessionId)
    ensures Last(Path(s.events, i)) == s.events[i]
    ensures |Path(s.events, i)| <= |RowsOf(s.events, s.events[i].sessionId)|
  {
    PathIsChain(s.events, i);
    PathFitsSession(s.events, i);
  }

  /** In every reachable state every event's path is a chain from a root down to it. */
  lemma {:induction false} ReachablePathsAreChains(ops: seq<Op>, i: nat)
    requires AllowedRun(EMPTY_STORE, ops) && i < |Run(EMPTY_STORE, ops).events|
    ensures var events := Run(EMPTY_STORE, ops).events;
            && IsChain(Path(events, i), events[i].sessionId)
            && Last(Path(events, i)) == events[i]
            && |Path(events, i)| <= |RowsOf(events, events[i].sessionId)|
  {
    RunKeepsInv(EMPTY_STORE, ops);
    PathsAreChains(Run(EMPTY_STORE, ops), i);
  }

  function ActivePath(s: Store, sid: string): seq<SessionEvent> {
    match ActiveOf(s, sid)
    case None => []
    case Some(id) => if HasId(s.events, id) then PathTo(s.events, id) else []
  }

  /** An operation that, for session `sid`, is at most an append to the current tip. */
  predicate OnlyExtends(op: Op, sid: string) {
    op.Create? || op.sid != sid || (op.Append? && op.parent.None?)
  }

  lemma {:induction false} StepExtendsTip(s: Store, op: Op, sid: string)
    requires Inv(s) && Allowed(s, op) && OnlyExtends(op, sid)
    requires sid in s.sessions && ActiveOf(s, sid).Some?
    ensures sid in Step(s, op).sessions && ActiveOf(Step(s, op), sid).Some?
    ensures ActivePath(s, sid) <= ActivePath(Step(s, op), sid)
  {
    if Perform(s, op).Ok? && op.Append? {
      if op.sid == sid {
        OwnAppendExtends(s, op);
      } else {
        OtherAppendLeaves(s, op, sid);
      }
    }
  }

  lemma OwnAppendExtends(s: Store, op: Op)
    requires Inv(s) && op.Append? && op.parent.None? && Perform(s, op).Ok? && ActiveOf(s, op.sid).Some?
    ensures ActivePath(Step(s, op), op.sid) == ActivePath(s, op.sid) + [NewRow(s, op)]
  {
    NewPath(s.events, NewRow(s, op));
  }

  lemma OtherAppendLeaves(s: Store, op: Op, sid: string)
    requires Inv(s) && op.Append? && op.sid != sid && Perform(s, op).Ok? && ActiveOf(s, sid).Some?
    ensures ActivePath(Step(s, op), sid) == ActivePath(s, sid)
  {
    var tip := ActiveOf(s, sid).value;
    IndexOfStable(s.events, NewRow(s, op), tip);
    PathStable(s.events, NewRow(s, op), IndexOf(s.events, tip));
  }

  /** After the tip was moved to e, default appends only ever extend e's path, whatever
      other sessions do meanwhile. */
  lemma {:induction false} DefaultAppendsExtendTip(s: Store, ops: seq<Op>, sid: string, p: seq<SessionEvent>)
    requires Inv(s) && AllowedRun(s, ops)
    requires forall k :: 0 <= k < |ops| ==> OnlyExtends(ops[k], sid)
    requires sid in s.sessions && ActiveOf(s, sid).Some? && p <= ActivePath(s, sid)
    ensures p <= ActivePath(Run(s, ops), sid)
    decreases |ops|
  {
    if ops != [] {
      StepKeepsInv(s, ops[0]);
      StepExtendsTip(s, ops[0], sid);
      DefaultAppendsExtendTip(Step(s, ops[0]), ops[1..], sid, p);
    }
  }

  /** Rolling back to e and going on: e's path stays a prefix of the active path, and
      every abandoned event is still there. */
  lemma {:induction false} RollbackForks(s: Store, sid: string, id: Id, ops: seq<Op>)
    requires Inv(s) && InSession(s.events, sid, id) && sid in s.sessions
    requires AllowedRun(Step(s, Rollback(sid, id)), ops)
    requires forall k :: 0 <= k < |ops| ==> OnlyExtends(ops[k], sid)
    ensures var after := Run(Step(s, Rollback(sid, id)), ops);
            PathTo(s.events, id) <= ActivePath(after, sid) && s.events <= after.events
  {
    var s' := Step(s, Rollback(sid, id));
    StepKeepsInv(s, Rollback(sid, id));
    DefaultAppendsExtendTip(s', ops, sid, PathTo(s.events, id));
    HistoryIsStable(s', ops, IndexOf(s.events, id));
  }

  // ---------------------------------------------------------- one tree each

  /** How many parentless rows a session has. */
  function RootCount(events: seq<SessionEvent>, sid: string): nat {
    if events == [] then 0
    else RootCount(events[..|events| - 1], sid) + (if IsRoot(Last(events), sid) then 1 else 0)
  }

  predicate IsRoot(e: SessionEvent, sid: string) {
    e.sessionId == sid && e.parent == None
  }

  /** An append that names no parent while the session has no tip. */
  predicate StartsRoot(s: Store, op: Op, sid: string) {
    op.Append? && op.sid == sid && op.parent.None? && ActiveOf(s, sid).None? && Perform(s, op).Ok?
  }

  /** How many appends of the run do that. */
  function RootsStarted(s: Store, ops: seq<Op>, sid: string): nat
    decreases |ops|
  {
    if ops == [] then 0
    else (if StartsRoot(s, ops[0], sid) then 1 else 0) + RootsStarted(Step(s, ops[0]), ops[1..], sid)
  }

  lemma StepCountsRoots(s: Store, op: Op, sid: string)
    ensures RootCount(Step(s, op).events, sid) == RootCount(s.events, sid) + (if StartsRoot(s, op, sid) then 1 else 0)
  {
    if op.Append? && Perform(s, op).Ok? {
      assert (s.events + [NewRow(s, op)])[..|s.events|] == s.events;
    }
  }

  /** A session's parentless rows after a run are those before it and one for each append
      that named no parent while the session had no tip. */
  lemma {:induction false} RunCountsRoots(s: Store, ops: seq<Op>, sid: string)
    ensures RootCount(Run(s, ops).events, sid) == RootCount(s.events, sid) + RootsStarted(s, ops, sid)
    decreases |ops|
  {
    if ops != [] {
      StepCountsRoots(s, ops[0], sid);
      RunCountsRoots(Step(s, ops[0]), ops[1..], sid);
    }
  }

  /** A successful append keeps its session at one root at most exactly when a parent is
      named, the session has a tip, or it has no root yet. */
  lemma AppendKeepsOneRootIff(s: Store, op: Op)
    requires op.Append? && Perform(s, op).Ok? && RootCount(s.events, op.sid) <= 1
    ensures RootCount(Step(s, op).events, op.sid) <= 1 <==>
            op.parent.Some? || ActiveOf(s, op.sid).Some? || RootCount(s.events, op.sid) == 0
  {
    StepCountsRoots(s, op, op.sid);
  }

  lemma {:induction false} RootsCounted(events: seq<SessionEvent>, sid: string)
    ensures RootCount(events, sid) == 0 <==> forall i :: 0 <= i < |events| ==> !IsRoot(events[i], sid)
    ensures RootCount(events, sid) <= 1 <==>
            forall i, j :: 0 <= i < j < |events| ==> !(IsRoot(events[i], sid) && IsRoot(events[j], sid))
  {
    if events != [] {
      var front := events[..|events| - 1];
      RootsCounted(front, sid);
      assert forall i :: 0 <= i < |front| ==> events[i] == front[i];
    }
  }

  /** All paths of the session start at the same event. */
  ghost predicate OneTree(events: seq<SessionEvent>, sid: string)
    requires ParentsEarlier(events)
  {
    forall i, j ::
      0 <= i < |events| && 0 <= j < |events| && events[i].sessionId == sid && events[j].sessionId == sid ==>
        Path(events, i)[0] == Path(events, j)[0]
  }

  lemma RootOfPath(events: seq<SessionEvent>, i: nat)
    requires UniqueIds(events) && SeqGrows(events) && ParentsEarlier(events) && i < |events|
    ensures exists r :: 0 <= r < |events| && events[r] == Path(events, i)[0] && IsRoot(events[r], events[i].sessionId)
  {
    PathIsChain(events, i);
    assert Path(events, i)[0] in events[..i + 1];
  }

  lemma OneTreeIff(events: seq<SessionEvent>, sid: string)
    requires UniqueIds(events) && SeqGrows(events) && ParentsEarlier(events)
    ensures OneTree(events, sid) <==> RootCount(events, sid) <= 1
  {
    RootsCounted(events, sid);
    if RootCount(events, sid) <= 1 {
      forall i, j | 0 <= i < |events| && 0 <= j < |events| && events[i].sessionId == sid && events[j].sessionId == sid
        ensures Path(events, i)[0] == Path(events, j)[0]
      {
        RootOfPath(events, i);
        RootOfPath(events, j);
      }
    } else {
      var i, j :| 0 <= i < j < |events| && IsRoot(events[i], sid) && IsRoot(events[j], sid);
      assert Path(events, i) == [events[i]] && Path(events, j) == [events[j]];
    }
  }

  /** In every reachable state a session is one tree exactly when at most one append to it
      named no parent while it had no tip. */
  lemma {:induction false} SessionIsOneTreeIff(ops: seq<Op>, sid: string)
    requires AllowedRun(EMPTY_STORE, ops)
    ensures Inv(Run(EMPTY_STORE, ops))
    ensures OneTree(Run(EMPTY_STORE, ops).events, sid) <==> RootsStarted(EMPTY_STORE, ops, sid) <= 1
  {
    RunKeepsInv(EMPTY_STORE, ops);
    RunCountsRoots(EMPTY_STORE, ops, sid);
    OneTreeIff(Run(EMPTY_STORE, ops).events, sid);
  }

  /** Every append to `sid` in the run comes after the session's creation. */
  predicate CreatedBeforeUse(s: Store, ops: seq<Op>, sid: string)
    decreases |ops|
  {
    ops != [] ==>
      (ops[0].Append? && ops[0].sid == sid ==> sid in s.sessions) && CreatedBeforeUse(Step(s, ops[0]), ops[1..], sid)
  }

  lemma TipStays(s: Store, op: Op, sid: string)
    requires ActiveOf(s, sid).Some?
    ensures ActiveOf(Step(s, op), sid).Some?
  {
  }

  lemma {:induction false} NoRootOnceTipped(s: Store, ops: seq<Op>, sid: string)
    requires ActiveOf(s, sid).Some?
    ensures RootsStarted(s, ops, sid) == 0
    decreases |ops|
  {
    if ops != [] {
      TipStays(s, ops[0], sid);
      NoRootOnceTipped(Step(s, ops[0]), ops[1..], sid);
    }
  }

  lemma {:induction false} CreatedMeansOneRoot(s: Store, ops: seq<Op>, sid: string)
    requires CreatedBeforeUse(s, ops, sid)
    ensures RootsStarted(s, ops, sid) <= 1
    decreases |ops|
  {
    if ops != [] {
      if StartsRoot(s, ops[0], sid) {
        NoRootOnceTipped(Step(s, ops[0]), ops[1..], sid);
      } else {
        CreatedMeansOneRoot(Step(s, ops[0]), ops[1..], sid);
      }
    }
  }

  /** In particular a session created before its first append is one tree. */
  lemma {:induction false} SessionIsOneTree(ops: seq<Op>, sid: string)
    requires AllowedRun(EMPTY_STORE, ops) && CreatedBeforeUse(EMPTY_STORE, ops, sid)
    ensures Inv(Run(EMPTY_STORE, ops)) && OneTree(Run(EMPTY_STORE, ops).events, sid)
  {
    SessionIsOneTreeIff(ops, sid);
    CreatedMeansOneRoot(EMPTY_STORE, ops, sid);
  }

  /** Without that order the claim fails: two appends to a session nobody created leave two roots. */
  lemma AppendsBeforeCreateMakeTwoRoots()
    ensures var ops := [Append("s", None, "a", "message", ""), Append("s", None, "b", "message", "")];
            var events := Run(EMPTY_STORE, ops).events;
            && AllowedRun(EMPTY_STORE, ops)
            && |events| == 2 && events[0].sessionId == events[1].sessionId
            && Path(events, 0)[0] != Path(events, 1)[0]
  {
    var first, second := Append("s", None, "a", "message", ""), Append("s", None, "b", "message", "");
    var s1 := Step(EMPTY_STORE, first);
    assert s1.events == [NewRow(EMPTY_STORE, first)];
    var s2 := Step(s1, second);
    assert s2.events == [NewRow(EMPTY_STORE, first), NewRow(s1, second)];
    assert [first, second][1..] == [second];
    assert [second][1..] == [];
    assert Run(s1, [second]) == Run(s2, []);
    assert Run(EMPTY_STORE, [first, second]) == s2;
  }

  // -------------------------------------------------------------- branches

  /** In every reachable state a session has at most one active branch: its newest. */
  lemma {:induction false} AtMostOneActiveBranch(ops: seq<Op>, i: nat, j: nat)
    requires AllowedRun(EMPTY_STORE, ops)
    requires var bs := Run(EMPTY_STORE, ops).branches;
             i < |bs| && j < |bs| && bs[i].sessionId == bs[j].sessionId && bs[i].active
    ensures j <= i && (Run(EMPTY_STORE, ops).branches[j].active ==> i == j)
  {
    RunKeepsInv(EMPTY_STORE, ops);
    var bs := Run(EMPTY_STORE, ops).branches;
    assert LastBranchActive(bs);
  }

  /** Position of `id` on a path, if it is there. */
  predicate OnPath(p: seq<SessionEvent>, id: Id) {
    exists k :: 0 <= k < |p| && p[k].id == id
  }

  /** After branching off `base`, the active path runs through `base` while the session only extends. */
  lemma {:induction false} BranchStaysOnPath(s: Store, sid: string, base: Id, name: string, branchId: Id, ops: seq<Op>)
    requires Inv(s) && sid in s.sessions && Perform(s, MakeBranch(sid, base, name, branchId)).Ok?
    requires AllowedRun(Step(s, MakeBranch(sid, base, name, branchId)), ops)
    requires forall k :: 0 <= k < |ops| ==> OnlyExtends(ops[k], sid)
    ensures var p := ActivePath(Run(Step(s, MakeBranch(sid, base, name, branchId)), ops), sid);
            var n := |PathTo(s.events, base)|;
            1 <= n <= |p| && p[..n] == PathTo(s.events, base) && p[n - 1].id == base
  {
    var s' := Step(s, MakeBranch(sid, base, name, branchId));
    StepKeepsInv(s, MakeBranch(sid, base, name, branchId));
    DefaultAppendsExtendTip(s', ops, sid, PathTo(s.events, base));
  }
}

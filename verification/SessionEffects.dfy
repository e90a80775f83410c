/** What each operation on the session tables does and when it fails, in terms of its own
    arguments, and what that comes to over runs. */
module SessionEffects {
  import opened Common
  import opened SessionTree

  /** The table has this event in this session. */
  ghost predicate HasEvent(s: Store, sid: string, id: Id) {
    exists e :: e in s.events && e.id == id && e.sessionId == sid
  }

  lemma {:induction false} InSessionIff(s: Store, sid: string, id: Id)
    requires UniqueIds(s.events)
    ensures InSession(s.events, sid, id) <==> HasEvent(s, sid, id)
  {
    if InSession(s.events, sid, id) {
      assert s.events[IndexOf(s.events, id)] in s.events;
    }
    if e :| e in s.events && e.id == id && e.sessionId == sid {
      var i :| 0 <= i < |s.events| && s.events[i] == e;
    }
  }

  // ---------------------------------------------------------------- creating

  /** Creating makes a session without a tip, unless there is one of that name. */
  lemma {:induction false} CreateDoes(s: Store, sid: string)
    ensures match Perform(s, Create(sid))
            case Err(e) => sid in s.sessions && e == IntegrityError(sid)
            case Ok(s') =>
              && sid !in s.sessions
              && s'.events == s.events && s'.branches == s.branches
              && s'.sessions == s.sessions[sid := Session(None)]
  {
  }

  // --------------------------------------------------------------- appending

  /** An append inserts one row as asked, under the parent it names, or, naming none, under
      the session's tip; and the tip moves to it, if the session has a row to hold it. */
  lemma {:induction false} AppendDoes(s: Store, sid: string, parent: Option<Id>, id: Id, eventType: string,
                                      content: string)
    ensures match Perform(s, Append(sid, parent, id, eventType, content))
            case Err(e) => (exists x :: x in s.events && x.id == id) && e == IntegrityError(id)
            case Ok(s') =>
              && (forall x :: x in s.events ==> x.id != id)
              && s.events <= s'.events && |s'.events| == |s.events| + 1
              && s'.branches == s.branches && s'.sessions.Keys == s.sessions.Keys
              && (forall other :: other in s.sessions && other != sid ==> s'.sessions[other] == s.sessions[other])
              && (sid in s.sessions ==> s'.sessions[sid].active == Some(id))
              && var e := Last(s'.events);
                 && e.id == id && e.sessionId == sid && e.eventType == eventType && e.content == content
                 && e.parent == (if parent.Some? then parent
                                 else if sid in s.sessions then s.sessions[sid].active
                                 else None)
  {
    if HasId(s.events, id) {
      assert s.events[IndexOf(s.events, id)] in s.events;
    }
  }

  lemma {:induction false} AppendedPath(s: Store, op: Op)
    requires Inv(s) && Allowed(s, op) && op.Append? && Perform(s, op).Ok?
    ensures var s' := Step(s, op);
            var e := Last(s'.events);
            && HasId(s'.events, op.id) && IndexOf(s'.events, op.id) == |s.events|
            && (e.parent.Some? ==> HasId(s.events, e.parent.value))
            && PathTo(s'.events, op.id) == (if e.parent.None? then [] else PathTo(s.events, e.parent.value)) + [e]
  {
    NewPath(s.events, NewRow(s, op));
    assert Step(s, op).events[|s.events|].id == op.id;
  }

  /** Naming a parent forks there, wherever the tip is: the new event's path is the parent's
      path and itself, and it becomes the tip. */
  lemma {:induction false} AppendForksAtParent(s: Store, op: Op, q: Id)
    requires Inv(s) && Allowed(s, op) && op.Append? && op.parent == Some(q) && Perform(s, op).Ok?
    ensures var s' := Step(s, op);
            && HasId(s'.events, op.id) && HasId(s.events, q)
            && var e := s'.events[IndexOf(s'.events, op.id)];
               && e.id == op.id && e.sessionId == op.sid && e.eventType == op.eventType && e.content == op.content
               && e.parent == Some(q)
               && PathTo(s'.events, op.id) == PathTo(s.events, q) + [e]
               && (op.sid in s.sessions ==> ActiveOf(s', op.sid) == Some(op.id))
  {
    AppendDoes(s, op.sid, op.parent, op.id, op.eventType, op.content);
    AppendedPath(s, op);
  }

  /** Naming none continues the active path, or starts it. */
  lemma {:induction false} AppendContinuesTip(s: Store, op: Op)
    requires Inv(s) && op.Append? && op.parent == None && Perform(s, op).Ok? && op.sid in s.sessions
    ensures var s' := Step(s, op);
            && HasId(s'.events, op.id)
            && var e := s'.events[IndexOf(s'.events, op.id)];
               && e.id == op.id && e.sessionId == op.sid && e.eventType == op.eventType && e.content == op.content
               && ActivePath(s', op.sid) == ActivePath(s, op.sid) + [e]
               && ActiveOf(s', op.sid) == Some(op.id)
  {
    AppendDoes(s, op.sid, op.parent, op.id, op.eventType, op.content);
    AppendedPath(s, op);
  }

  // ------------------------------------------------- rolling back, branching

  /** A rollback only moves the tip, to an event of the session. */
  lemma {:induction false} RollbackDoes(s: Store, sid: string, id: Id)
    requires UniqueIds(s.events)
    ensures match Perform(s, Rollback(sid, id))
            case Err(e) =>
              if HasEvent(s, sid, id) then sid !in s.sessions && e == KeyError(sid) else e == KeyError(id)
            case Ok(s') =>
              && HasEvent(s, sid, id) && sid in s.sessions
              && s'.events == s.events && s'.branches == s.branches
              && s'.sessions == s.sessions[sid := Session(Some(id))]
  {
    InSessionIff(s, sid, id);
  }

  /** Branching adds one active branch at the end, leaves no other of the session active,
      and moves the tip to the base. */
  lemma {:induction false} BranchDoes(s: Store, sid: string, base: Id, name: string, branchId: Id)
    requires UniqueIds(s.events)
    ensures match Perform(s, MakeBranch(sid, base, name, branchId))
            case Err(e) =>
              if HasEvent(s, sid, base)
              then (exists b :: b in s.branches && b.id == branchId) && e == IntegrityError(branchId)
              else e == KeyError(base)
            case Ok(s') =>
              && HasEvent(s, sid, base) && s'.events == s.events
              && s'.sessions == (if sid in s.sessions then s.sessions[sid := Session(Some(base))] else s.sessions)
              && |s'.branches| == |s.branches| + 1
              && Last(s'.branches) == Branch(branchId, sid, Some(base), name, true)
              && forall i :: 0 <= i < |s.branches| ==>
                   var b, b' := s.branches[i], s'.branches[i];
                   && b'.id == b.id && b'.sessionId == b.sessionId && b'.base == b.base && b'.name == b.name
                   && b'.active == (b.active && b.sessionId != sid)
  {
    InSessionIff(s, sid, base);
    if i :| 0 <= i < |s.branches| && s.branches[i].id == branchId {
      assert s.branches[i] in s.branches;
    }
  }

  // --------------------------------------------------------------- over runs

  /** The event an operation moves its session's tip to. */
  function Target(op: Op): Option<Id> {
    match op
    case Create(_) => None
    case Append(_, _, id, _, _) => Some(id)
    case Rollback(_, id) => Some(id)
    case MakeBranch(_, base, _, _) => Some(base)
  }

  lemma {:induction false} StepMovesTip(s: Store, op: Op, sid: string)
    requires sid in s.sessions
    ensures sid in Step(s, op).sessions
    ensures ActiveOf(Step(s, op), sid) ==
            if Perform(s, op).Ok? && op.sid == sid then Target(op) else ActiveOf(s, sid)
  {
  }

  lemma {:induction false} TipStays(s: Store, ops: seq<Op>, sid: string)
    requires sid in s.sessions && forall j :: 0 <= j < |ops| ==> ops[j].Create? || ops[j].sid != sid
    ensures ActiveOf(Run(s, ops), sid) == ActiveOf(s, sid)
    decreases |ops|
  {
    if ops != [] {
      StepMovesTip(s, ops[0], sid);
      TipStays(Step(s, ops[0]), ops[1..], sid);
    }
  }

  /** A session's tip is where the last successful append, rollback or branching put it. */
  lemma {:induction false} TipIsLastMove(s: Store, op: Op, later: seq<Op>)
    requires !op.Create? && Perform(s, op).Ok? && op.sid in s.sessions
    requires forall j :: 0 <= j < |later| ==> later[j].Create? || later[j].sid != op.sid
    ensures ActiveOf(Run(s, [op] + later), op.sid) == Target(op)
  {
    assert ([op] + later)[1..] == later;
    StepMovesTip(s, op, op.sid);
    TipStays(Step(s, op), later, op.sid);
  }

  /** Each session's rows are numbered 1, 2, 3 and so on, whatever other sessions do. */
  ghost predicate Numbered(events: seq<SessionEvent>, sid: string) {
    forall k :: 0 <= k < |RowsOf(events, sid)| ==> RowsOf(events, sid)[k].seqNo == k + 1
  }

  lemma {:induction false} HighestIsCount(events: seq<SessionEvent>, sid: string)
    requires Numbered(events, sid)
    ensures MaxSeq(events, sid) == |RowsOf(events, sid)|
  {
    if events != [] {
      var front := events[..|events| - 1];
      var rows := RowsOf(events, sid);
      assert forall k :: 0 <= k < |RowsOf(front, sid)| ==> RowsOf(front, sid)[k] == rows[k];
      HighestIsCount(front, sid);
      if Last(events).sessionId == sid {
        assert rows[|rows| - 1] == Last(events);
      }
    }
  }

  lemma {:induction false} StepKeepsNumbered(s: Store, op: Op, sid: string)
    requires Numbered(s.events, sid)
    ensures Numbered(Step(s, op).events, sid)
  {
    StepAppends(s, op);
    HighestIsCount(s.events, sid);
    if op.Append? {
      assert (s.events + [NewRow(s, op)])[..|s.events|] == s.events;
    }
  }

  lemma {:induction false} RunKeepsNumbered(s: Store, ops: seq<Op>, sid: string)
    requires Numbered(s.events, sid)
    ensures Numbered(Run(s, ops).events, sid)
    decreases |ops|
  {
    if ops != [] {
      StepKeepsNumbered(s, ops[0], sid);
      RunKeepsNumbered(Step(s, ops[0]), ops[1..], sid);
    }
  }

  lemma {:induction false} NumbersAreContiguous(ops: seq<Op>, sid: string)
    ensures Numbered(Run(EMPTY_STORE, ops).events, sid)
  {
    RunKeepsNumbered(EMPTY_STORE, ops, sid);
  }
}

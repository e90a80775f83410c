/** The session store and branch manager over mutable tables, each operation proved to
    perform the specified one, with the guarded walk from an event back to its root. */
module SessionStore {
  import opened Common
  import opened SessionTree

  function Reversed(p: seq<SessionEvent>): (r: seq<SessionEvent>)
    ensures |r| == |p| && forall k :: 0 <= k < |p| ==> r[k] == p[|p| - 1 - k]
  {
    if p == [] then [] else Reversed(p[1..]) + [p[0]]
  }

  lemma ReversedAppend(p: seq<SessionEvent>, e: SessionEvent)
    ensures Reversed(p + [e]) == [e] + Reversed(p)
  {
  }

  /** Neighbours on the list are linked by parent pointers. */
  ghost predicate Linked(p: seq<SessionEvent>) {
    forall k :: 0 < k < |p| ==> p[k].parent == Some(p[k - 1].id)
  }

  lemma {:induction false} RowsOfMembers(events: seq<SessionEvent>, sid: string)
    ensures forall e :: e in RowsOf(events, sid) <==> e in events && e.sessionId == sid
  {
    if events != [] {
      RowsOfMembers(events[..|events| - 1], sid);
      assert events == events[..|events| - 1] + [Last(events)];
    }
  }

  // -------------------------------------------------------- ORDER BY seq

  ghost predicate BySeq(rows: seq<SessionEvent>) {
    forall i, j :: 0 <= i < j < |rows| ==> rows[i].seqNo <= rows[j].seqNo
  }

  /** Files a row after the rows that are not above it. */
  function FileBySeq(rows: seq<SessionEvent>, e: SessionEvent): (r: seq<SessionEvent>)
    ensures multiset(r) == multiset(rows) + multiset{e}
  {
    if rows == [] || Last(rows).seqNo <= e.seqNo then rows + [e]
    else
      assert rows == rows[..|rows| - 1] + [Last(rows)];
      FileBySeq(rows[..|rows| - 1], e) + [Last(rows)]
  }

  lemma {:induction false} FiledInOrder(rows: seq<SessionEvent>, e: SessionEvent)
    requires BySeq(rows)
    ensures BySeq(FileBySeq(rows, e))
  {
    if rows != [] && Last(rows).seqNo > e.seqNo {
      FiledInOrder(rows[..|rows| - 1], e);
      LastOnTop(rows, FileBySeq(rows[..|rows| - 1], e), e);
    }
  }

  lemma {:induction false} LastOnTop(rows: seq<SessionEvent>, r: seq<SessionEvent>, e: SessionEvent)
    requires rows != [] && BySeq(rows) && Last(rows).seqNo > e.seqNo
    requires BySeq(r) && multiset(r) == multiset(rows[..|rows| - 1]) + multiset{e}
    ensures BySeq(r + [Last(rows)])
  {
    forall k | 0 <= k < |r| ensures r[k].seqNo <= Last(rows).seqNo {
      assert r[k] in multiset(rows[..|rows| - 1]) + multiset{e};
    }
  }

  /** The session's rows, by number. */
  function SortedRowsOf(events: seq<SessionEvent>, sid: string): (r: seq<SessionEvent>)
    ensures multiset(r) == multiset(RowsOf(events, sid))
  {
    if events == [] then []
    else
      var r := SortedRowsOf(events[..|events| - 1], sid);
      if Last(events).sessionId == sid then FileBySeq(r, Last(events)) else r
  }

  lemma {:induction false} SortedInOrder(events: seq<SessionEvent>, sid: string)
    ensures BySeq(SortedRowsOf(events, sid))
  {
    if events != [] {
      SortedInOrder(events[..|events| - 1], sid);
      FiledInOrder(SortedRowsOf(events[..|events| - 1], sid), Last(events));
    }
  }

  /** Rows that were numbered as they were added are listed as they were added. */
  lemma {:induction false} SortedIfGrown(events: seq<SessionEvent>, sid: string)
    requires SeqGrows(events)
    ensures SortedRowsOf(events, sid) == RowsOf(events, sid)
  {
    if events != [] {
      var front := events[..|events| - 1];
      SortedIfGrown(front, sid);
      RowsOfMembers(front, sid);
      var rows := RowsOf(front, sid);
      if rows != [] && Last(events).sessionId == sid {
        assert Last(rows) in front;
      }
    }
  }

  lemma {:induction false} RowsOfUnique(events: seq<SessionEvent>, sid: string)
    requires UniqueIds(events)
    ensures UniqueIds(RowsOf(events, sid))
  {
    if events != [] {
      var front := events[..|events| - 1];
      RowsOfUnique(front, sid);
      RowsOfMembers(front, sid);
      var rows := RowsOf(front, sid);
      forall i | 0 <= i < |rows| ensures rows[i].id != Last(events).id {
        assert rows[i] in front;
      }
    }
  }

  lemma TwiceInMultiset(rows: seq<SessionEvent>, i: nat, j: nat)
    requires i < j < |rows| && rows[i] == rows[j]
    ensures multiset(rows)[rows[i]] >= 2
  {
    assert rows == rows[..j] + rows[j..];
    assert rows[..j][i] in rows[..j] && rows[j..][0] in rows[j..];
  }

  lemma {:induction false} OnceInMultiset(rows: seq<SessionEvent>, e: SessionEvent)
    requires UniqueIds(rows)
    ensures multiset(rows)[e] <= 1
  {
    if rows != [] {
      var front := rows[..|rows| - 1];
      OnceInMultiset(front, e);
      assert rows == front + [Last(rows)];
    }
  }

  /** Reordering rows keeps their ids distinct. */
  lemma UniquePermuted(a: seq<SessionEvent>, b: seq<SessionEvent>)
    requires UniqueIds(a) && multiset(a) == multiset(b)
    ensures UniqueIds(b)
  {
    forall i, j | 0 <= i < j < |b| ensures b[i].id != b[j].id {
      assert b[i] in multiset(a) && b[j] in multiset(a);
      if b[i] == b[j] {
        TwiceInMultiset(b, i, j);
        OnceInMultiset(a, b[i]);
      }
    }
  }

  lemma SameSize(a: seq<SessionEvent>, b: seq<SessionEvent>)
    requires multiset(a) == multiset(b)
    ensures |a| == |b| && forall e :: e in a <==> e in b
  {
    assert |multiset(a)| == |multiset(b)|;
    assert forall e :: e in a <==> e in multiset(a);
    assert forall e :: e in b <==> e in multiset(b);
  }

  /** Keys the rows by their ids. */
  method KeyById(rows: seq<SessionEvent>) returns (byId: map<Id, SessionEvent>)
    requires UniqueIds(rows)
    ensures forall e :: e in rows ==> e.id in byId && byId[e.id] == e
    ensures forall id :: id in byId ==> byId[id] in rows && byId[id].id == id
    ensures |byId| == |rows|
  {
    byId := map[];
    for k := 0 to |rows|
      invariant |byId| == k
      invariant forall i :: 0 <= i < k ==> rows[i].id in byId && byId[rows[i].id] == rows[i]
      invariant forall id :: id in byId ==> exists i :: 0 <= i < k && byId[id] == rows[i] && rows[i].id == id
    {
      assert rows[k].id !in byId;
      byId := byId[rows[k].id := rows[k]];
    }
  }

  /** `full` leads from a parentless event to `id`, within the keyed events. */
  ghost predicate WholeChain(byId: map<Id, SessionEvent>, full: seq<SessionEvent>, id: Id) {
    && full != [] && full[0].parent == None && Last(full).id == id
    && Linked(full) && |full| <= |byId|
    && forall k :: 0 <= k < |full| ==> full[k].id in byId && byId[full[k].id] == full[k]
  }

  /** The loop: follows parent pointers while the guard lasts.  If there is a whole chain
      to `id`, it is what the loop returns. */
  method Walk(byId: map<Id, SessionEvent>, id: Id, ghost full: seq<SessionEvent>) returns (r: seq<SessionEvent>)
    requires id in byId && forall k :: k in byId ==> byId[k].id == k
    ensures Linked(r) && 1 <= |r| <= |byId| + 1 && Last(r).id == id
    ensures WholeChain(byId, full, id) ==> r == full
  {
    var path: seq<SessionEvent> := [];
    var cur: Option<Id> := Some(id);
    var guard := |byId| + 1;
    while cur.Some? && guard > 0
      invariant guard >= 0 && |path| + guard == |byId| + 1
      invariant Linked(Reversed(path))
      invariant if path == [] then cur == Some(id) else path[0].id == id && cur == Last(path).parent
      invariant WholeChain(byId, full, id) ==>
                  && |path| <= |full| && Reversed(path) == full[|full| - |path|..]
                  && cur == if |path| == |full| then None else Some(full[|full| - |path| - 1].id)
      decreases guard
    {
      if cur.value !in byId {
        break;
      }
      var node := byId[cur.value];
      ReversedAppend(path, node);
      path := path + [node];
      cur := node.parent;
      guard := guard - 1;
    }
    r := Reversed(path);
  }

  lemma RowWithId(events: seq<SessionEvent>, sid: string, id: Id)
    requires UniqueIds(events)
    ensures InSession(events, sid, id) ==> events[IndexOf(events, id)] in RowsOf(events, sid)
    ensures forall e :: e in RowsOf(events, sid) && e.id == id ==>
            InSession(events, sid, id) && e == events[IndexOf(events, id)]
  {
    RowsOfMembers(events, sid);
    forall e | e in RowsOf(events, sid) && e.id == id
      ensures InSession(events, sid, id) && e == events[IndexOf(events, id)]
    {
      var i :| 0 <= i < |events| && events[i] == e;
    }
  }

  lemma PathIsWholeChain(events: seq<SessionEvent>, sid: string, id: Id, byId: map<Id, SessionEvent>)
    requires ParentsEarlier(events) && InSession(events, sid, id)
    requires forall e :: e in RowsOf(events, sid) ==> e.id in byId && byId[e.id] == e
    requires |byId| == |RowsOf(events, sid)|
    ensures WholeChain(byId, PathTo(events, id), id)
  {
    var t := IndexOf(events, id);
    var full := Path(events, t);
    PathIsLinked(events, t);
    PathFitsSession(events, t);
    RowsOfMembers(events, sid);
    forall k | 0 <= k < |full| ensures full[k].id in byId && byId[full[k].id] == full[k] {
      assert full[k] in events && full[k].sessionId == sid;
    }
  }

  class SessionDatabase {
    var sessions: map<string, Session>
    var events: seq<SessionEvent>
    var branches: seq<Branch>

    ghost function View(): Store
      reads this
    {
      Store(sessions, events, branches)
    }

    constructor ()
      ensures View() == EMPTY_STORE
    {
      sessions, events, branches := map[], [], [];
    }

    method CreateSession(sid: string) returns (r: Result<(), Error>)
      modifies this
      ensures View() == Step(old(View()), Create(sid))
      ensures r.Ok? <==> Perform(old(View()), Create(sid)).Ok?
      ensures r.Err? ==> Perform(old(View()), Create(sid)) == Err(r.error)
    {
      if sid in sessions {
        return Err(IntegrityError(sid));
      }
      sessions := sessions[sid := Session(None)];
      r := Ok(());
    }

    method SetActiveEventId(sid: string, id: Id) returns (found: bool)
      modifies this`sessions
      ensures View() == SetActive(old(View()), sid, id)
      ensures found <==> sid in old(sessions)
    {
      found := sid in sessions;
      if found {
        sessions := sessions[sid := Session(Some(id))];
      }
    }

    /** `max(seq) + 1` over the session's rows. */
    method NextSeq(sid: string) returns (n: nat)
      ensures n == MaxSeq(events, sid) + 1
    {
      var m := 0;
      for i := 0 to |events|
        invariant m == MaxSeq(events[..i], sid)
      {
        assert events[..i + 1][..i] == events[..i];
        if events[i].sessionId == sid && events[i].seqNo > m {
          m := events[i].seqNo;
        }
      }
      assert events[..|events|] == events;
      n := m + 1;
    }

    method AppendEvent(sid: string, parent: Option<Id>, id: Id, eventType: string, content: string)
      returns (r: Result<SessionEvent, Error>)
      modifies this
      ensures var op := Append(sid, parent, id, eventType, content);
              && View() == Step(old(View()), op)
              && r == if HasId(old(events), id) then Err(IntegrityError(id)) else Ok(NewRow(old(View()), op))
      ensures r.Ok? ==>
                && events == old(events) + [r.value] && r.value.id == id && r.value.sessionId == sid
                && r.value.eventType == eventType && r.value.content == content
                && (parent.Some? ==> r.value.parent == parent)
                && (sid in sessions ==> sessions[sid].active == Some(id))
    {
      var p := parent;
      if p.None? {
        p := if sid in sessions then sessions[sid].active else None;
      }
      var n := NextSeq(sid);
      if HasId(events, id) {
        return Err(IntegrityError(id));
      }
      var event := SessionEvent(id, sid, p, n, eventType, content);
      events := events + [event];
      var _ := SetActiveEventId(sid, id);
      r := Ok(event);
    }

    /** The session's rows by number; in the order they were added when that is how they
        were numbered. */
    method ListSessionEvents(sid: string) returns (rows: seq<SessionEvent>)
      ensures multiset(rows) == multiset(RowsOf(events, sid)) && BySeq(rows)
      ensures forall e :: e in rows <==> e in events && e.sessionId == sid
      ensures SeqGrows(events) ==> rows == RowsOf(events, sid)
    {
      rows := SortedRowsOf(events, sid);
      SortedInOrder(events, sid);
      RowsOfMembers(events, sid);
      SameSize(rows, RowsOf(events, sid));
      if SeqGrows(events) {
        SortedIfGrown(events, sid);
      }
    }

    /** The guarded walk.  Whatever the parent pointers are, it stops with at most one
        event more than the session has, linked and ending at the event asked for.  When
        parents are earlier rows it returns the whole path from the root, so the guard
        never cuts it short. */
    method GetEventPath(sid: string, id: Id) returns (r: Result<seq<SessionEvent>, Error>)
      requires UniqueIds(events)
      ensures r.Err? <==> !InSession(events, sid, id)
      ensures r.Err? ==> r.error == KeyError(id)
      ensures r.Ok? ==> Linked(r.value) && 1 <= |r.value| <= |RowsOf(events, sid)| + 1 && Last(r.value).id == id
      ensures r.Ok? && ParentsEarlier(events) ==> r.value == PathTo(events, id)
    {
      var byId := RowsById(sid);
      RowWithId(events, sid, id);
      if id !in byId {
        return Err(KeyError(id));
      }
      if ParentsEarlier(events) {
        PathIsWholeChain(events, sid, id, byId);
      }
      var path := Walk(byId, id, PathTo(events, id));
      r := Ok(path);
    }

    method RowsById(sid: string) returns (byId: map<Id, SessionEvent>)
      requires UniqueIds(events)
      ensures forall e :: e in RowsOf(events, sid) ==> e.id in byId && byId[e.id] == e
      ensures forall id :: id in byId ==> byId[id] in RowsOf(events, sid) && byId[id].id == id
      ensures |byId| == |RowsOf(events, sid)|
    {
      var rows := ListSessionEvents(sid);
      RowsOfUnique(events, sid);
      UniquePermuted(RowsOf(events, sid), rows);
      SameSize(RowsOf(events, sid), rows);
      byId := KeyById(rows);
    }

    method GetActivePath(sid: string) returns (path: seq<SessionEvent>)
      requires Inv(View())
      ensures path == ActivePath(View(), sid)
    {
      if sid !in sessions || sessions[sid].active.None? {
        return [];
      }
      var r := GetEventPath(sid, sessions[sid].active.value);
      path := r.value;
    }

    // ------------------------------------------------------ branch manager

    method RollbackToEvent(sid: string, id: Id) returns (r: Result<Id, Error>)
      modifies this`sessions
      ensures View() == Step(old(View()), Rollback(sid, id))
      ensures match Perform(old(View()), Rollback(sid, id))
              case Ok(_) => r == Ok(id)
              case Err(e) => r == Err(e)
    {
      if !HasId(events, id) || events[IndexOf(events, id)].sessionId != sid {
        return Err(KeyError(id));
      }
      var found := SetActiveEventId(sid, id);
      r := if found then Ok(id) else Err(KeyError(sid));
    }

    /** Leaves no branch of the session active. */
    method DeactivateAll(sid: string)
      modifies this`branches
      ensures branches == Deactivated(old(branches), sid)
    {
      for i := 0 to |branches|
        invariant |branches| == |old(branches)|
        invariant forall j :: 0 <= j < i ==> branches[j] == Deactivated(old(branches), sid)[j]
        invariant forall j :: i <= j < |branches| ==> branches[j] == old(branches)[j]
      {
        if branches[i].sessionId == sid && branches[i].active {
          branches := branches[i := branches[i].(active := false)];
        }
      }
    }

    method CreateBranch(sid: string, base: Id, name: string, branchId: Id) returns (r: Result<Branch, Error>)
      modifies this
      ensures View() == Step(old(View()), MakeBranch(sid, base, name, branchId))
      ensures match Perform(old(View()), MakeBranch(sid, base, name, branchId))
              case Ok(_) => r == Ok(Branch(branchId, sid, Some(base), name, true))
              case Err(e) => r == Err(e)
    {
      if !HasId(events, base) || events[IndexOf(events, base)].sessionId != sid {
        return Err(KeyError(base));
      }
      if exists i :: 0 <= i < |branches| && branches[i].id == branchId {
        return Err(IntegrityError(branchId));
      }
      DeactivateAll(sid);
      var branch := Branch(branchId, sid, Some(base), name, true);
      branches := branches + [branch];
      var _ := SetActiveEventId(sid, base);
      r := Ok(branch);
    }

    /** The session's active branch is unique, so `first()` is well defined. */
    method GetActiveBranch(sid: string) returns (r: Option<Branch>)
      requires Inv(View())
      ensures r.Some? ==> r.value in branches && r.value.sessionId == sid && r.value.active
      ensures r.None? <==> forall b :: b in branches ==> b.sessionId != sid
      ensures r.Some? ==> exists i :: 0 <= i < |branches| && branches[i] == r.value
                                      && forall j :: i < j < |branches| ==> branches[j].sessionId != sid
    {
      r := None;
      for i := 0 to |branches|
        invariant r == None
        invariant forall j :: 0 <= j < i ==> branches[j].sessionId != sid || !branches[j].active
      {
        if branches[i].sessionId == sid && branches[i].active {
          return Some(branches[i]);
        }
      }
      forall k | 0 <= k < |branches| ensures branches[k].sessionId != sid {
        if branches[k].sessionId == sid {
          LastOfSession(branches, sid, k);
        }
      }
    }

    /** The part of the active path from the branch base on; empty when the base is not on
        it.  The branch is looked up first; a session row that does not exist has no tip to
        read. */
    method GetBranchPath(sid: string, branchId: Id) returns (r: Result<seq<SessionEvent>, Error>)
      requires Inv(View())
      ensures match FindBranch(branches, branchId)
              case None => r == Err(KeyError(branchId))
              case Some(b) =>
                if b.sessionId != sid then r == Err(KeyError(branchId))
                else if sid !in sessions then r == Err(AttributeError(sid))
                else r.Ok? && IsPartFrom(r.value, ActivePath(View(), sid), b.base)
    {
      var found := FindBranch(branches, branchId);
      if found.None? || found.value.sessionId != sid {
        return Err(KeyError(branchId));
      }
      if sid !in sessions {
        return Err(AttributeError(sid));
      }
      var part := ActivePathFrom(sid, found.value.base);
      r := Ok(part);
    }

    method ActivePathFrom(sid: string, base: Option<Id>) returns (part: seq<SessionEvent>)
      requires Inv(View()) && sid in sessions
      ensures IsPartFrom(part, ActivePath(View(), sid), base)
    {
      if sessions[sid].active.None? {
        return [];
      }
      var got := GetEventPath(sid, sessions[sid].active.value);
      part := TrimTo(got.value, base);
    }
  }

  /** Lookup of a branch by its id. */
  function FindBranch(branches: seq<Branch>, id: Id): (r: Option<Branch>)
    ensures r.None? <==> forall b :: b in branches ==> b.id != id
    ensures r.Some? ==> r.value in branches && r.value.id == id
  {
    if branches == [] then None
    else if branches[0].id == id then Some(branches[0])
    else FindBranch(branches[1..], id)
  }

  /** `part` is the suffix of `full` that starts at `base`; all of it without a base;
      nothing if `base` is not on it. */
  ghost predicate IsPartFrom(part: seq<SessionEvent>, full: seq<SessionEvent>, base: Option<Id>) {
    if base.None? then part == full
    else if OnPath(full, base.value)
    then part != [] && part[0].id == base.value && |part| <= |full| && part == full[|full| - |part|..]
    else part == []
  }

  method TrimTo(full: seq<SessionEvent>, base: Option<Id>) returns (part: seq<SessionEvent>)
    ensures IsPartFrom(part, full, base)
  {
    if base.None? {
      return full;
    }
    for k := 0 to |full|
      invariant forall j :: 0 <= j < k ==> full[j].id != base.value
    {
      if full[k].id == base.value {
        return full[k..];
      }
    }
    part := [];
  }

  lemma {:induction false} LastOfSession(branches: seq<Branch>, sid: string, k: nat)
    requires LastBranchActive(branches) && k < |branches| && branches[k].sessionId == sid
    ensures exists i :: k <= i < |branches| && branches[i].sessionId == sid && branches[i].active
    decreases |branches| - k
  {
    if j :| k < j < |branches| && branches[j].sessionId == sid {
      LastOfSession(branches, sid, j);
    } else {
      assert branches[k].active;
    }
  }
}

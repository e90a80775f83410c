/** The unbounded event log, and what a bounded ring buffer and a session's
    subscriber should see of it.  Sequence numbers start at 1, so the event at
    position i of the log carries number i + 1. */
module EventLog {
  import opened Common

  datatype Event = Event(id: string, kind: string, topic: string, sessionId: Option<string>, payload: string)

  datatype BufferedEvent = BufferedEvent(seqNo: nat, event: Event)

  function Tagged(log: seq<Event>): (t: seq<BufferedEvent>)
    ensures |t| == |log|
    ensures forall i :: 0 <= i < |log| ==> t[i] == BufferedEvent(i + 1, log[i])
  {
    seq(|log|, i requires 0 <= i < |log| => BufferedEvent(i + 1, log[i]))
  }

  /** How many of the oldest events a buffer of `maxlen` has lost after `n` appends. */
  function Evicted(n: nat, maxlen: nat): nat {
    if n <= maxlen then 0 else n - maxlen
  }

  /** The last `min(maxlen, |log|)` events. */
  function Window(log: seq<Event>, maxlen: nat): seq<BufferedEvent> {
    Tagged(log)[Evicted(|log|, maxlen)..]
  }

  /** `deque.append` on a deque of bounded length. */
  function PushBounded(maxlen: nat, buffer: seq<BufferedEvent>, b: BufferedEvent): seq<BufferedEvent> {
    if maxlen == 0 then []
    else if |buffer| < maxlen then buffer + [b]
    else if buffer == [] then [b]
    else buffer[1..] + [b]
  }

  /** The events numbered above the cursor, in order. */
  function AboveCursor(s: seq<BufferedEvent>, cursor: int): seq<BufferedEvent> {
    if s == [] then []
    else AboveCursor(s[..|s| - 1], cursor) + (if Last(s).seqNo > cursor then [Last(s)] else [])
  }

  /** The events of one session, in order. */
  function ForSession(s: seq<BufferedEvent>, sid: string): seq<BufferedEvent> {
    if s == [] then []
    else ForSession(s[..|s| - 1], sid) + (if Last(s).event.sessionId == Some(sid) then [Last(s)] else [])
  }

  function Clamp(cursor: int, n: nat): (k: nat)
    ensures k <= n
  {
    if cursor < 0 then 0 else if cursor > n then n else cursor
  }

  /** Everything the log holds above `cursor`. */
  function Suffix(log: seq<Event>, cursor: int): seq<BufferedEvent> {
    Tagged(log)[Clamp(cursor, |log|)..]
  }

  /** Everything the log holds above `cursor` for one session. */
  function Since(log: seq<Event>, cursor: int, sid: string): seq<BufferedEvent> {
    ForSession(Suffix(log, cursor), sid)
  }

  /** `b` is one of the session's events in the log, numbered above `cursor`. */
  ghost predicate IsDue(log: seq<Event>, cursor: int, sid: string, b: BufferedEvent) {
    1 <= b.seqNo <= |log| && b.event == log[b.seqNo - 1] && b.seqNo > cursor && b.event.sessionId == Some(sid)
  }

  ghost predicate Increasing(s: seq<BufferedEvent>) {
    forall i, j :: 0 <= i < j < |s| ==> s[i].seqNo < s[j].seqNo
  }

  // ---------------------------------------------------------------- filters

  lemma {:induction false} AboveCursorAppend(a: seq<BufferedEvent>, b: seq<BufferedEvent>, cursor: int)
    ensures AboveCursor(a + b, cursor) == AboveCursor(a, cursor) + AboveCursor(b, cursor)
  {
    if b == [] {
      assert a + b == a;
    } else {
      assert (a + b)[..|a + b| - 1] == a + b[..|b| - 1];
      AboveCursorAppend(a, b[..|b| - 1], cursor);
    }
  }

  lemma {:induction false} ForSessionAppend(a: seq<BufferedEvent>, b: seq<BufferedEvent>, sid: string)
    ensures ForSession(a + b, sid) == ForSession(a, sid) + ForSession(b, sid)
  {
    if b == [] {
      assert a + b == a;
    } else {
      assert (a + b)[..|a + b| - 1] == a + b[..|b| - 1];
      ForSessionAppend(a, b[..|b| - 1], sid);
    }
  }

  lemma {:induction false} ForSessionMembers(s: seq<BufferedEvent>, sid: string)
    ensures forall b :: b in ForSession(s, sid) <==> b in s && b.event.sessionId == Some(sid)
  {
    if s != [] {
      ForSessionMembers(s[..|s| - 1], sid);
      assert s == s[..|s| - 1] + [Last(s)];
    }
  }

  lemma {:induction false} ForSessionIncreasing(s: seq<BufferedEvent>, sid: string)
    requires Increasing(s)
    ensures Increasing(ForSession(s, sid))
  {
    if s != [] {
      ForSessionIncreasing(s[..|s| - 1], sid);
      ForSessionMembers(s[..|s| - 1], sid);
      var f := ForSession(s[..|s| - 1], sid);
      forall i | 0 <= i < |f| ensures f[i].seqNo < Last(s).seqNo {
        assert f[i] in s[..|s| - 1];
      }
    }
  }

  /** On a contiguously numbered list, filtering by cursor is slicing. */
  lemma {:induction false} AboveCursorIsSlice(t: seq<BufferedEvent>, lo: nat, hi: nat, cursor: int)
    requires lo <= hi <= |t|
    requires forall i :: 0 <= i < |t| ==> t[i].seqNo == i + 1
    ensures AboveCursor(t[lo..hi], cursor) == t[Max(lo, Clamp(cursor, hi))..hi]
    decreases hi
  {
    if lo < hi {
      var last := t[hi - 1];
      assert t[lo..hi] == t[lo..hi - 1] + [last];
      AboveCursorIsSlice(t, lo, hi - 1, cursor);
      AboveCursorOneMore(t[lo..hi - 1], last, cursor);
      if cursor < hi {
        var k := Max(lo, Clamp(cursor, hi));
        assert k == Max(lo, Clamp(cursor, hi - 1));
        assert t[k..hi] == t[k..hi - 1] + [last];
      }
    }
  }

  lemma {:induction false} AboveCursorOneMore(s: seq<BufferedEvent>, b: BufferedEvent, cursor: int)
    ensures AboveCursor(s + [b], cursor) == AboveCursor(s, cursor) + (if b.seqNo > cursor then [b] else [])
  {
  }

  // ------------------------------------------------------ the ring buffer

  /** Appending to the bounded deque keeps it equal to the window of the unbounded log. */
  lemma {:induction false} WindowAfterPush(log: seq<Event>, maxlen: nat, e: Event)
    ensures Window(log + [e], maxlen) == PushBounded(maxlen, Window(log, maxlen), BufferedEvent(|log| + 1, e))
  {
    assert Tagged(log + [e]) == Tagged(log) + [BufferedEvent(|log| + 1, e)];
  }

  /** A window is contiguous, as long as allowed, and ends at the newest number. */
  lemma WindowIsContiguous(log: seq<Event>, maxlen: nat)
    ensures |Window(log, maxlen)| == Min(maxlen, |log|)
    ensures forall i :: 0 <= i < |Window(log, maxlen)| ==>
              var n := |log| - |Window(log, maxlen)| + i + 1;
              Window(log, maxlen)[i] == BufferedEvent(n, log[n - 1])
  {
  }

  /** Replaying the buffer above a cursor gives the log's suffix above the larger
      of the cursor and the last evicted number. */
  lemma ReplayIsSuffix(log: seq<Event>, maxlen: nat, cursor: int)
    ensures AboveCursor(Window(log, maxlen), cursor) == Suffix(log, Max(cursor, Evicted(|log|, maxlen)))
  {
    assert Tagged(log)[Evicted(|log|, maxlen)..] == Tagged(log)[Evicted(|log|, maxlen)..|log|];
    AboveCursorIsSlice(Tagged(log), Evicted(|log|, maxlen), |log|, cursor);
  }

  // ------------------------------------------------- what `Since` contains

  lemma SinceAfterPublish(log: seq<Event>, e: Event, cursor: int, sid: string)
    ensures Since(log + [e], cursor, sid) ==
            Since(log, cursor, sid) +
            (if |log| + 1 > cursor && e.sessionId == Some(sid) then [BufferedEvent(|log| + 1, e)] else [])
  {
    var b := BufferedEvent(|log| + 1, e);
    assert Tagged(log + [e]) == Tagged(log) + [b];
    if |log| + 1 > cursor {
      assert Suffix(log + [e], cursor) == Suffix(log, cursor) + [b];
      ForSessionAppend(Suffix(log, cursor), [b], sid);
      assert [b][..0] == [];
    } else {
      assert Suffix(log + [e], cursor) == [] == Suffix(log, cursor);
    }
  }

  lemma SuffixExact(log: seq<Event>, cursor: int, b: BufferedEvent)
    ensures b in Suffix(log, cursor) <==> 1 <= b.seqNo <= |log| && b.event == log[b.seqNo - 1] && b.seqNo > cursor
  {
  }

  /** `Since` holds exactly the session's events above the cursor... */
  lemma SinceExact(log: seq<Event>, cursor: int, sid: string, b: BufferedEvent)
    ensures b in Since(log, cursor, sid) <==> IsDue(log, cursor, sid, b)
  {
    ForSessionMembers(Suffix(log, cursor), sid);
    SuffixExact(log, cursor, b);
  }

  /** ...once each, in order. */
  lemma SinceIncreasing(log: seq<Event>, cursor: int, sid: string)
    ensures Increasing(Since(log, cursor, sid))
  {
    ForSessionIncreasing(Suffix(log, cursor), sid);
  }

  lemma LastIsGreatest(s: seq<BufferedEvent>, x: BufferedEvent)
    requires Increasing(s) && x in s
    ensures x == Last(s) || x.seqNo < Last(s).seqNo
  {
  }

  lemma InFront(s: seq<BufferedEvent>, x: BufferedEvent)
    requires s != [] && Increasing(s)
    ensures x in s[..|s| - 1] <==> x in s && x != Last(s)
  {
  }

  /** Two increasing sequences with the same members are the same sequence. */
  lemma {:induction false} IncreasingUnique(a: seq<BufferedEvent>, b: seq<BufferedEvent>)
    requires Increasing(a) && Increasing(b)
    requires forall x :: x in a <==> x in b
    ensures a == b
  {
    assert b != [] ==> Last(b) in b;
    if a != [] {
      assert Last(a) in b;
      LastIsGreatest(b, Last(a));
      LastIsGreatest(a, Last(b));
      var a', b' := a[..|a| - 1], b[..|b| - 1];
      forall z ensures z in a' <==> z in b' {
        InFront(a, z);
        InFront(b, z);
      }
      IncreasingUnique(a', b');
      assert a == a[..|a| - 1] + [Last(a)];
    }
  }

  /** A prefix of what is due holds exactly what is due up to the prefix's last number. */
  lemma PrefixExact(log: seq<Event>, cursor: int, sid: string, p: seq<BufferedEvent>, x: BufferedEvent)
    requires p != [] && IsPrefix(p, Since(log, cursor, sid))
    ensures x in p <==> IsDue(log, cursor, sid, x) && x.seqNo <= Last(p).seqNo
  {
    var full := Since(log, cursor, sid);
    SinceIncreasing(log, cursor, sid);
    SinceExact(log, cursor, sid, x);
    AfterPosition(full, |p|, x);
    assert full == p + full[|p|..];
    assert Last(p) == full[|p| - 1];
    if x in p {
      var i :| 0 <= i < |p| && p[i] == x;
      assert full[i] == x;
    }
  }

  lemma AfterPosition(s: seq<BufferedEvent>, k: nat, x: BufferedEvent)
    requires Increasing(s) && 0 < k <= |s|
    ensures x in s[k..] <==> x in s && x.seqNo > s[k - 1].seqNo
  {
  }

  /** The session has an event numbered above `cursor` and up to `w`. */
  predicate HasBetween(log: seq<Event>, cursor: int, w: int, sid: string) {
    exists i :: 0 <= i < |log| && cursor < i + 1 <= w && log[i].sessionId == Some(sid)
  }

  lemma LostBetween(log: seq<Event>, cursor: int, w: int, sid: string)
    requires HasBetween(log, cursor, w, sid)
    ensures Since(log, Max(cursor, w), sid) != Since(log, cursor, sid)
  {
    var i :| 0 <= i < |log| && cursor < i + 1 <= w && log[i].sessionId == Some(sid);
    SinceExact(log, cursor, sid, BufferedEvent(i + 1, log[i]));
    SinceExact(log, Max(cursor, w), sid, BufferedEvent(i + 1, log[i]));
  }

  lemma SameAbove(log: seq<Event>, cursor: int, w: int, sid: string, x: BufferedEvent)
    requires !HasBetween(log, cursor, w, sid)
    ensures x in Since(log, Max(cursor, w), sid) <==> x in Since(log, cursor, sid)
  {
    SinceExact(log, cursor, sid, x);
    SinceExact(log, Max(cursor, w), sid, x);
    if 1 <= x.seqNo <= |log| && x.event == log[x.seqNo - 1] && cursor < x.seqNo <= w {
      assert log[x.seqNo - 1].sessionId != Some(sid);
    }
  }

  /** Raising the cursor to `w` loses nothing exactly when the session has no event in between. */
  lemma NothingLostIff(log: seq<Event>, cursor: int, w: int, sid: string)
    ensures Since(log, Max(cursor, w), sid) == Since(log, cursor, sid) <==> !HasBetween(log, cursor, w, sid)
  {
    if HasBetween(log, cursor, w, sid) {
      LostBetween(log, cursor, w, sid);
    } else {
      var hi, lo := Since(log, Max(cursor, w), sid), Since(log, cursor, sid);
      SinceIncreasing(log, cursor, sid);
      SinceIncreasing(log, Max(cursor, w), sid);
      forall x ensures x in hi <==> x in lo {
        SameAbove(log, cursor, w, sid, x);
      }
      IncreasingUnique(hi, lo);
    }
  }
}

/** The in-process bus: which handlers an event reaches, and in what order. */
module EventBus {
  import opened Common
  import opened EventLog

  /** A callable's identity: what handler equality and hashing see. */
  type Handler = nat

  /** Position of the first occurrence. */
  function FirstIndex(s: seq<Handler>, h: Handler): (i: nat)
    requires h in s
    ensures i < |s| && s[i] == h && h !in s[..i]
  {
    if s[0] == h then 0
    else
      var i := FirstIndex(s[1..], h);
      assert s[..i + 1] == [s[0]] + s[1..][..i];
      i + 1
  }

  /** `list.remove`: drops the first occurrence, if any. */
  function WithoutFirst(s: seq<Handler>, h: Handler): seq<Handler> {
    if h in s then s[..FirstIndex(s, h)] + s[FirstIndex(s, h) + 1..] else s
  }

  /** Unsubscribing takes off the first registration and nothing else, or nothing at all. */
  lemma {:induction false} RemovesFirst(before: seq<Handler>, h: Handler, after: seq<Handler>)
    requires h !in before
    ensures WithoutFirst(before + [h] + after, h) == before + after
    ensures WithoutFirst(before, h) == before
  {
    var s := before + [h] + after;
    assert s[|before|] == h && s[..|before|] == before && s[|before| + 1..] == after;
    FirstIndexIs(s, |before|);
  }

  lemma {:induction false} FirstIndexIs(s: seq<Handler>, k: nat)
    requires k < |s| && s[k] !in s[..k]
    ensures FirstIndex(s, s[k]) == k
  {
  }

  /** Handlers for all events come before those for the topic, and those before the ones for
      the kind; within a list, earlier registrations come first. */
  ghost predicate Before(all: seq<Handler>, topic: seq<Handler>, kind: seq<Handler>, g: Handler, h: Handler) {
    if g in all then h in all ==> FirstIndex(all, g) < FirstIndex(all, h)
    else if g in topic then h !in all && (h in topic ==> FirstIndex(topic, g) < FirstIndex(topic, h))
    else h !in all && h !in topic && g in kind && (h in kind ==> FirstIndex(kind, g) < FirstIndex(kind, h))
  }

  lemma {:induction false} FirstIndexJoin(a: seq<Handler>, b: seq<Handler>, h: Handler)
    requires h in a + b
    ensures h in a ==> FirstIndex(a + b, h) == FirstIndex(a, h)
    ensures h !in a ==> h in b && FirstIndex(a + b, h) == |a| + FirstIndex(b, h)
  {
    var k := if h in a then FirstIndex(a, h) else |a| + FirstIndex(b, h);
    assert (a + b)[k] == h;
    assert (a + b)[..k] == if h in a then a[..k] else a + b[..k - |a|];
    FirstIndexIs(a + b, k);
  }

  lemma {:induction false} OrderIs(all: seq<Handler>, topic: seq<Handler>, kind: seq<Handler>, g: Handler, h: Handler)
    requires g in all + topic + kind && h in all + topic + kind
    requires FirstIndex(all + topic + kind, g) < FirstIndex(all + topic + kind, h)
    ensures Before(all, topic, kind, g, h)
  {
    FirstIndexJoin(all + topic, kind, g);
    FirstIndexJoin(all + topic, kind, h);
    if g in all + topic {
      FirstIndexJoin(all, topic, g);
    }
    if h in all + topic {
      FirstIndexJoin(all, topic, h);
    }
  }

  class EventBus {
    var globals: seq<Handler>
    var byTopic: map<string, seq<Handler>>

    constructor ()
      ensures globals == [] && byTopic == map[]
    {
      globals, byTopic := [], map[];
    }

    function Topic(topic: string): seq<Handler>
      reads this
    {
      if topic in byTopic then byTopic[topic] else []
    }

    /** Every registration an event matches, repetitions included. */
    function Matching(e: Event): seq<Handler>
      reads this
    {
      globals + Topic(e.topic) + Topic(e.kind)
    }

    method Subscribe(h: Handler)
      modifies this
      ensures globals == old(globals) + [h]
      ensures byTopic == old(byTopic)
    {
      globals := globals + [h];
    }

    method SubscribeTopic(topic: string, h: Handler)
      modifies this
      ensures globals == old(globals)
      ensures Topic(topic) == old(Topic(topic)) + [h]
      ensures byTopic == old(byTopic)[topic := Topic(topic)]
    {
      byTopic := byTopic[topic := Topic(topic) + [h]];
    }

    /** One registration of `h` is removed from each list that has one. */
    method Unsubscribe(h: Handler)
      modifies this
      ensures globals == WithoutFirst(old(globals), h)
      ensures byTopic == map t | t in old(byTopic) :: WithoutFirst(old(byTopic)[t], h)
    {
      globals := WithoutFirst(globals, h);
      byTopic := map t | t in byTopic :: WithoutFirst(byTopic[t], h);
    }

    /** Each matching handler once, ordered by first registration. */
    method SubscribersFor(e: Event) returns (ordered: seq<Handler>)
      ensures Distinct(ordered)
      ensures forall h :: h in ordered <==> h in Matching(e)
      ensures forall h :: h in ordered <==>
                || h in globals
                || (e.topic in byTopic && h in byTopic[e.topic])
                || (e.kind in byTopic && h in byTopic[e.kind])
      ensures forall i, j :: 0 <= i < j < |ordered| ==>
                FirstIndex(Matching(e), ordered[i]) < FirstIndex(Matching(e), ordered[j])
      ensures forall i, j :: 0 <= i < j < |ordered| ==>
                Before(globals, if e.topic in byTopic then byTopic[e.topic] else [],
                       if e.kind in byTopic then byTopic[e.kind] else [], ordered[i], ordered[j])
    {
      var handlers := Matching(e);
      var seen: set<Handler> := {};
      ordered := [];
      for k := 0 to |handlers|
        invariant forall h :: h in seen <==> h in ordered
        invariant Distinct(ordered)
        invariant forall h :: h in ordered <==> h in handlers[..k]
        invariant forall h :: h in ordered ==> h in handlers && FirstIndex(handlers, h) < k
        invariant forall i, j :: 0 <= i < j < |ordered| ==>
                    FirstIndex(handlers, ordered[i]) < FirstIndex(handlers, ordered[j])
      {
        var h := handlers[k];
        assert handlers[..k + 1] == handlers[..k] + [h];
        if h !in seen {
          FirstIndexIs(handlers, k);
          seen := seen + {h};
          ordered := ordered + [h];
        }
      }
      assert handlers[..|handlers|] == handlers;
      forall i, j | 0 <= i < j < |ordered|
        ensures Before(globals, Topic(e.topic), Topic(e.kind), ordered[i], ordered[j])
      {
        OrderIs(globals, Topic(e.topic), Topic(e.kind), ordered[i], ordered[j]);
      }
    }
  }
}

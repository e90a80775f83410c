/** What the summary of a window holds, read off its events. */
module SummaryMeaning {
  import opened Common
  import opened Compaction
  import Amounts

  /** The text of a user's message: its text, goal or task, the first that is there, trimmed. */
  ghost predicate SaysGoal(e: Event, goal: string) {
    && e.eventType == MessageEvent && e.content.Some? && e.content.value.role == Some("user")
    && var c := e.content.value;
       goal == Amounts.Strip(if c.text != "" then c.text else if c.goal != "" then c.goal else c.task)
  }

  ghost predicate SaysSome(e: Event) {
    exists goal :: goal != "" && SaysGoal(e, goal)
  }

  ghost predicate Silent(events: seq<Event>) {
    forall i :: 0 <= i < |events| ==> !SaysSome(events[i])
  }

  /** The k-th event gives the goal and none before it gives any. */
  ghost predicate FirstToSay(events: seq<Event>, k: nat, goal: string) {
    k < |events| && goal != "" && SaysGoal(events[k], goal) && Silent(events[..k])
  }

  /** The goal is what the first user message with any text says; it is empty exactly when
      no message has any. */
  lemma {:induction false} GoalIsFirst(events: seq<Event>)
    requires events != []
    ensures if Combined(events).userGoal == "" then Silent(events)
            else exists k: nat :: FirstToSay(events, k, Combined(events).userGoal)
  {
    var front, e := events[..|events| - 1], Last(events);
    assert events == front + [e];
    CombinedStep(front, e);
    DigestGoal(e);
    if front == [] {
      GoalStep(front, e, "", Digest(e).userGoal);
    } else {
      GoalIsFirst(front);
      GoalStep(front, e, Combined(front).userGoal, Digest(e).userGoal);
    }
  }

  lemma {:induction false} GoalStep(front: seq<Event>, e: Event, before: string, own: string)
    requires if before == "" then Silent(front) else exists k: nat :: FirstToSay(front, k, before)
    requires if own == "" then !SaysSome(e) else SaysGoal(e, own)
    ensures var goal := if before != "" then before else own;
            if goal == "" then Silent(front + [e]) else exists k: nat :: FirstToSay(front + [e], k, goal)
  {
    var all := front + [e];
    assert all[..|front|] == front && all[|front|] == e;
    if before != "" {
      var k: nat :| FirstToSay(front, k, before);
      assert all[k] == front[k] && all[..k] == front[..k];
      assert FirstToSay(all, k, before);
    } else if own != "" {
      assert FirstToSay(all, |front|, own);
    } else {
      forall i | 0 <= i < |all| ensures !SaysSome(all[i]) {
        assert all[i] == if i < |front| then front[i] else e;
      }
    }
  }

  lemma {:induction false} DigestGoal(e: Event)
    ensures if Digest(e).userGoal == "" then !SaysSome(e)
            else SaysGoal(e, Digest(e).userGoal)
    ensures forall goal :: goal != "" && SaysGoal(e, goal) ==> Digest(e).userGoal == goal
  {
  }

  // ------------------------------------------------------------------ lists

  /** One line per tool call, in order: the tool's name and the start of its result. */
  function Lines(events: seq<Event>): seq<string> {
    if events == [] then []
    else if events[0].eventType != ToolCallEvent then Lines(events[1..])
    else
      var c := if events[0].content.Some? then events[0].content.value else NO_CONTENT;
      var result := if c.result.Some? then c.result.value else "";
      [Amounts.Strip((if c.toolName != "" then c.toolName else "tool") + ": " + result[..Min(120, |result|)])]
      + Lines(events[1..])
  }

  /** The references of all events, in order. */
  function References(events: seq<Event>): seq<string> {
    if events == [] then []
    else
      (if events[0].content.Some? && events[0].content.value.references.Some?
       then events[0].content.value.references.value else [])
      + References(events[1..])
  }

  ghost predicate Gathers(s: Summary, events: seq<Event>)
    requires events != []
  {
    && s.toolResults == Lines(events)
    && s.references == References(events)
    && |s.ids| == |events| && (forall k :: 0 <= k < |events| ==> s.ids[k] == events[k].id)
    && s.nextSteps == (if Last(events).content.Some? && Last(events).content.value.nextSteps.Some?
                       then Last(events).content.value.nextSteps.value else [])
  }

  /** Lists and ids gather in order; the next steps are the last event's alone. */
  lemma {:induction false} ListsAreGathered(events: seq<Event>)
    requires events != []
    ensures Gathers(Combined(events), events)
  {
    var rest := events[1..];
    assert events == [events[0]] + rest;
    OneEvent(events[0]);
    if rest != [] {
      ListsAreGathered(rest);
      CompactionIsHomomorphism([events[0]], rest);
      GathersMore(Combined(rest), events);
    }
  }

  lemma {:induction false} GathersMore(s: Summary, events: seq<Event>)
    requires |events| > 1 && Gathers(s, events[1..])
    ensures Gathers(Merge(Digest(events[0]), s), events)
  {
    var e, rest := events[0], events[1..];
    assert Last(rest) == Last(events);
    assert forall k :: 1 <= k < |events| ==> events[k] == rest[k - 1];
    OneEvent(e);
    LinesStep(events);
  }

  lemma {:induction false} LinesStep(events: seq<Event>)
    requires events != []
    ensures Lines(events) == Lines([events[0]]) + Lines(events[1..])
    ensures References(events) == References([events[0]]) + References(events[1..])
  {
    assert [events[0]][1..] == [];
  }

  lemma {:induction false} OneEvent(e: Event)
    ensures Combined([e]) == Digest(e)
    ensures Digest(e).toolResults == Lines([e]) && Digest(e).references == References([e])
    ensures |[e]| == 1
  {
    CombinedStep([], e);
    assert [] + [e] == [e] && [e][1..] == [];
    assert Lines([]) == [] && References([]) == [];
    var result := if e.content.Some? && e.content.value.result.Some? then e.content.value.result.value else "";
    assert result[..|result|] == result;
  }

  // -------------------------------------------------------------- rankings

  /** Some event, of any type, reports the risk. */
  predicate ReportsRisk(events: seq<Event>, risk: string) {
    exists k :: 0 <= k < |events| && events[k].content.Some? && events[k].content.value.risk == risk
  }

  ghost predicate IsHighest(events: seq<Event>, risk: Risk) {
    risk == if ReportsRisk(events, "L5") then L5 else if ReportsRisk(events, "L4") then L4
            else if ReportsRisk(events, "L3") then L3 else if ReportsRisk(events, "L2") then L2
            else if ReportsRisk(events, "L1") then L1 else NoRisk
  }

  /** The risk is the highest of those reported, L5 before L4 and so on down to none. */
  lemma {:induction false} RiskIsHighest(events: seq<Event>)
    requires events != []
    ensures IsHighest(events, Combined(events).risk)
  {
    var front, e := events[..|events| - 1], Last(events);
    assert events == front + [e];
    CombinedStep(front, e);
    if front == [] {
      RiskStep(front, e, NoRisk);
    } else {
      RiskIsHighest(front);
      RiskStep(front, e, Combined(front).risk);
    }
  }

  lemma {:induction false} RiskStep(front: seq<Event>, e: Event, before: Risk)
    requires if front == [] then before == NoRisk else IsHighest(front, before)
    ensures IsHighest(front + [e], HigherRisk(before, Digest(e).risk))
  {
    OneMoreRisk(front, e, "L5");
    OneMoreRisk(front, e, "L4");
    OneMoreRisk(front, e, "L3");
    OneMoreRisk(front, e, "L2");
    OneMoreRisk(front, e, "L1");
  }

  lemma {:induction false} OneMoreRisk(front: seq<Event>, e: Event, risk: string)
    ensures ReportsRisk(front + [e], risk) <==>
            ReportsRisk(front, risk) || (e.content.Some? && e.content.value.risk == risk)
    ensures !ReportsRisk([], risk)
  {
    var all := front + [e];
    assert all[|front|] == e && forall k :: 0 <= k < |front| ==> all[k] == front[k];
  }

  /** Some approval event has the status, in any case. */
  predicate HasStatus(events: seq<Event>, status: string) {
    exists k :: 0 <= k < |events| && IsStatus(events[k], status)
  }

  predicate IsStatus(e: Event, status: string) {
    e.eventType == ApprovalEvent && e.content.Some? && Amounts.Lower(e.content.value.status) == status
  }

  ghost predicate IsStrongest(events: seq<Event>, approval: ApprovalStatus) {
    approval == if HasStatus(events, "rejected") then Rejected
                else if HasStatus(events, "approved") then Approved
                else if HasStatus(events, "pending") then Pending else NoApproval
  }

  /** One rejection makes the summary rejected, failing that one approval approved, failing
      that one request pending. */
  lemma {:induction false} ApprovalIsStrongest(events: seq<Event>)
    requires events != []
    ensures IsStrongest(events, Combined(events).approval)
  {
    var front, e := events[..|events| - 1], Last(events);
    assert events == front + [e];
    CombinedStep(front, e);
    if front == [] {
      ApprovalStep(front, e, NoApproval);
    } else {
      ApprovalIsStrongest(front);
      ApprovalStep(front, e, Combined(front).approval);
    }
  }

  lemma {:induction false} ApprovalStep(front: seq<Event>, e: Event, before: ApprovalStatus)
    requires if front == [] then before == NoApproval else IsStrongest(front, before)
    ensures IsStrongest(front + [e], HigherApproval(before, Digest(e).approval))
  {
    OneMoreStatus(front, e, "rejected");
    OneMoreStatus(front, e, "approved");
    OneMoreStatus(front, e, "pending");
    assert Amounts.Lower("") == "";
  }

  lemma {:induction false} OneMoreStatus(front: seq<Event>, e: Event, status: string)
    ensures HasStatus(front + [e], status) <==> HasStatus(front, status) || IsStatus(e, status)
    ensures !HasStatus([], status)
  {
    var all := front + [e];
    assert all[|front|] == e && forall k :: 0 <= k < |front| ==> all[k] == front[k];
  }

  // ----------------------------------------------------------- when it is due

  /** Each event weighs a quarter of its payload's length, rounded down, and one, or nothing
      without a payload; a window is due when together they exceed the threshold. */
  lemma {:induction false} DueMeans(events: seq<Event>, e: Event, threshold: int)
    ensures !ShouldCompact([], threshold)
    ensures var weight := if e.content.None? || e.content.value.size == 0 then 0 else e.content.value.size / 4 + 1;
            && (ShouldCompact([e], threshold) <==> weight > threshold)
            && (events != [] ==>
                  (ShouldCompact(events + [e], threshold) <==> ShouldCompact(events, threshold - weight)))
  {
    TokensAdd(events, [e]);
    assert [e][..0] == [];
    assert Tokens([]) == 0;
  }
}

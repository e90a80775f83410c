/** Condensing a window of session events into a summary, and how summaries combine. */
module Compaction {
  import opened Common
  import Amounts

  datatype EventType = MessageEvent | ToolCallEvent | ApprovalEvent | OtherEvent(name: string)

  /** The payload fields the summary reads; `size` is the length of the payload as JSON,
      and `result` the JSON of the result. */
  datatype Content = Content(
    role: Option<string>,
    text: string, goal: string, task: string,
    toolName: string, result: Option<string>,
    references: Option<seq<string>>,
    status: string,
    risk: string,
    nextSteps: Option<seq<string>>,
    size: nat)

  datatype Event = Event(id: string, eventType: EventType, content: Option<Content>)

  datatype Summary = Summary(
    userGoal: string,
    toolResults: seq<string>,
    references: seq<string>,
    approval: ApprovalStatus,
    risk: Risk,
    nextSteps: seq<string>,
    ids: seq<string>)

  const NOTHING := Summary("", [], [], NoApproval, NoRisk, [], [])

  // ---------------------------------------------------------------- ranking

  datatype ApprovalStatus = NoApproval | Pending | Approved | Rejected

  datatype Risk = NoRisk | L1 | L2 | L3 | L4 | L5

  /** The code ranks a rejection above an approval. */
  function ApprovalRank(status: ApprovalStatus): nat {
    match status case NoApproval => 0 case Pending => 1 case Approved => 2 case Rejected => 3
  }

  function RiskRank(risk: Risk): nat {
    match risk case NoRisk => 0 case L1 => 1 case L2 => 2 case L3 => 3 case L4 => 4 case L5 => 5
  }

  /** A status text; an unknown one ranks lowest and so never replaces anything. */
  function ReadStatus(text: string): ApprovalStatus {
    var s := Amounts.Lower(text);
    if s == "rejected" then Rejected
    else if s == "approved" then Approved
    else if s == "pending" then Pending
    else NoApproval
  }

  function ReadRisk(text: string): Risk {
    if text == "L1" then L1 else if text == "L2" then L2 else if text == "L3" then L3
    else if text == "L4" then L4 else if text == "L5" then L5 else NoRisk
  }

  function HigherApproval(cur: ApprovalStatus, next: ApprovalStatus): ApprovalStatus {
    if ApprovalRank(next) > ApprovalRank(cur) then next else cur
  }

  function HigherRisk(cur: Risk, next: Risk): Risk {
    if RiskRank(next) > RiskRank(cur) then next else cur
  }

  // -------------------------------------------------------------- one event

  const NO_CONTENT := Content(None, "", "", "", "", None, None, "", "", None, 0)

  function ContentOf(e: Event): Content {
    if e.content.Some? then e.content.value else NO_CONTENT
  }

  function GoalText(c: Content): string {
    Amounts.Strip(if c.text != "" then c.text else if c.goal != "" then c.goal else c.task)
  }

  predicate IsUserMessage(e: Event) {
    e.eventType == MessageEvent && ContentOf(e).role == Some("user")
  }

  function ResultLine(c: Content): string {
    var snippet :=
      if c.result.None? then ""
      else if |c.result.value| <= 120 then c.result.value
      else c.result.value[..120];
    Amounts.Strip((if c.toolName == "" then "tool" else c.toolName) + ": " + snippet)
  }

  function ReferencesOf(e: Event): seq<string> {
    if ContentOf(e).references.Some? then ContentOf(e).references.value else []
  }

  function NextStepsOf(e: Event): seq<string> {
    if ContentOf(e).nextSteps.Some? then ContentOf(e).nextSteps.value else []
  }

  /** What one event contributes on its own. */
  function Digest(e: Event): Summary {
    Summary(
      if IsUserMessage(e) then GoalText(ContentOf(e)) else "",
      if e.eventType == ToolCallEvent then [ResultLine(ContentOf(e))] else [],
      ReferencesOf(e),
      if e.eventType == ApprovalEvent then ReadStatus(ContentOf(e).status) else NoApproval,
      ReadRisk(ContentOf(e).risk),
      NextStepsOf(e),
      [e.id])
  }

  /** Two summaries of consecutive windows, combined. */
  function Merge(a: Summary, b: Summary): Summary {
    Summary(
      if a.userGoal != "" then a.userGoal else b.userGoal,
      a.toolResults + b.toolResults,
      a.references + b.references,
      HigherApproval(a.approval, b.approval),
      HigherRisk(a.risk, b.risk),
      b.nextSteps,
      a.ids + b.ids)
  }

  lemma {:induction false} MergeAssociative(a: Summary, b: Summary, c: Summary)
    ensures Merge(Merge(a, b), c) == Merge(a, Merge(b, c))
  {
  }

  // --------------------------------------------------------------- a window

  function Digests(events: seq<Event>): (r: seq<Summary>)
    ensures |r| == |events|
  {
    if events == [] then [] else Digests(events[..|events| - 1]) + [Digest(Last(events))]
  }

  /** Summaries combined in order. */
  function MergeAll(parts: seq<Summary>): Summary
    requires parts != []
  {
    if |parts| == 1 then parts[0] else Merge(MergeAll(parts[..|parts| - 1]), Last(parts))
  }

  /** The meaning of a window's summary: its events' digests, combined. */
  function Combined(events: seq<Event>): Summary
    requires events != []
  {
    MergeAll(Digests(events))
  }

  /** One event more. */
  lemma {:induction false} CombinedStep(events: seq<Event>, e: Event)
    ensures Combined(events + [e]) == if events == [] then Digest(e) else Merge(Combined(events), Digest(e))
  {
  }

  datatype Error = IndexError

  /** One pass over the events, the next steps read off the last one.  An empty window
      has no last event: that is an error. */
  method CompactEvents(events: seq<Event>) returns (r: Result<Summary, Error>)
    ensures if events == [] then r == Err(IndexError) else r == Ok(Combined(events))
  {
    if events == [] {
      return Err(IndexError);
    }
    var summary := NOTHING.(ids := IdsOf(events));
    for k := 0 to |events|
      invariant summary.ids == IdsOf(events) && summary.nextSteps == []
      invariant k == 0 ==> summary == NOTHING.(ids := IdsOf(events))
      invariant k > 0 ==> SameBut(summary, Combined(events[..k]))
    {
      var e := events[k];
      assert events[..k + 1] == events[..k] + [e];
      CombinedStep(events[..k], e);
      if k == 0 {
        AbsorbFirst(e, IdsOf(events));
      } else {
        AbsorbNext(summary, Combined(events[..k]), e);
      }
      summary := Absorb(summary, e);
    }
    assert events[..|events|] == events;
    CombinedEnds(events);
    var next := summary.nextSteps + NextStepsOf(Last(events));
    assert next == NextStepsOf(Last(events));
    r := Ok(summary.(nextSteps := next));
  }

  function IdsOf(events: seq<Event>): seq<string> {
    if events == [] then [] else IdsOf(events[..|events| - 1]) + [Last(events).id]
  }

  /** Equal but for ids and next steps, which the loop does not build. */
  ghost predicate SameBut(a: Summary, b: Summary) {
    a == b.(ids := a.ids, nextSteps := a.nextSteps)
  }

  /** The loop body. */
  function Absorb(s: Summary, e: Event): Summary {
    var c := ContentOf(e);
    s.(userGoal := if IsUserMessage(e) && s.userGoal == "" then GoalText(c) else s.userGoal,
       toolResults := if e.eventType == ToolCallEvent then s.toolResults + [ResultLine(c)] else s.toolResults,
       references := s.references + ReferencesOf(e),
       approval := if e.eventType == ApprovalEvent then HigherApproval(s.approval, ReadStatus(c.status))
           else s.approval,
       risk := if c.risk != "" then HigherRisk(s.risk, ReadRisk(c.risk)) else s.risk)
  }

  lemma {:induction false} AbsorbFirst(e: Event, ids: seq<string>)
    ensures SameBut(Absorb(NOTHING.(ids := ids), e), Digest(e))
    ensures Absorb(NOTHING.(ids := ids), e).ids == ids && Absorb(NOTHING.(ids := ids), e).nextSteps == []
  {
  }

  lemma {:induction false} AbsorbNext(s: Summary, c: Summary, e: Event)
    requires SameBut(s, c)
    ensures SameBut(Absorb(s, e), Merge(c, Digest(e)))
    ensures Absorb(s, e).ids == s.ids && Absorb(s, e).nextSteps == s.nextSteps
  {
  }

  lemma {:induction false} CombinedEnds(events: seq<Event>)
    requires events != []
    ensures Combined(events).ids == IdsOf(events)
    ensures Combined(events).nextSteps == NextStepsOf(Last(events))
  {
    var front, e := events[..|events| - 1], Last(events);
    assert events == front + [e];
    CombinedStep(front, e);
    if front != [] {
      CombinedEnds(front);
    }
  }

  // ------------------------------------------------------------ main results

  lemma {:induction false} MergeAllJoin(a: seq<Summary>, b: seq<Summary>)
    requires a != [] && b != []
    ensures MergeAll(a + b) == Merge(MergeAll(a), MergeAll(b))
    decreases |b|
  {
    var all := a + b;
    if |b| == 1 {
      assert all[..|all| - 1] == a;
    } else {
      var front := b[..|b| - 1];
      assert all[..|all| - 1] == a + front;
      MergeAllJoin(a, front);
      MergeAssociative(MergeAll(a), MergeAll(front), Last(b));
    }
  }

  lemma {:induction false} DigestsJoin(a: seq<Event>, b: seq<Event>)
    ensures Digests(a + b) == Digests(a) + Digests(b)
  {
    if b == [] {
      assert a + b == a;
    } else {
      assert (a + b)[..|a + b| - 1] == a + b[..|b| - 1];
      DigestsJoin(a, b[..|b| - 1]);
    }
  }

  /** Compaction is a homomorphism on non-empty windows: compacting a then b is merging
      their summaries. */
  lemma {:induction false} CompactionIsHomomorphism(a: seq<Event>, b: seq<Event>)
    requires a != [] && b != []
    ensures Combined(a + b) == Merge(Combined(a), Combined(b))
  {
    DigestsJoin(a, b);
    MergeAllJoin(Digests(a), Digests(b));
  }

  lemma {:induction false} HighestOfAll(parts: seq<Summary>)
    requires parts != []
    ensures forall k :: 0 <= k < |parts| ==>
              && ApprovalRank(parts[k].approval) <= ApprovalRank(MergeAll(parts).approval)
              && RiskRank(parts[k].risk) <= RiskRank(MergeAll(parts).risk)
    ensures exists k :: 0 <= k < |parts| && MergeAll(parts).approval == parts[k].approval
    ensures exists k :: 0 <= k < |parts| && MergeAll(parts).risk == parts[k].risk
  {
    if |parts| > 1 {
      var front := parts[..|parts| - 1];
      HighestOfAll(front);
      var i :| 0 <= i < |front| && MergeAll(front).approval == front[i].approval;
      var j :| 0 <= j < |front| && MergeAll(front).risk == front[j].risk;
      assert parts[i] == front[i] && parts[j] == front[j] && parts[|front|] == Last(parts);
      assert forall k :: 0 <= k < |front| ==> parts[k] == front[k];
    } else {
      assert MergeAll(parts) == parts[0];
    }
  }

  lemma {:induction false} DigestsAt(events: seq<Event>, k: nat)
    requires k < |events|
    ensures Digests(events)[k] == Digest(events[k])
  {
    if k < |events| - 1 {
      DigestsAt(events[..|events| - 1], k);
    }
  }

  /** The summary's risk and approval are the highest any event reports, and are reported
      by some event; so one rejection decides the summary, whatever else was approved. */
  lemma {:induction false} SummaryReportsHighest(events: seq<Event>, k: nat)
    requires k < |events|
    ensures RiskRank(ReadRisk(ContentOf(events[k]).risk)) <= RiskRank(Combined(events).risk)
    ensures events[k].eventType == ApprovalEvent ==>
              ApprovalRank(ReadStatus(ContentOf(events[k]).status)) <= ApprovalRank(Combined(events).approval)
    ensures events[k].eventType == ApprovalEvent && ReadStatus(ContentOf(events[k]).status) == Rejected ==>
              Combined(events).approval == Rejected
    ensures exists j :: 0 <= j < |events| && Combined(events).risk == ReadRisk(ContentOf(events[j]).risk)
    ensures exists j :: 0 <= j < |events| && Combined(events).approval == Digest(events[j]).approval
  {
    HighestOfAll(Digests(events));
    DigestsAt(events, k);
    var j :| 0 <= j < |events| && Combined(events).risk == Digests(events)[j].risk;
    DigestsAt(events, j);
    var i :| 0 <= i < |events| && Combined(events).approval == Digests(events)[i].approval;
    DigestsAt(events, i);
  }

  /** Some approval event of the window reports the status. */
  predicate Reports(events: seq<Event>, status: ApprovalStatus) {
    exists k :: 0 <= k < |events| && events[k].eventType == ApprovalEvent
        && ReadStatus(ContentOf(events[k]).status) == status
  }

  /** What the documented order gives: approved before rejected before pending. */
  function Documented(events: seq<Event>): ApprovalStatus {
    if Reports(events, Approved) then Approved
    else if Reports(events, Rejected) then Rejected
    else if Reports(events, Pending) then Pending
    else NoApproval
  }

  lemma {:induction false} ReportedIsCounted(events: seq<Event>, status: ApprovalStatus)
    requires events != [] && Reports(events, status)
    ensures ApprovalRank(status) <= ApprovalRank(Combined(events).approval)
  {
    var k :| 0 <= k < |events| && events[k].eventType == ApprovalEvent
        && ReadStatus(ContentOf(events[k]).status) == status;
    SummaryReportsHighest(events, k);
  }

  /** The summary's approval is reported by some event, unless it is none at all. */
  lemma {:induction false} CountedIsReported(events: seq<Event>)
    requires events != []
    ensures Combined(events).approval == NoApproval || Reports(events, Combined(events).approval)
  {
    SummaryReportsHighest(events, 0);
    var j :| 0 <= j < |events| && Combined(events).approval == Digest(events[j]).approval;
    assert Digest(events[j]).approval != NoApproval ==> events[j].eventType == ApprovalEvent;
  }

  /** The code's order and the documented one agree on a window exactly when it does not
      report both an approval and a rejection; if it does, the code says rejected. */
  lemma {:induction false} DocumentedOrderIff(events: seq<Event>)
    requires events != []
    ensures Combined(events).approval == Documented(events) <==>
            !(Reports(events, Approved) && Reports(events, Rejected))
    ensures Reports(events, Rejected) ==> Combined(events).approval == Rejected
  {
    CountedIsReported(events);
    if Reports(events, Approved) {
      ReportedIsCounted(events, Approved);
    }
    if Reports(events, Rejected) {
      ReportedIsCounted(events, Rejected);
    }
    if Reports(events, Pending) {
      ReportedIsCounted(events, Pending);
    }
  }

  // -------------------------------------------------------- when to compact

  function EstimateTokens(c: Option<Content>): nat {
    if c.None? || c.value.size == 0 then 0 else c.value.size / 4 + 1
  }

  function Tokens(events: seq<Event>): nat {
    if events == [] then 0 else Tokens(events[..|events| - 1]) + EstimateTokens(Last(events).content)
  }

  /** An empty window is never compacted, whatever the threshold. */
  predicate ShouldCompact(events: seq<Event>, threshold: int) {
    events != [] && Tokens(events) > threshold
  }

  lemma {:induction false} TokensAdd(a: seq<Event>, b: seq<Event>)
    ensures Tokens(a + b) == Tokens(a) + Tokens(b)
  {
    if b == [] {
      assert a + b == a;
    } else {
      assert (a + b)[..|a + b| - 1] == a + b[..|b| - 1];
      TokensAdd(a, b[..|b| - 1]);
    }
  }

  /** A window that is due for compaction stays due when it grows, at either end. */
  lemma {:induction false} StaysDue(a: seq<Event>, b: seq<Event>, threshold: int)
    requires ShouldCompact(a, threshold)
    ensures ShouldCompact(a + b, threshold) && ShouldCompact(b + a, threshold)
  {
    TokensAdd(a, b);
    TokensAdd(b, a);
  }
}

/** How the operations since its request decide an approval, and what a submission does. */
module ApprovalHistory {
  import opened Common
  import opened Policy
  import opened ApprovalSpec

  /** An operation that tries to decide this approval. */
  predicate Decides(op: Op, id: string) {
    (op.DoApprove? && op.id == id) || (op.DoReject? && op.id == id)
  }

  /** Nobody tried to decide it. */
  ghost predicate Quiet(ops: seq<Op>, id: string) {
    forall k :: 0 <= k < |ops| ==> !Decides(ops[k], id)
  }

  /** One person approved it, perhaps more than once, and nobody else tried to decide it. */
  ghost predicate OnlyApprover(ops: seq<Op>, id: string, who: string) {
    && (exists k :: 0 <= k < |ops| && ops[k] == DoApprove(id, who))
    && (forall k :: 0 <= k < |ops| && Decides(ops[k], id) ==> ops[k] == DoApprove(id, who))
  }

  /** So far undecided. */
  ghost predicate Open(ops: seq<Op>, id: string, dual: bool) {
    Quiet(ops, id) || (dual && exists p :: OnlyApprover(ops, id, p))
  }

  /** The k-th operation is the approval that counts. */
  ghost predicate ApprovedAt(ops: seq<Op>, id: string, dual: bool, k: nat, who: string) {
    && k < |ops| && ops[k] == DoApprove(id, who)
    && if dual then exists p :: p != who && OnlyApprover(ops[..k], id, p) else Quiet(ops[..k], id)
  }

  /** The k-th operation is the rejection that counts. */
  ghost predicate RejectedAt(ops: seq<Op>, id: string, dual: bool, k: nat, who: string, reason: Option<string>) {
    k < |ops| && ops[k] == DoReject(id, who, reason) && Open(ops[..k], id, dual)
  }

  // ------------------------------------------------------- while undecided

  /** As requested, with no decision in it. */
  ghost predicate Fresh(a: Approval, id: string) {
    && a.id == id && a.status == Pending && a.first == None && a.second == None
    && a.approver == None && a.reason == None
  }

  lemma {:induction false} StepsApart(s: State, enabled: bool, op: Op, id: string)
    requires id in s.store && s.store[id].id == id && !Decides(op, id)
    ensures id in Step(s, enabled, op).store && Step(s, enabled, op).store[id] == s.store[id]
  {
  }

  lemma {:induction false} QuietStays(s: State, enabled: bool, ops: seq<Op>, id: string)
    requires id in s.store && s.store[id].id == id && Quiet(ops, id)
    ensures id in Run(s, enabled, ops).store && Run(s, enabled, ops).store[id] == s.store[id]
  {
    if ops != [] {
      QuietStays(s, enabled, ops[..|ops| - 1], id);
      assert !Decides(ops[|ops| - 1], id);
      StepsApart(Run(s, enabled, ops[..|ops| - 1]), enabled, Last(ops), id);
    }
  }

  /** What an approval by `who` makes of an undecided one, written out. */
  lemma {:induction false} ApproveStep(s: State, enabled: bool, id: string, who: string)
    requires id in s.store && s.store[id].status == Pending && s.store[id].second == None
    ensures id in Step(s, enabled, DoApprove(id, who)).store
    ensures var (a, b) := (s.store[id], Step(s, enabled, DoApprove(id, who)).store[id]);
            && b.dual == a.dual && b.id == a.id && b.reason == a.reason
            && if !a.dual then b.status == Approved && b.approver == Some(who) && b.first == a.first && b.second == None
               else if a.first == None then
                 b.status == Pending && b.first == Some(who) && b.second == None && b.approver == a.approver
               else if a.first == Some(who) then b == a
               else b.status == Approved && b.approver == Some(who) && b.first == a.first && b.second == Some(who)
  {
  }

  /** One person's approvals leave a dual approval waiting for another. */
  lemma {:induction false} FirstStays(s: State, enabled: bool, ops: seq<Op>, id: string, who: string)
    requires id in s.store && Fresh(s.store[id], id) && s.store[id].dual && OnlyApprover(ops, id, who)
    ensures id in Run(s, enabled, ops).store && Run(s, enabled, ops).store[id] == s.store[id].(first := Some(who))
  {
    var front, op := ops[..|ops| - 1], Last(ops);
    assert ops == front + [op];
    if k :| 0 <= k < |front| && Decides(front[k], id) {
      assert ops[k] == front[k] == DoApprove(id, who);
      assert forall j :: 0 <= j < |front| ==> front[j] == ops[j];
      FirstStays(s, enabled, front, id, who);
    } else {
      QuietStays(s, enabled, front, id);
      assert forall j :: 0 <= j < |front| ==> front[j] == ops[j] && !Decides(front[j], id);
    }
    assert ops[|front|] == op;
    if !Decides(op, id) {
      StepsApart(Run(s, enabled, front), enabled, op, id);
    }
  }

  // ------------------------------------------------------------ once decided

  lemma {:induction false} SplitAt(s: State, enabled: bool, ops: seq<Op>, k: nat, id: string)
    requires id in s.store && s.store[id].id == id && k < |ops|
    ensures var s1 := Step(Run(s, enabled, ops[..k]), enabled, ops[k]);
            && id in s1.store && id in Run(s, enabled, ops).store
            && (s1.store[id].status != Pending ==> Run(s, enabled, ops).store[id] == s1.store[id])
  {
    var before := Run(s, enabled, ops[..k]);
    DecidedStays(s, enabled, ops[..k], id);
    StepKeepsDecisions(before, enabled, ops[k], id);
    assert ops[..k + 1][..k] == ops[..k] && Last(ops[..k + 1]) == ops[k];
    assert ops == ops[..k + 1] + ops[k + 1..];
    RunJoin(s, enabled, ops[..k + 1], ops[k + 1..]);
    DecidedStays(Step(before, enabled, ops[k]), enabled, ops[k + 1..], id);
  }

  lemma {:induction false} ApprovedAtDoes(s: State, enabled: bool, ops: seq<Op>, id: string, k: nat, who: string)
    requires id in s.store && Fresh(s.store[id], id) && ApprovedAt(ops, id, s.store[id].dual, k, who)
    ensures id in Run(s, enabled, ops).store
    ensures var a := Run(s, enabled, ops).store[id];
            && a.status == Approved && a.approver == Some(who)
            && (a.dual ==> a.second == Some(who) && a.first.Some? && OnlyApprover(ops[..k], id, a.first.value))
  {
    SplitAt(s, enabled, ops, k, id);
    if s.store[id].dual {
      var p :| p != who && OnlyApprover(ops[..k], id, p);
      FirstStays(s, enabled, ops[..k], id, p);
    } else {
      QuietStays(s, enabled, ops[..k], id);
    }
    ApproveStep(Run(s, enabled, ops[..k]), enabled, id, who);
  }

  lemma {:induction false} RejectedAtDoes(s: State, enabled: bool, ops: seq<Op>, id: string, k: nat, who: string,
                                          reason: Option<string>)
    requires id in s.store && Fresh(s.store[id], id) && RejectedAt(ops, id, s.store[id].dual, k, who, reason)
    ensures id in Run(s, enabled, ops).store
    ensures var a := Run(s, enabled, ops).store[id];
            a.status == Rejected && a.approver == Some(who) && a.reason == reason
  {
    SplitAt(s, enabled, ops, k, id);
    if Quiet(ops[..k], id) {
      QuietStays(s, enabled, ops[..k], id);
    } else {
      var p :| OnlyApprover(ops[..k], id, p);
      FirstStays(s, enabled, ops[..k], id, p);
    }
  }

  /** Every history is undecided, approved or rejected. */
  ghost predicate Decided(ops: seq<Op>, id: string, dual: bool) {
    || (exists k: nat, who :: ApprovedAt(ops, id, dual, k, who))
    || (exists k: nat, who, reason :: RejectedAt(ops, id, dual, k, who, reason))
  }

  lemma {:induction false} OpenOrDecided(ops: seq<Op>, id: string, dual: bool)
    ensures Open(ops, id, dual) || Decided(ops, id, dual)
  {
    if ops != [] {
      var n := |ops| - 1;
      var front, op := ops[..n], ops[n];
      OpenOrDecided(front, id, dual);
      if Decided(front, id, dual) {
        DecidedLater(front, ops, id, dual);
      } else if !Decides(op, id) {
        OpenOneMore(ops, id, dual);
      } else if op.DoReject? {
        assert RejectedAt(ops, id, dual, n, op.who, op.reason);
      } else if Quiet(front, id) {
        if dual {
          assert OnlyApprover(ops, id, op.who);
        } else {
          assert ApprovedAt(ops, id, dual, n, op.who);
        }
      } else {
        var p :| OnlyApprover(front, id, p);
        if op.who == p {
          assert ops[n] == DoApprove(id, p);
          assert OnlyApprover(ops, id, p);
        } else {
          assert ApprovedAt(ops, id, dual, n, op.who);
        }
      }
    }
  }

  lemma {:induction false} OpenOneMore(ops: seq<Op>, id: string, dual: bool)
    requires ops != [] && !Decides(Last(ops), id) && Open(ops[..|ops| - 1], id, dual)
    ensures Open(ops, id, dual)
  {
    var front := ops[..|ops| - 1];
    assert ops == front + [Last(ops)];
    if !Quiet(front, id) {
      var p :| OnlyApprover(front, id, p);
      var k :| 0 <= k < |front| && front[k] == DoApprove(id, p);
      assert ops[k] == DoApprove(id, p);
      assert OnlyApprover(ops, id, p);
    }
  }

  lemma {:induction false} DecidedLater(front: seq<Op>, ops: seq<Op>, id: string, dual: bool)
    requires front <= ops && Decided(front, id, dual)
    ensures Decided(ops, id, dual)
  {
    if k: nat, who :| ApprovedAt(front, id, dual, k, who) {
      assert ops[..k] == front[..k];
      assert ApprovedAt(ops, id, dual, k, who);
    } else {
      var k: nat, who, reason :| RejectedAt(front, id, dual, k, who, reason);
      assert ops[..k] == front[..k];
      assert RejectedAt(ops, id, dual, k, who, reason);
    }
  }

  // ------------------------------------------------------------ main results

  /** Since its request, an approval is approved by a person exactly when that person's
      approval is the one that counts: the first decision, or, if two are needed, the first by
      someone other than the one person who had approved so far. */
  lemma {:induction false} ApprovedIff(s: State, enabled: bool, ops: seq<Op>, id: string, who: string)
    requires id in s.store && Fresh(s.store[id], id)
    ensures id in Run(s, enabled, ops).store
    ensures var a := Run(s, enabled, ops).store[id];
            a.status == Approved && a.approver == Some(who) <==>
            exists k: nat :: ApprovedAt(ops, id, s.store[id].dual, k, who)
  {
    StatusFollows(s, enabled, ops, id);
    if k: nat :| ApprovedAt(ops, id, s.store[id].dual, k, who) {
      ApprovedAtDoes(s, enabled, ops, id, k, who);
    }
  }

  /** It is rejected by a person for a reason exactly when that rejection came while it was
      undecided. */
  lemma {:induction false} RejectedIff(s: State, enabled: bool, ops: seq<Op>, id: string, who: string,
                                       reason: Option<string>)
    requires id in s.store && Fresh(s.store[id], id)
    ensures id in Run(s, enabled, ops).store
    ensures var a := Run(s, enabled, ops).store[id];
            a.status == Rejected && a.approver == Some(who) && a.reason == reason <==>
            exists k: nat :: RejectedAt(ops, id, s.store[id].dual, k, who, reason)
  {
    StatusFollows(s, enabled, ops, id);
    if k: nat :| RejectedAt(ops, id, s.store[id].dual, k, who, reason) {
      RejectedAtDoes(s, enabled, ops, id, k, who, reason);
    }
  }

  /** It is pending exactly when nobody tried to decide it, or two people are needed and only
      one has approved; and then it names that person. */
  lemma {:induction false} PendingIff(s: State, enabled: bool, ops: seq<Op>, id: string)
    requires id in s.store && Fresh(s.store[id], id)
    ensures id in Run(s, enabled, ops).store
    ensures var a := Run(s, enabled, ops).store[id];
            && (a.status == Pending <==> Open(ops, id, s.store[id].dual))
            && (a.status == Pending && a.first == None <==> Quiet(ops, id))
  {
    StatusFollows(s, enabled, ops, id);
  }

  lemma {:induction false} StatusFollows(s: State, enabled: bool, ops: seq<Op>, id: string)
    requires id in s.store && Fresh(s.store[id], id)
    ensures id in Run(s, enabled, ops).store
    ensures var (a, dual) := (Run(s, enabled, ops).store[id], s.store[id].dual);
            match a.status
            case Pending => Open(ops, id, dual) && (a.first == None <==> Quiet(ops, id))
            case Approved =>
              && !Open(ops, id, dual)
              && a.approver.Some? && exists k: nat :: ApprovedAt(ops, id, dual, k, a.approver.value)
            case Rejected =>
              && !Open(ops, id, dual)
              && a.approver.Some? && exists k: nat :: RejectedAt(ops, id, dual, k, a.approver.value, a.reason)
  {
    var dual := s.store[id].dual;
    OpenOrDecided(ops, id, dual);
    if Quiet(ops, id) {
      QuietStays(s, enabled, ops, id);
    } else if Open(ops, id, dual) {
      var p :| OnlyApprover(ops, id, p);
      FirstStays(s, enabled, ops, id, p);
    } else if k: nat, who :| ApprovedAt(ops, id, dual, k, who) {
      ApprovedAtDoes(s, enabled, ops, id, k, who);
    } else {
      var k: nat, who, reason :| RejectedAt(ops, id, dual, k, who, reason);
      RejectedAtDoes(s, enabled, ops, id, k, who, reason);
    }
  }

  /** A request files what it asks for, undecided; two people are needed exactly at L5. */
  lemma {:induction false} RequestDoes(s: State, enabled: bool, op: Op)
    requires op.DoRequest? && op.id !in s.store
    ensures var s' := Step(s, enabled, op);
            && s'.submissions == s.submissions && s'.store.Keys == s.store.Keys + {op.id}
            && (forall other :: other in s.store ==> s'.store[other] == s.store[other])
            && Fresh(s'.store[op.id], op.id)
            && Asked(s'.store[op.id], op)
  {
  }

  ghost predicate Asked(a: Approval, op: Op)
    requires op.DoRequest?
  {
    && a.requesterId == op.requester && a.toolName == op.tool && a.params == op.params
    && a.risk == op.risk && a.environment == op.environment && (a.dual <==> op.risk == L5)
  }

  /** Over every run: what was asked for stays, and the operations since the request decide the
      rest, whatever came before. */
  lemma {:induction false} DecidedByOperationsSince(enabled: bool, before: seq<Op>, op: Op, after: seq<Op>, who: string,
                                                    reason: Option<string>)
    requires op.DoRequest? && op.id !in Run(EMPTY, enabled, before).store
    ensures var s := Run(EMPTY, enabled, before + [op] + after);
            && op.id in s.store && Asked(s.store[op.id], op)
            && var (a, dual) := (s.store[op.id], op.risk == L5);
               && (a.status == Approved && a.approver == Some(who) <==>
                     exists k: nat :: ApprovedAt(after, op.id, dual, k, who))
               && (a.status == Rejected && a.approver == Some(who) && a.reason == reason <==>
                     exists k: nat :: RejectedAt(after, op.id, dual, k, who, reason))
               && (a.status == Pending <==> Open(after, op.id, dual))
  {
    var s1 := Step(Run(EMPTY, enabled, before), enabled, op);
    RequestDoes(Run(EMPTY, enabled, before), enabled, op);
    assert (before + [op])[..|before|] == before;
    RunJoin(EMPTY, enabled, before + [op], after);
    DecidedStays(s1, enabled, after, op.id);
    PendingIff(s1, enabled, after, op.id);
    ApprovedIff(s1, enabled, after, op.id, who);
    RejectedIff(s1, enabled, after, op.id, who, reason);
  }

  // ------------------------------------------------------------- submission

  /** What a submission comes to: the error says what is missing; the write runs on the stored
      record with the parameters given; and of what it returns only the four known keys are
      touched, and of those `approved` and `submitted` only where the write left them out. */
  lemma {:induction false} SubmissionShows(store: Approvals, enabled: bool, id: string, params: map<string, string>,
                                           write: Option<WriteOutcome>)
    ensures var (submission, r) := Submit(store, enabled, id, params, write);
            if id !in store then submission == None && r == Err(NoSuchApproval(id))
            else if store[id].status != Approved then
              submission == None && r == Err(NotApproved(id, store[id].status))
            else if !enabled then
              && submission == None && r.Ok? && r.value.Keys == {ApprovedKey, SubmittedKey, FakeKey, ApprovalIdKey}
              && r.value[ApprovedKey] == Flag(true) && r.value[SubmittedKey] == Flag(false)
              && r.value[FakeKey] == Flag(true) && r.value[ApprovalIdKey] == Text(id)
            else
              match write
              case None => submission == None && r == Err(NoHandler(id))
              case Some(WriteFailed(text)) => submission == Some(Submission(store[id], params))
                  && r == Err(Failed(text))
              case Some(Wrote(result)) =>
                && submission == Some(Submission(store[id], params)) && r.Ok?
                && r.value.Keys == result.Keys + {ApprovedKey, SubmittedKey, FakeKey, ApprovalIdKey}
                && r.value[FakeKey] == Flag(false) && r.value[ApprovalIdKey] == Text(id)
                && r.value[ApprovedKey] == (if ApprovedKey in result then result[ApprovedKey] else Flag(true))
                && r.value[SubmittedKey] == (if SubmittedKey in result then result[SubmittedKey] else Flag(true))
                && forall key :: key in result && key.OtherKey? ==> r.value[key] == result[key]
  {
  }
}

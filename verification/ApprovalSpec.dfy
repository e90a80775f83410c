/** Approvals as values: requests, decisions, production submissions, and what every
    sequence of them keeps. */
module ApprovalSpec {
  import opened Common
  import opened Policy

  datatype Status = Pending | Approved | Rejected

  datatype Approval = Approval(
    id: string,
    requesterId: string,
    toolName: string,
    params: map<string, string>,
    risk: RiskLevel,
    environment: string,
    status: Status,
    dual: bool,
    first: Option<string>,
    second: Option<string>,
    approver: Option<string>,
    reason: Option<string>)

  datatype Error = NotFound(id: string) | AlreadyDecided(id: string, status: Status) | NeedsDistinctApprovers

  /** Only the highest tier needs two approvers. */
  predicate RequiresDual(risk: RiskLevel) {
    risk == L5
  }

  function NewApproval(id: string, requester: string, tool: string, params: map<string, string>, risk: RiskLevel,
                       environment: string): Approval {
    Approval(id, requester, tool, params, risk, environment, Pending, RequiresDual(risk), None, None, None, None)
  }

  function Approve(a: Approval, who: string): Result<Approval, Error> {
    if a.status != Pending then Err(AlreadyDecided(a.id, a.status))
    else if a.dual then
      if a.first.None? then Ok(a.(first := Some(who)))
      else if a.second.None? && who != a.first.value
          then Ok(a.(second := Some(who), status := Approved, approver := Some(who)))
      else Err(NeedsDistinctApprovers)
    else Ok(a.(status := Approved, approver := Some(who)))
  }

  function Reject(a: Approval, who: string, reason: Option<string>): Result<Approval, Error> {
    if a.status != Pending then Err(AlreadyDecided(a.id, a.status))
    else Ok(a.(status := Rejected, approver := Some(who), reason := reason))
  }

  // ------------------------------------------------------------ submission

  datatype Field = Flag(on: bool) | Text(text: string)

  /** The keys of a submission result that the guard knows, and any others. */
  datatype Key = ApprovedKey | SubmittedKey | FakeKey | ApprovalIdKey | OtherKey(name: string)

  type Fields = map<Key, Field>

  /** What the real write does when it is invoked. */
  datatype WriteOutcome = Wrote(result: Fields) | WriteFailed(message: string)

  datatype SubmitError =
    | NoSuchApproval(id: string)
    | NotApproved(id: string, status: Status)
    | NoHandler(id: string)
    | Failed(message: string)

  /** One invocation of the real write: the approval it was given, and the parameters. */
  datatype Submission = Submission(approval: Approval, params: map<string, string>)

  type Approvals = map<string, Approval>

  /** The approval gate, or why it is closed. */
  function EnsureApproved(store: Approvals, id: string): Result<Approval, SubmitError> {
    if id !in store then Err(NoSuchApproval(id))
    else if store[id].status != Approved then Err(NotApproved(id, store[id].status))
    else Ok(store[id])
  }

  function SetDefault(m: Fields, key: Key, value: Field): Fields {
    if key in m then m else m[key := value]
  }

  function Completed(result: Fields, id: string): Fields {
    var approved := SetDefault(result, ApprovedKey, Flag(true));
    var submitted := SetDefault(approved, SubmittedKey, Flag(true));
    submitted[FakeKey := Flag(false)][ApprovalIdKey := Text(id)]
  }

  function FakeResult(id: string): Fields {
    map[ApprovedKey := Flag(true), SubmittedKey := Flag(false), FakeKey := Flag(true), ApprovalIdKey := Text(id)]
  }

  /** Whether the write runs, and what the caller gets. */
  function Submit(store: Approvals, enabled: bool, id: string, params: map<string, string>, write: Option<WriteOutcome>)
    : (Option<Submission>, Result<Fields, SubmitError>)
  {
    match EnsureApproved(store, id)
    case Err(e) => (None, Err(e))
    case Ok(a) =>
      if !enabled then (None, Ok(FakeResult(id)))
      else match write
        case None => (None, Err(NoHandler(id)))
        case Some(Wrote(result)) => (Some(Submission(a, params)), Ok(Completed(result, id)))
        case Some(WriteFailed(text)) => (Some(Submission(a, params)), Err(Failed(text)))
  }

  // ------------------------------------------------------------------ runs

  datatype State = State(store: Approvals, submissions: seq<Submission>)

  datatype Op =
    | DoRequest(id: string, requester: string, tool: string, params: map<string, string>, risk: RiskLevel,
                environment: string)
    | DoApprove(id: string, who: string)
    | DoReject(id: string, who: string, reason: Option<string>)
    | DoSubmit(id: string, params: map<string, string>, write: Option<WriteOutcome>)

  /** Ids of requests are fresh; a failed operation changes nothing. */
  function Step(s: State, enabled: bool, op: Op): State {
    match op
    case DoRequest(id, requester, tool, params, risk, env) =>
      if id in s.store then s else s.(store := s.store[id := NewApproval(id, requester, tool, params, risk, env)])
    case DoApprove(id, who) =>
      if id in s.store && Approve(s.store[id], who).Ok?
          then s.(store := s.store[id := Approve(s.store[id], who).value]) else s
    case DoReject(id, who, reason) =>
      if id in s.store && Reject(s.store[id], who, reason).Ok?
          then s.(store := s.store[id := Reject(s.store[id], who, reason).value]) else s
    case DoSubmit(id, params, write) =>
      var submission := Submit(s.store, enabled, id, params, write).0;
      if submission.Some? then s.(submissions := s.submissions + [submission.value]) else s
  }

  function Run(s: State, enabled: bool, ops: seq<Op>): State {
    if ops == [] then s else Step(Run(s, enabled, ops[..|ops| - 1]), enabled, Last(ops))
  }

  const EMPTY := State(map[], [])

  // ------------------------------------------------------------ invariants

  /** The fields of an approval agree with its status, and every decision in it was made
      by an operation of the run, on this approval, by that person. */
  ghost predicate Sound(a: Approval, ops: seq<Op>) {
    && a.dual == (a.risk == L5)
    && (a.first.Some? ==> a.dual && DoApprove(a.id, a.first.value) in ops)
    && match a.status
       case Pending => a.approver == None && a.second == None
       case Rejected => a.approver.Some? && DoReject(a.id, a.approver.value, a.reason) in ops
       case Approved =>
         && a.approver.Some? && DoApprove(a.id, a.approver.value) in ops
         && (a.dual ==> a.first.Some? && a.second == a.approver && a.first != a.second)
  }

  /** What a request fixed. */
  ghost predicate SameRequest(a: Approval, b: Approval) {
    && a.id == b.id && a.requesterId == b.requesterId && a.toolName == b.toolName
    && a.params == b.params && a.risk == b.risk && a.environment == b.environment && a.dual == b.dual
  }

  ghost predicate Inv(s: State, enabled: bool, ops: seq<Op>) {
    && (forall id :: id in s.store ==> s.store[id].id == id && Sound(s.store[id], ops))
    && (forall k :: 0 <= k < |s.submissions| ==> Permitted(s, enabled, s.submissions[k]))
  }

  /** The submission was made with an approved record that the store still holds unchanged. */
  ghost predicate Permitted(s: State, enabled: bool, sub: Submission) {
    && enabled && sub.approval.status == Approved
    && sub.approval.id in s.store && s.store[sub.approval.id] == sub.approval
  }

  /** No step removes an approval, changes what its request fixed, or touches a decided one. */
  lemma {:induction false} StepKeepsDecisions(s: State, enabled: bool, op: Op, id: string)
    requires id in s.store && s.store[id].id == id
    ensures id in Step(s, enabled, op).store
    ensures SameRequest(s.store[id], Step(s, enabled, op).store[id])
    ensures s.store[id].status != Pending ==> Step(s, enabled, op).store[id] == s.store[id]
  {
  }

  /** A step keeps an approval's fields in agreement with who decided it. */
  lemma {:induction false} StepKeepsSound(s: State, enabled: bool, ops: seq<Op>, op: Op, id: string)
    requires id in s.store && s.store[id].id == id && Sound(s.store[id], ops)
    ensures id in Step(s, enabled, op).store && Sound(Step(s, enabled, op).store[id], ops + [op])
  {
  }

  lemma {:induction false} StepKeepsInv(s: State, enabled: bool, ops: seq<Op>, op: Op)
    requires Inv(s, enabled, ops)
    ensures Inv(Step(s, enabled, op), enabled, ops + [op])
  {
    var s' := Step(s, enabled, op);
    forall id | id in s'.store ensures s'.store[id].id == id && Sound(s'.store[id], ops + [op]) {
      if id in s.store {
        StepKeepsSound(s, enabled, ops, op, id);
        StepKeepsDecisions(s, enabled, op, id);
      }
    }
    forall k | 0 <= k < |s'.submissions| ensures Permitted(s', enabled, s'.submissions[k]) {
      if k < |s.submissions| {
        assert Permitted(s, enabled, s.submissions[k]);
        StepKeepsDecisions(s, enabled, op, s.submissions[k].approval.id);
      }
    }
  }

  lemma {:induction false} RunKeepsInv(enabled: bool, ops: seq<Op>)
    ensures Inv(Run(EMPTY, enabled, ops), enabled, ops)
  {
    if ops != [] {
      RunKeepsInv(enabled, ops[..|ops| - 1]);
      StepKeepsInv(Run(EMPTY, enabled, ops[..|ops| - 1]), enabled, ops[..|ops| - 1], Last(ops));
      assert ops == ops[..|ops| - 1] + [Last(ops)];
    }
  }

  // --------------------------------------------------------- main results

  lemma {:induction false} RunJoin(s: State, enabled: bool, a: seq<Op>, b: seq<Op>)
    ensures Run(s, enabled, a + b) == Run(Run(s, enabled, a), enabled, b)
  {
    if b == [] {
      assert a + b == a;
    } else {
      assert (a + b)[..|a + b| - 1] == a + b[..|b| - 1];
      RunJoin(s, enabled, a, b[..|b| - 1]);
    }
  }

  lemma {:induction false} DecidedStays(s: State, enabled: bool, later: seq<Op>, id: string)
    requires id in s.store && s.store[id].id == id
    ensures id in Run(s, enabled, later).store
    ensures var b := Run(s, enabled, later).store[id];
            SameRequest(s.store[id], b) && (s.store[id].status != Pending ==> b == s.store[id])
  {
    if later != [] {
      DecidedStays(s, enabled, later[..|later| - 1], id);
      StepKeepsDecisions(Run(s, enabled, later[..|later| - 1]), enabled, Last(later), id);
    }
  }

  /** A decided approval never changes again, and no approval ever loses what its request
      fixed, its parameter snapshot included. */
  lemma {:induction false} DecidedIsFinal(enabled: bool, ops: seq<Op>, later: seq<Op>, id: string)
    requires id in Run(EMPTY, enabled, ops).store
    ensures id in Run(EMPTY, enabled, ops + later).store
    ensures var (a, b) := (Run(EMPTY, enabled, ops).store[id], Run(EMPTY, enabled, ops + later).store[id]);
            SameRequest(a, b) && (a.status != Pending ==> b == a)
  {
    RunKeepsInv(enabled, ops);
    RunJoin(EMPTY, enabled, ops, later);
    DecidedStays(Run(EMPTY, enabled, ops), enabled, later, id);
  }

  /** An approved record was approved by someone, and a dual one by two different people. */
  lemma {:induction false} DualNeedsTwoPeople(enabled: bool, ops: seq<Op>, id: string)
    requires id in Run(EMPTY, enabled, ops).store && Run(EMPTY, enabled, ops).store[id].status == Approved
    ensures exists p :: DoApprove(id, p) in ops
    ensures Run(EMPTY, enabled, ops).store[id].risk == L5 ==>
              exists p, q :: p != q && DoApprove(id, p) in ops && DoApprove(id, q) in ops
  {
    RunKeepsInv(enabled, ops);
    var a := Run(EMPTY, enabled, ops).store[id];
    assert DoApprove(id, a.approver.value) in ops;
    if a.risk == L5 {
      assert a.first.value != a.second.value && DoApprove(id, a.first.value) in ops;
    }
  }

  /** From its request on, an approval keeps what was requested, and whatever was decided
      was decided by operations made since. */
  lemma {:induction false} DecidedSinceRequest(s: State, enabled: bool, later: seq<Op>, id: string)
    requires id in s.store && s.store[id].id == id && Sound(s.store[id], [])
    ensures id in Run(s, enabled, later).store
    ensures var a := Run(s, enabled, later).store[id];
            Sound(a, later) && SameRequest(s.store[id], a)
  {
    if later != [] {
      var front := later[..|later| - 1];
      DecidedSinceRequest(s, enabled, front, id);
      StepKeepsSound(Run(s, enabled, front), enabled, front, Last(later), id);
      StepKeepsDecisions(Run(s, enabled, front), enabled, Last(later), id);
      assert later == front + [Last(later)];
    }
  }

  /** The real write only ever ran with submission enabled, on approvals that were, and
      still are, approved. */
  lemma {:induction false} OnlyApprovedSubmissions(enabled: bool, ops: seq<Op>, k: nat)
    requires k < |Run(EMPTY, enabled, ops).submissions|
    ensures Permitted(Run(EMPTY, enabled, ops), enabled, Run(EMPTY, enabled, ops).submissions[k])
  {
    RunKeepsInv(enabled, ops);
  }

  /** The write runs exactly when the approval is approved, submission is enabled and a
      handler is given; without one of them nothing is written. */
  lemma SubmitsIff(store: Approvals, enabled: bool, id: string, params: map<string, string>,
                   write: Option<WriteOutcome>)
    ensures var (submission, r) := Submit(store, enabled, id, params, write);
            && (submission.Some? <==> id in store && store[id].status == Approved && enabled && write.Some?)
            && (r.Ok? ==> ApprovedKey in r.value && SubmittedKey in r.value && r.value[ApprovalIdKey] == Text(id))
            && (r.Ok? ==> r.value[FakeKey] == Flag(submission.None?))
            && (r.Err? ==> submission.None? || r.error.Failed?)
  {
  }
}

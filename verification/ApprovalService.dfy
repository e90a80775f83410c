/** The approval service over records that are mutated in place, and the guard in front
    of production submission. */
module ApprovalService {
  import opened Common
  import opened Policy
  import Spec = ApprovalSpec

  /** A stored approval.  What the request fixed is constant; the decision is assigned. */
  class Approval {
    const id: string
    const requesterId: string
    const toolName: string
    const params: map<string, string>
    const risk: RiskLevel
    const environment: string
    const dual: bool
    var status: Spec.Status
    var first: Option<string>
    var second: Option<string>
    var approver: Option<string>
    var reason: Option<string>

    ghost function Value(): Spec.Approval
      reads this
    {
      Spec.Approval(id, requesterId, toolName, params, risk, environment, status, dual, first, second, approver, reason)
    }

    constructor (id: string, requester: string, tool: string, params: map<string, string>, risk: RiskLevel,
                 environment: string)
      ensures Value() == Spec.NewApproval(id, requester, tool, params, risk, environment)
    {
      this.id, requesterId, toolName, this.params, this.risk, this.environment :=
          id, requester, tool, params, risk, environment;
      dual := Spec.RequiresDual(risk);
      status, first, second, approver, reason := Spec.Pending, None, None, None, None;
    }
  }

  class Service {
    var repo: map<string, Approval>

    ghost predicate Valid()
      reads this, repo.Values
    {
      forall id :: id in repo ==> repo[id].id == id
    }

    /** What the repository holds, as values. */
    ghost function View(): Spec.Approvals
      reads this, repo.Values
    {
      map id | id in repo :: repo[id].Value()
    }

    constructor ()
      ensures Valid() && repo == map[] && View() == map[]
    {
      repo := map[];
    }

    method Request(requester: string, tool: string, params: map<string, string>, risk: RiskLevel, environment: string,
                   id: string)
      returns (approval: Approval)
      requires Valid() && id !in repo
      modifies this
      ensures Valid() && fresh(approval) && repo == old(repo)[id := approval]
      ensures View() == old(View())[id := Spec.NewApproval(id, requester, tool, params, risk, environment)]
    {
      approval := new Approval(id, requester, tool, params, risk, environment);
      repo := repo[id := approval];
    }

    method Approve(id: string, approverId: string) returns (r: Result<Approval, Spec.Error>)
      requires Valid()
      modifies repo.Values
      ensures Valid()
      ensures id !in repo ==> r == Err(Spec.NotFound(id)) && View() == old(View())
      ensures id in repo ==>
                match Spec.Approve(old(repo[id].Value()), approverId)
                case Ok(a) => r == Ok(repo[id]) && View() == old(View())[id := a]
                case Err(e) => r == Err(e) && View() == old(View())
      ensures r.Ok? && !r.value.dual ==> r.value.status == Spec.Approved && r.value.approver == Some(approverId)
    {
      if id !in repo {
        return Err(Spec.NotFound(id));
      }
      var approval := repo[id];
      if approval.status != Spec.Pending {
        return Err(Spec.AlreadyDecided(id, approval.status));
      }
      if approval.dual {
        if approval.first.None? {
          approval.first := Some(approverId);
          return Ok(approval);
        }
        if approval.second.None? && approverId != approval.first.value {
          approval.second := Some(approverId);
          approval.status := Spec.Approved;
          approval.approver := Some(approverId);
          return Ok(approval);
        }
        return Err(Spec.NeedsDistinctApprovers);
      }
      approval.status := Spec.Approved;
      approval.approver := Some(approverId);
      r := Ok(approval);
    }

    method Reject(id: string, approverId: string, reason: Option<string>) returns (r: Result<Approval, Spec.Error>)
      requires Valid()
      modifies repo.Values
      ensures Valid()
      ensures id !in repo ==> r == Err(Spec.NotFound(id)) && View() == old(View())
      ensures id in repo ==>
                match Spec.Reject(old(repo[id].Value()), approverId, reason)
                case Ok(a) => r == Ok(repo[id]) && View() == old(View())[id := a]
                case Err(e) => r == Err(e) && View() == old(View())
    {
      if id !in repo {
        return Err(Spec.NotFound(id));
      }
      var approval := repo[id];
      if approval.status != Spec.Pending {
        return Err(Spec.AlreadyDecided(id, approval.status));
      }
      approval.status := Spec.Rejected;
      approval.approver := Some(approverId);
      approval.reason := reason;
      r := Ok(approval);
    }
  }

  /** Gates the real write behind an approved record and a switch.  `submissions` is the
      history of invocations of the write. */
  class ProductionSubmitGuard {
    const approvals: Service
    const enabled: bool
    ghost var submissions: seq<Spec.Submission>

    constructor (approvals: Service, enabled: bool)
      ensures this.approvals == approvals && this.enabled == enabled && submissions == []
    {
      this.approvals, this.enabled := approvals, enabled;
      submissions := [];
    }

    method EnsureApproved(id: string) returns (r: Result<Approval, Spec.SubmitError>)
      requires approvals.Valid()
      ensures match Spec.EnsureApproved(approvals.View(), id)
              case Ok(a) => r.Ok? && id in approvals.repo && r.value == approvals.repo[id] && r.value.Value() == a
              case Err(e) => r == Err(e)
    {
      if id !in approvals.repo {
        return Err(Spec.NoSuchApproval(id));
      }
      var approval := approvals.repo[id];
      if approval.status != Spec.Approved {
        return Err(Spec.NotApproved(id, approval.status));
      }
      r := Ok(approval);
    }

    /** `write` is what the supplied handler does, if one is supplied. */
    method Submit(id: string, params: map<string, string>, write: Option<Spec.WriteOutcome>)
        returns (r: Result<Spec.Fields, Spec.SubmitError>)
      requires approvals.Valid()
      modifies this
      ensures var (submission, result) := Spec.Submit(approvals.View(), enabled, id, params, write);
              && r == result
              && submissions == old(submissions) + (if submission.Some? then [submission.value] else [])
    {
      var gate := EnsureApproved(id);
      if gate.Err? {
        return Err(gate.error);
      }
      var approval := gate.value;
      if !enabled {
        return Ok(Spec.FakeResult(approval.id));
      }
      if write.None? {
        return Err(Spec.NoHandler(approval.id));
      }
      submissions := submissions + [Spec.Submission(approval.Value(), params)];
      if write.value.WriteFailed? {
        return Err(Spec.Failed(write.value.message));
      }
      var result := write.value.result;
      result := Spec.SetDefault(result, Spec.ApprovedKey, Spec.Flag(true));
      result := Spec.SetDefault(result, Spec.SubmittedKey, Spec.Flag(true));
      result := result[Spec.FakeKey := Spec.Flag(false)];
      result := result[Spec.ApprovalIdKey := Spec.Text(approval.id)];
      r := Ok(result);
    }
  }
}

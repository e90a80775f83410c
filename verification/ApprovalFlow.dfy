/** From the tools a run is held for to the people who may release them. */
module ApprovalFlow {
  import opened Common
  import opened Policy
  import opened AgentSpec
  import AgentSafety
  import Approvals = ApprovalSpec

  /** The names separated by commas. */
  function Joined(names: seq<string>): string {
    if names == [] then []
    else if |names| == 1 then names[0]
    else names[0] + "," + Joined(names[1..])
  }

  /** The approval the node files for its request. */
  function Filed(request: Request, id: string): Approvals.Op {
    Approvals.DoRequest(id, request.requester, Joined(request.tools), request.params, request.risk, request.environment)
  }

  predicate NamesL5(cfg: Config, tools: seq<string>) {
    exists n :: n in tools && n in cfg.policies && cfg.policies[n].risk == L5
  }

  /** Whatever happens before and after, the stored approval of a held run keeps the
      arguments it was filed with, is dual exactly when a required tool is L5, and if it is
      approved then people approved it after it was filed: two different ones when it is dual. */
  lemma HeldToolsNeedApprovers(cfg: Config, plan: Option<Plan>, messages: seq<Message>, enabled: bool,
                               before: seq<Approvals.Op>, after: seq<Approvals.Op>, id: string)
    requires ApprovalNode(cfg, plan, messages).Some?
    requires id !in Approvals.Run(Approvals.EMPTY, enabled, before).store
    ensures var request := ApprovalNode(cfg, plan, messages).value;
            var s := Approvals.Run(Approvals.EMPTY, enabled, before + [Filed(request, id)] + after);
            && id in s.store
            && s.store[id].requesterId == request.requester && s.store[id].params == request.params
            && s.store[id].toolName == Joined(request.tools) && s.store[id].environment == request.environment
            && (s.store[id].dual <==> NamesL5(cfg, request.tools))
            && (s.store[id].status == Approvals.Approved ==> exists p :: Approvals.DoApprove(id, p) in after)
            && (s.store[id].status == Approvals.Approved && NamesL5(cfg, request.tools) ==>
                  exists p, q :: p != q && Approvals.DoApprove(id, p) in after && Approvals.DoApprove(id, q) in after)
  {
    var request := ApprovalNode(cfg, plan, messages).value;
    AgentSafety.RequestRiskIsL5Iff(cfg, plan, messages);
    FiledIsDecidedSince(request, enabled, before, after, id);
  }

  lemma FiledIsDecidedSince(request: Request, enabled: bool, before: seq<Approvals.Op>, after: seq<Approvals.Op>,
                            id: string)
    requires id !in Approvals.Run(Approvals.EMPTY, enabled, before).store
    ensures var s := Approvals.Run(Approvals.EMPTY, enabled, before + [Filed(request, id)] + after);
            && id in s.store
            && s.store[id].id == id && s.store[id].dual == (request.risk == L5)
            && s.store[id].requesterId == request.requester && s.store[id].params == request.params
            && s.store[id].toolName == Joined(request.tools) && s.store[id].environment == request.environment
            && Approvals.Sound(s.store[id], after)
  {
    var op := Filed(request, id);
    var s0 := Approvals.Run(Approvals.EMPTY, enabled, before);
    var s1 := Approvals.Step(s0, enabled, op);
    assert (before + [op])[..|before|] == before;
    assert Approvals.Run(Approvals.EMPTY, enabled, before + [op]) == s1;
    Approvals.RunJoin(Approvals.EMPTY, enabled, before + [op], after);
    Approvals.DecidedSinceRequest(s1, enabled, after, id);
  }
}

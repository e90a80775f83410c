/** The gateway, the nodes and the run loop in their imperative form, each proved to
    perform the corresponding transition of the state machine. */
module AgentLoop {
  import opened Common
  import opened Policy
  import opened AgentSpec

  class AuditService {
    var events: seq<Audit>

    constructor ()
      ensures events == []
    {
      events := [];
    }

    method RecordToolCall(toolName: string, arguments: string, status: Status)
      modifies this
      ensures events == old(events) + [Audit(toolName, arguments, status)]
    {
      events := events + [Audit(toolName, arguments, status)];
    }
  }

  class ToolGateway {
    const audit: AuditService
    const policies: Policies
    var handlers: set<string>
    var toolCalls: seq<Record>
    ghost var executed: seq<(string, string)>

    ghost function View(): Gateway
      reads this, audit
    {
      Gateway(handlers, toolCalls, audit.events, executed)
    }

    constructor (audit: AuditService, policies: Policies)
      ensures this.audit == audit && this.policies == policies
      ensures View() == Gateway({}, [], audit.events, [])
    {
      this.audit, this.policies := audit, policies;
      handlers, toolCalls, executed := {}, [], [];
    }

    method RegisterHandler(name: string)
      modifies this`handlers
      ensures View() == old(View()).(handlers := old(handlers) + {name})
    {
      handlers := handlers + {name};
    }

    /** Policy gate, approval gate, then the handler; one record and one audit event on
        every way out.  `outcome` is what the handler does if it is invoked. */
    method ExecuteTool(actor: Actor, name: string, arguments: string, approved: bool, callId: string, outcome: Outcome)
      returns (r: GatewayResult)
      modifies this`toolCalls, this`executed, audit
      ensures (View(), r) ==
              AgentSpec.ExecuteTool(policies, actor, old(View()), name, arguments, approved, callId, outcome)
      ensures r.status == Success <==>
                var d := CanExecute(policies, actor, name);
                d.allowed && (d.approvalRequired ==> approved) && name in handlers && outcome.Returned?
      ensures r.status == Success ==> r.raw == Some(outcome.raw) && r.error == None
    {
      var decision := CanExecute(policies, actor, name);
      if !decision.allowed {
        r := Finish(actor, arguments, GatewayResult(callId, name, Error, "", Some(Denied(decision.reason)), None));
        return;
      }
      if decision.approvalRequired && !approved {
        r := Finish(actor, arguments, GatewayResult(callId, name, PendingApproval, "", Some(AwaitsApproval), None));
        return;
      }
      if name !in handlers {
        r := Finish(actor, arguments, GatewayResult(callId, name, Error, "", Some(NoHandler(name)), None));
        return;
      }
      executed := executed + [(name, arguments)];
      match outcome
      case Returned(raw) =>
        r := Finish(actor, arguments, GatewayResult(callId, name, Success, Summarize(raw), None, Some(raw)));
      case Raised(text) =>
        r := Finish(actor, arguments, GatewayResult(callId, name, Error, "", Some(Exception(text)), None));
    }

    method Finish(actor: Actor, arguments: string, result: GatewayResult) returns (r: GatewayResult)
      modifies this`toolCalls, audit
      ensures r == result && View() == AgentSpec.Finish(old(View()), actor, arguments, result)
    {
      toolCalls := toolCalls
          + [Record(result.callId, result.name, actor.id, actor.environment, arguments, result.status, result.error)];
      audit.RecordToolCall(result.name, arguments, result.status);
      r := result;
    }
  }

  /** Executes the pending calls in order, turning each result into a tool message and a
      normalised result. */
  method ToolNode(cfg: Config, messages: seq<Message>, gateway: ToolGateway, outcome: nat -> Outcome)
    returns (newMessages: seq<Message>, results: seq<ToolResult>)
    requires gateway.policies == cfg.policies
    modifies gateway`toolCalls, gateway`executed, gateway.audit
    ensures var (g, rs) := RunCalls(cfg, old(gateway.View()), PendingCalls(messages), outcome);
            gateway.View() == g && newMessages == ToolMessages(rs) && results == SchemaResults(rs)
  {
    var calls := PendingCalls(messages);
    newMessages, results := [], [];
    ghost var rs: seq<GatewayResult> := [];
    for k := 0 to |calls|
      invariant (gateway.View(), rs) == RunCalls(cfg, old(gateway.View()), calls[..k], outcome)
      invariant newMessages == ToolMessages(rs) && results == SchemaResults(rs)
    {
      var r := gateway.ExecuteTool(cfg.actor, calls[k].name, calls[k].arguments, false, calls[k].id, outcome(k));
      assert calls[..k + 1][..k] == calls[..k];
      assert (rs + [r])[..|rs|] == rs;
      rs := rs + [r];
      newMessages := newMessages + [ToolMessage(r)];
      results := results + [SchemaResult(r)];
    }
    assert calls[..|calls|] == calls;
  }

  function Higher(r: RiskLevel, s: RiskLevel): RiskLevel {
    if Rank(s) > Rank(r) then s else r
  }

  /** The plan's running values take one more name into account. */
  lemma OneMoreName(cfg: Config, names: seq<string>, name: string)
    ensures var d := CanExecute(cfg.policies, cfg.actor, name);
            RiskOf(cfg, names + [name]) ==
            if d.risk.Some? then Higher(RiskOf(cfg, names), d.risk.value) else RiskOf(cfg, names)
    ensures AnyNeedsApproval(cfg, names + [name]) <==>
            AnyNeedsApproval(cfg, names) || CanExecute(cfg.policies, cfg.actor, name).approvalRequired
  {
  }

  /** Reads the pending calls and classifies each by policy. */
  method DerivePlanStep(cfg: Config, messages: seq<Message>) returns (plan: Option<Plan>)
    ensures plan == AgentSpec.DerivePlan(cfg, messages)
  {
    var calls := PendingCalls(messages);
    if calls == [] {
      return None;
    }
    var names := Names(calls);
    var risk, needApproval := Classify(cfg, names);
    plan := Some(Plan(seq(|names|, k requires 0 <= k < |names| => CallTool(names[k])), names, risk, needApproval));
  }

  method Classify(cfg: Config, names: seq<string>) returns (risk: RiskLevel, needApproval: bool)
    ensures risk == RiskOf(cfg, names) && needApproval == AnyNeedsApproval(cfg, names)
  {
    risk, needApproval := L1, false;
    for k := 0 to |names|
      invariant risk == RiskOf(cfg, names[..k])
      invariant needApproval == AnyNeedsApproval(cfg, names[..k])
    {
      OneMoreName(cfg, names[..k], names[k]);
      assert names[..k + 1] == names[..k] + [names[k]];
      var decision := CanExecute(cfg.policies, cfg.actor, names[k]);
      if decision.risk.Some? && Rank(decision.risk.value) > Rank(risk) {
        risk := decision.risk.value;
      }
      if decision.approvalRequired {
        needApproval := true;
      }
    }
    assert names[..|names|] == names;
  }

  /** The decision asks for this candidate's approval. */
  predicate Gated(d: Decision) {
    d.allowed && (d.approvalRequired || (d.risk.Some? && HighRisk(d.risk.value)))
  }

  /** An allowed decision names its risk, and asks for approval whenever the risk is high. */
  lemma AllowedDecision(cfg: Config, name: string)
    ensures var d := CanExecute(cfg.policies, cfg.actor, name);
            && (d.allowed ==> d.risk.Some?)
            && (Gated(d) <==> NeedsApproval(cfg.policies, cfg.actor, name))
  {
  }

  /** One more candidate that needs approval joins the three running values; any other
      leaves them alone. */
  lemma OneMoreCandidate(cfg: Config, messages: seq<Message>, names: seq<string>, k: nat)
    requires k < |names|
    ensures var d := CanExecute(cfg.policies, cfg.actor, names[k]);
            var required, required' := RequiredOf(cfg, names[..k]), RequiredOf(cfg, names[..k + 1]);
            && (Gated(d) ==> d.risk.Some?)
            && if Gated(d)
               then && required' == required + [names[k]]
                    && ParamsOf(messages, required') ==
                        ParamsOf(messages, required)[names[k] := CandidateArgs(messages, names[k])]
                    && RiskOf(cfg, required') == Higher(RiskOf(cfg, required), d.risk.value)
               else required' == required
  {
    AllowedDecision(cfg, names[k]);
    assert names[..k + 1][..k] == names[..k];
    OneMoreName(cfg, RequiredOf(cfg, names[..k]), names[k]);
  }

  /** Collects the candidates that need approval, their arguments and the highest risk. */
  method CollectRequired(cfg: Config, messages: seq<Message>, names: seq<string>)
    returns (required: seq<string>, params: map<string, string>, maxRisk: RiskLevel)
    ensures required == RequiredOf(cfg, names)
    ensures params == ParamsOf(messages, required) && maxRisk == RiskOf(cfg, required)
  {
    required, params, maxRisk := [], map[], L1;
    for k := 0 to |names|
      invariant required == RequiredOf(cfg, names[..k])
      invariant params == ParamsOf(messages, required)
      invariant maxRisk == RiskOf(cfg, required)
    {
      OneMoreCandidate(cfg, messages, names, k);
      var decision := CanExecute(cfg.policies, cfg.actor, names[k]);
      if Gated(decision) {
        required := required + [names[k]];
        params := params[names[k] := CandidateArgs(messages, names[k])];
        if Rank(decision.risk.value) > Rank(maxRisk) {
          maxRisk := decision.risk.value;
        }
      }
    }
    assert names[..|names|] == names;
  }

  method ApprovalNodeStep(cfg: Config, plan: Option<Plan>, messages: seq<Message>) returns (request: Option<Request>)
    ensures request == AgentSpec.ApprovalNode(cfg, plan, messages)
  {
    var required, params, maxRisk := CollectRequired(cfg, messages, CandidateTools(plan, messages));
    request := if required == [] then None
               else Some(Request(cfg.actor.id, required, params, maxRisk, cfg.actor.environment));
  }

  /** The graph: nodes, edges and the state channels with their reducers. */
  class AgentGraph {
    const cfg: Config
    const gateway: ToolGateway
    var round: nat

    constructor (cfg: Config, gateway: ToolGateway)
      ensures this.cfg == cfg && this.gateway == gateway && round == 0
    {
      this.cfg, this.gateway, round := cfg, gateway, 0;
    }

    /** One node, then its outgoing edge.  `round` counts model calls. */
    method RunNode(a: Agent, env: Env) returns (a': Agent)
      requires gateway.policies == cfg.policies
      modifies this`round, gateway`toolCalls, gateway`executed, gateway.audit
      ensures World(a', gateway.View()) == Step(cfg, World(a, old(gateway.View())), env)
      ensures round == old(round) + (if a.node == AtModel then 1 else 0)
    {
      match a.node
      case AtModel =>
        round := round + 1;
        var messages := a.messages + [Assistant(env.response.content, NamedCalls(env.response.calls, env.freshId))];
        a' := a.(messages := messages, node := if WantsTools(messages) then AtPlan else AtFinal);
      case AtPlan =>
        var raw := DerivePlanStep(cfg, a.messages);
        var (plan, status) := PlanNode(cfg, raw);
        a' := a.(plan := plan, planStatus := Some(status), node := AtApproval);
      case AtApproval =>
        var request := ApprovalNodeStep(cfg, a.plan, a.messages);
        if request.None? {
          a' := a.(approval := NOT_REQUIRED, pendingApprovals := [], node := AtTool);
        } else {
          a' := a.(approval := PENDING, pendingApprovals := request.value.tools,
                   requests := a.requests + [request.value], node := Halted);
        }
      case AtTool =>
        var messages, results := ToolNode(cfg, a.messages, gateway, env.outcome);
        a' := a.(messages := a.messages + messages, toolResults := a.toolResults + results, node := AtModel);
      case AtFinal => a' := a.(node := Done);
      case Done => a' := a;
      case Halted => a' := a;
    }

    /** One turn, as far as the given environment lasts. */
    method ARun(messages: seq<Message>, envs: seq<Env>) returns (a: Agent)
      requires gateway.policies == cfg.policies
      modifies this`round, gateway`toolCalls, gateway`executed, gateway.audit
      ensures World(a, gateway.View()) == Run(cfg, Start(messages, old(gateway.View())), envs)
    {
      round := 0;
      a := Agent(AtModel, messages, [], None, None, NOT_REQUIRED, [], []);
      for k := 0 to |envs|
        invariant Run(cfg, World(a, gateway.View()), envs[k..]) == Run(cfg, Start(messages, old(gateway.View())), envs)
      {
        assert envs[k..][1..] == envs[k + 1..];
        a := RunNode(a, envs[k]);
      }
    }
  }
}

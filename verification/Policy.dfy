/** The deterministic authorisation decision over declared tool policies. */
module Policy {
  import opened Common

  datatype RiskLevel = L1 | L2 | L3 | L4 | L5

  function Rank(r: RiskLevel): (n: nat)
    ensures 1 <= n <= 5
  {
    match r case L1 => 1 case L2 => 2 case L3 => 3 case L4 => 4 case L5 => 5
  }

  predicate HighRisk(r: RiskLevel) {
    r == L4 || r == L5
  }

  datatype ToolPolicy = ToolPolicy(
    risk: RiskLevel, allowedRoles: seq<string>, allowedEnvironments: seq<string>, approvalRequired: bool)

  type Policies = map<string, ToolPolicy>

  datatype Actor = Actor(id: string, roles: seq<string>, environment: string)

  datatype Reason = Allowed | NoPolicy | RoleDenied | EnvironmentDenied

  datatype Decision = Decision(allowed: bool, reason: Reason, approvalRequired: bool, risk: Option<RiskLevel>)

  /** Only the first role is tested against the policy. */
  function FirstRole(actor: Actor): string {
    if actor.roles == [] then "" else actor.roles[0]
  }

  predicate AllowsRoleEnv(p: ToolPolicy, role: string, environment: string) {
    role in p.allowedRoles && environment in p.allowedEnvironments
  }

  function CanExecute(policies: Policies, actor: Actor, tool: string): Decision {
    if tool !in policies then Decision(false, NoPolicy, false, None)
    else
      var p := policies[tool];
      if !AllowsRoleEnv(p, FirstRole(actor), actor.environment) then
        if !exists k :: 0 <= k < |actor.roles| && actor.roles[k] in p.allowedRoles
        then Decision(false, RoleDenied, false, Some(p.risk))
        else Decision(false, EnvironmentDenied, false, Some(p.risk))
      else Decision(true, Allowed, p.approvalRequired || HighRisk(p.risk), Some(p.risk))
  }

  /** What a decision means on the declared policies: for the first role alone, with the
      environment, and with the reason for each denial. */
  lemma {:induction false} DecisionMeans(policies: Policies, actor: Actor, tool: string)
    ensures var d := CanExecute(policies, actor, tool);
            var role := if actor.roles == [] then "" else actor.roles[0];
            if tool !in policies then d == Decision(false, NoPolicy, false, None)
            else
              var p := policies[tool];
              && d.risk == Some(p.risk)
              && (d.allowed <==> role in p.allowedRoles && actor.environment in p.allowedEnvironments)
              && (d.approvalRequired <==> d.allowed && (p.approvalRequired || p.risk == L4 || p.risk == L5))
              && (d.reason == Allowed <==> role in p.allowedRoles && actor.environment in p.allowedEnvironments)
              && (d.reason == RoleDenied <==>
                    (role !in p.allowedRoles || actor.environment !in p.allowedEnvironments) &&
                    forall r :: r in actor.roles ==> r !in p.allowedRoles)
              && (d.reason == EnvironmentDenied <==>
                    (role !in p.allowedRoles || actor.environment !in p.allowedEnvironments) &&
                    exists r :: r in actor.roles && r in p.allowedRoles)
  {
    if tool in policies {
      var p := policies[tool];
      if r :| r in actor.roles && r in p.allowedRoles {
        var k :| 0 <= k < |actor.roles| && actor.roles[k] == r;
      }
    }
  }

  /** May run at once: allowed, and no approval is asked for. */
  predicate RunsFreely(policies: Policies, actor: Actor, tool: string) {
    var d := CanExecute(policies, actor, tool);
    d.allowed && !d.approvalRequired
  }

  predicate NeedsApproval(policies: Policies, actor: Actor, tool: string) {
    var d := CanExecute(policies, actor, tool);
    d.allowed && d.approvalRequired
  }

  /** A denial blamed on the environment while the environment is permitted: this happens
      exactly when the first role is not permitted and a later one is. */
  lemma EnvironmentWronglyBlamedIff(policies: Policies, actor: Actor, tool: string)
    requires tool in policies && actor.environment in policies[tool].allowedEnvironments
    ensures CanExecute(policies, actor, tool).reason == EnvironmentDenied <==>
            && FirstRole(actor) !in policies[tool].allowedRoles
            && exists k :: 1 <= k < |actor.roles| && actor.roles[k] in policies[tool].allowedRoles
  {
  }

  /** What may run freely, and what waits for approval, on the declared policies. */
  lemma {:induction false} FreedomMeans(policies: Policies, actor: Actor, tool: string)
    ensures var role := if actor.roles == [] then "" else actor.roles[0];
            var listed := tool in policies && role in policies[tool].allowedRoles &&
                          actor.environment in policies[tool].allowedEnvironments;
            && (RunsFreely(policies, actor, tool) <==>
                  listed && !policies[tool].approvalRequired && policies[tool].risk in {L1, L2, L3})
            && (NeedsApproval(policies, actor, tool) <==>
                  listed && (policies[tool].approvalRequired || policies[tool].risk in {L4, L5}))
  {
    DecisionMeans(policies, actor, tool);
  }

  function Permitted(policies: Policies, actor: Actor, tools: seq<string>): (r: seq<string>)
    ensures forall t :: t in r <==> t in tools && CanExecute(policies, actor, t).allowed
  {
    if tools == [] then []
    else Permitted(policies, actor, tools[..|tools| - 1])
         + (if CanExecute(policies, actor, Last(tools)).allowed then [Last(tools)] else [])
  }

  /** Filtering looks at one tool at a time and keeps the order. */
  lemma {:induction false} PermittedJoin(policies: Policies, actor: Actor, a: seq<string>, b: seq<string>)
    ensures Permitted(policies, actor, a + b) == Permitted(policies, actor, a) + Permitted(policies, actor, b)
  {
    if b == [] {
      assert a + b == a;
    } else {
      assert (a + b)[..|a + b| - 1] == a + b[..|b| - 1];
      PermittedJoin(policies, actor, a, b[..|b| - 1]);
    }
  }

  method FilterTools(policies: Policies, actor: Actor, tools: seq<string>) returns (allowed: seq<string>)
    ensures allowed == Permitted(policies, actor, tools)
    ensures var role := if actor.roles == [] then "" else actor.roles[0];
            forall t :: t in allowed <==>
              t in tools && t in policies && role in policies[t].allowedRoles &&
              actor.environment in policies[t].allowedEnvironments
  {
    allowed := [];
    for i := 0 to |tools|
      invariant allowed == Permitted(policies, actor, tools[..i])
    {
      assert tools[..i + 1][..i] == tools[..i];
      if CanExecute(policies, actor, tools[i]).allowed {
        allowed := allowed + [tools[i]];
      }
    }
    assert tools[..|tools|] == tools;
    forall t ensures CanExecute(policies, actor, t).allowed <==>
                       t in policies && FirstRole(actor) in policies[t].allowedRoles &&
                       actor.environment in policies[t].allowedEnvironments
    {
      DecisionMeans(policies, actor, t);
    }
  }
}

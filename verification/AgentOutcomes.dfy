/** What each call, each step and each batch of the agent loop shows for what happened,
    written out per outcome. */
module AgentOutcomes {
  import opened Common
  import opened Policy
  import opened AgentSpec
  import AgentSafety

  // ---------------------------------------------------------------- one call

  /** The handler runs exactly for an allowed call that needs no approval or has one, and
      only then can it succeed; everything else is an error or a deferral that says why. */
  lemma {:induction false} CallOutcome(policies: Policies, actor: Actor, g: Gateway, c: Call, approved: bool,
                                       outcome: Outcome)
    ensures var (g', r) := ExecuteTool(policies, actor, g, c.name, c.arguments, approved, c.id, outcome);
            var d := CanExecute(policies, actor, c.name);
            var cleared := d.allowed && (d.approvalRequired ==> approved);
            && r.callId == c.id && r.name == c.name
            && g'.executed ==
                 (if cleared && c.name in g.handlers then g.executed + [(c.name, c.arguments)] else g.executed)
            && (r.status == Success <==> cleared && c.name in g.handlers && outcome.Returned?)
            && (r.status == Success ==>
                  && r.raw == Some(outcome.raw) && r.error == None
                  && |r.content| == Min(500, |outcome.raw|) && r.content <= outcome.raw)
            && (r.status == PendingApproval <==> d.allowed && d.approvalRequired && !approved)
            && (r.status != Success ==> r.raw == None && r.content == "")
            && (!d.allowed ==> r.error == Some(Denied(d.reason)))
            && (r.status == PendingApproval ==> r.error == Some(AwaitsApproval))
            && (cleared && c.name !in g.handlers ==> r.error == Some(NoHandler(c.name)))
            && (cleared && c.name in g.handlers && outcome.Raised? ==> r.error == Some(Exception(outcome.message)))
  {
  }

  /** Whatever the outcome, one record and one audit event say who called what, where, with
      which arguments, and how it ended. */
  lemma {:induction false} CallIsRecorded(policies: Policies, actor: Actor, g: Gateway, c: Call, approved: bool,
                                          outcome: Outcome)
    ensures var (g', r) := ExecuteTool(policies, actor, g, c.name, c.arguments, approved, c.id, outcome);
            && g'.handlers == g.handlers
            && g'.audits == g.audits + [Audit(c.name, c.arguments, r.status)]
            && |g'.records| == |g.records| + 1 && g.records <= g'.records
            && var record := Last(g'.records);
               && record.id == c.id && record.toolName == c.name && record.arguments == c.arguments
               && record.actorId == actor.id && record.environment == actor.environment
               && record.status == r.status && record.error == r.error
  {
  }

  // --------------------------------------------------------------- one batch

  /** What the model is told about a call, and what is kept of it. */
  ghost predicate Shows(cfg: Config, handlers: set<string>, c: Call, outcome: Outcome, m: Message, s: ToolResult) {
    var d := CanExecute(cfg.policies, cfg.actor, c.name);
    && m.Tool? && m.callId == c.id && s.toolName == c.name
    && if !d.allowed then
         m.reply == Failed(c.name, Some(Denied(d.reason))) && s.status == FAILURE &&
         s.data == None && s.error == Some(Denied(d.reason))
       else if d.approvalRequired then
         m.reply == Deferred(c.name) && s.status == APPROVAL_REQUIRED &&
         s.data == None && s.error == Some(AwaitsApproval)
       else if c.name !in handlers then
         m.reply == Failed(c.name, Some(NoHandler(c.name))) && s.status == FAILURE &&
         s.data == None && s.error == Some(NoHandler(c.name))
       else
         match outcome
         case Returned(raw) =>
           && m.reply == (if raw == "" then NoOutput else Output(if |raw| <= 500 then raw else raw[..500]))
           && s.status == SUCCESS && s.data == Some(raw) && s.error == None
         case Raised(text) =>
           && m.reply == Failed(c.name, Some(Exception(text)))
           && s.status == FAILURE && s.data == None && s.error == Some(Exception(text))
  }

  lemma {:induction false} OneCallShows(cfg: Config, g: Gateway, c: Call, outcome: Outcome)
    ensures var r := ExecuteTool(cfg.policies, cfg.actor, g, c.name, c.arguments, false, c.id, outcome).1;
            Shows(cfg, g.handlers, c, outcome, ToolMessage(r), SchemaResult(r))
  {
  }

  lemma {:induction false} OneMoreShown(rs: seq<GatewayResult>, r: GatewayResult)
    ensures ToolMessages(rs + [r]) == ToolMessages(rs) + [ToolMessage(r)]
    ensures SchemaResults(rs + [r]) == SchemaResults(rs) + [SchemaResult(r)]
  {
    assert (rs + [r])[..|rs|] == rs;
  }

  /** Each call of a batch gets the message and the result its own outcome calls for. */
  ghost predicate AllShown(cfg: Config, handlers: set<string>, calls: seq<Call>, outcome: nat -> Outcome,
                           ms: seq<Message>, results: seq<ToolResult>) {
    && |ms| == |calls| && |results| == |calls|
    && forall k :: 0 <= k < |calls| ==> Shows(cfg, handlers, calls[k], outcome(k), ms[k], results[k])
  }

  lemma {:induction false} BatchShows(cfg: Config, g: Gateway, calls: seq<Call>, outcome: nat -> Outcome)
    ensures var rs := RunCalls(cfg, g, calls, outcome).1;
            AllShown(cfg, g.handlers, calls, outcome, ToolMessages(rs), SchemaResults(rs))
  {
    if calls != [] {
      var n := |calls| - 1;
      BatchShows(cfg, g, calls[..n], outcome);
      var (g1, rs1) := RunCalls(cfg, g, calls[..n], outcome);
      var c := calls[n];
      var r := ExecuteTool(cfg.policies, cfg.actor, g1, c.name, c.arguments, false, c.id, outcome(n)).1;
      AgentSafety.BatchInvokes(cfg, g, calls[..n], outcome);
      OneCallShows(cfg, g1, c, outcome(n));
      OneMoreShown(rs1, r);
    }
  }

  /** A tool step appends exactly those messages and results, and goes back to the model. */
  lemma {:induction false} ToolStepShows(cfg: Config, w: World, env: Env)
    requires w.agent.node == AtTool
    ensures var w' := Step(cfg, w, env);
            && w'.agent.node == AtModel
            && w.agent.messages <= w'.agent.messages && w.agent.toolResults <= w'.agent.toolResults
            && AllShown(cfg, w.gateway.handlers, PendingCalls(w.agent.messages), env.outcome,
                        w'.agent.messages[|w.agent.messages|..], w'.agent.toolResults[|w.agent.toolResults|..])
  {
    var rs := RunCalls(cfg, w.gateway, PendingCalls(w.agent.messages), env.outcome).1;
    BatchShows(cfg, w.gateway, PendingCalls(w.agent.messages), env.outcome);
    Appended(w.agent.messages, ToolMessages(rs));
    Appended(w.agent.toolResults, SchemaResults(rs));
  }

  lemma {:induction false} Appended<T>(s: seq<T>, more: seq<T>)
    ensures s <= s + more && (s + more)[|s|..] == more
  {
  }

  // ----------------------------------------------------------- other steps

  /** A model step appends the answer, gives missing ids fresh ones, and goes on to planning
      exactly when the answer has calls. */
  lemma {:induction false} ModelStepShows(cfg: Config, w: World, env: Env)
    requires w.agent.node == AtModel
    ensures var w' := Step(cfg, w, env);
            && w'.gateway == w.gateway
            && w'.agent.node == (if env.response.calls == [] then AtFinal else AtPlan)
            && |w'.agent.messages| == |w.agent.messages| + 1 && w.agent.messages <= w'.agent.messages
            && var m := Last(w'.agent.messages);
               && m.Assistant? && m.content == env.response.content && |m.calls| == |env.response.calls|
               && forall k :: 0 <= k < |m.calls| ==>
                    var c := env.response.calls[k];
                    && m.calls[k].name == c.name && m.calls[k].arguments == c.arguments
                    && m.calls[k].id == (if c.id == "" then env.freshId(k) else c.id)
                    && m.calls[k].id != ""
  {
  }

  /** A plan for a batch: what the registry offers this actor of it, with a status that says
      whether that is all of it, some, or nothing and so no plan. */
  ghost predicate Plans(cfg: Config, names: seq<string>, plan: Option<Plan>, status: PlanStatus) {
    && (status == OK <==> forall n :: n in names ==> Available(cfg, n))
    && (status == RETRY <==> forall n :: n in names ==> !Available(cfg, n))
    && (plan == None <==> status == RETRY)
    && (plan.Some? ==> forall n :: n in plan.value.requiredTools <==> n in names && Available(cfg, n))
  }

  lemma {:induction false} PlanNodePlans(cfg: Config, raw: Plan)
    requires raw.steps != [] && raw.requiredTools != []
    ensures var (plan, status) := PlanNode(cfg, Some(raw));
            && Plans(cfg, raw.requiredTools, plan, status)
            && (plan.Some? ==> plan.value == raw.(requiredTools := plan.value.requiredTools))
  {
    var names, available := raw.requiredTools, AvailableOf(cfg, raw.requiredTools);
    assert names[0] in names;
    assert available != [] ==> available[0] in available;
  }

  lemma {:induction false} DerivedPlan(cfg: Config, messages: seq<Message>)
    requires PendingCalls(messages) != []
    ensures var raw := DerivePlan(cfg, messages);
            var names := Names(PendingCalls(messages));
            && raw.Some? && names != [] && raw.value.requiredTools == names && |raw.value.steps| == |names|
            && (forall k :: 0 <= k < |names| ==> raw.value.steps[k] == CallTool(names[k]))
            && (raw.value.needApproval <==> exists n :: n in names && NeedsApproval(cfg.policies, cfg.actor, n))
            && raw.value.risk == RiskOf(cfg, names)
  {
    NeedMeans(cfg, Names(PendingCalls(messages)));
  }

  /** Planning lists the batch's tools that the registry offers this actor, with one step per
      call, the highest risk, and whether anything needs approval. */
  lemma {:induction false} PlanStepShows(cfg: Config, w: World, env: Env)
    requires w.agent.node == AtPlan && PendingCalls(w.agent.messages) != []
    ensures var w' := Step(cfg, w, env);
            var names := Names(PendingCalls(w.agent.messages));
            && w'.gateway == w.gateway && w'.agent.messages == w.agent.messages && w'.agent.node == AtApproval
            && w'.agent.planStatus.Some? && Plans(cfg, names, w'.agent.plan, w'.agent.planStatus.value)
            && (w'.agent.plan.Some? ==>
                  && |w'.agent.plan.value.steps| == |names|
                  && (forall k :: 0 <= k < |names| ==> w'.agent.plan.value.steps[k] == CallTool(names[k]))
                  && w'.agent.plan.value.risk == RiskOf(cfg, names)
                  && (w'.agent.plan.value.needApproval <==>
                        exists n :: n in names && NeedsApproval(cfg.policies, cfg.actor, n)))
  {
    DerivedPlan(cfg, w.agent.messages);
    PlanNodePlans(cfg, DerivePlan(cfg, w.agent.messages).value);
  }

  lemma {:induction false} NeedMeans(cfg: Config, names: seq<string>)
    ensures AnyNeedsApproval(cfg, names) <==> exists n :: n in names && NeedsApproval(cfg.policies, cfg.actor, n)
  {
    forall n | n in names
      ensures CanExecute(cfg.policies, cfg.actor, n).approvalRequired <==> NeedsApproval(cfg.policies, cfg.actor, n)
    {
      DecisionMeans(cfg.policies, cfg.actor, n);
    }
    if n :| n in names && NeedsApproval(cfg.policies, cfg.actor, n) {
      var k :| 0 <= k < |names| && names[k] == n;
    }
  }

  /** A request is made in the actor's name and environment, for the tools held. */
  lemma {:induction false} RequestShows(cfg: Config, w: World, env: Env)
    requires w.agent.node == AtApproval && Step(cfg, w, env).agent.node == Halted
    ensures var w' := Step(cfg, w, env);
            && |w'.agent.requests| == |w.agent.requests| + 1 && w.agent.requests <= w'.agent.requests
            && var request := Last(w'.agent.requests);
               && request.requester == cfg.actor.id && request.environment == cfg.actor.environment
               && request.tools == w'.agent.pendingApprovals != []
               && request.params.Keys == set n | n in request.tools
  {
  }

  // ------------------------------------------------------- which calls count

  /** No assistant message has calls. */
  predicate AsksNothing(messages: seq<Message>) {
    forall k :: 0 <= k < |messages| && messages[k].Assistant? ==> messages[k].calls == []
  }

  predicate SaysNothing(messages: seq<Message>) {
    forall k :: 0 <= k < |messages| ==> !messages[k].Assistant?
  }

  lemma {:induction false} NothingPending(messages: seq<Message>)
    requires AsksNothing(messages)
    ensures PendingCalls(messages) == [] && !WantsTools(messages)
  {
    if messages != [] {
      NothingPending(messages[..|messages| - 1]);
    }
  }

  /** The pending calls are those of the latest assistant message that has any, whatever
      follows it. */
  lemma {:induction false} LatestCallsArePending(before: seq<Message>, m: Message, after: seq<Message>)
    requires m.Assistant? && m.calls != [] && AsksNothing(after)
    ensures PendingCalls(before + [m] + after) == m.calls
    decreases |after|
  {
    var all := before + [m] + after;
    if after == [] {
      assert all == before + [m];
    } else {
      var n := |after| - 1;
      assert all[..|all| - 1] == before + [m] + after[..n];
      LatestCallsArePending(before, m, after[..n]);
    }
  }

  /** Tools are wanted exactly when the latest assistant message, whatever follows it, has
      calls. */
  lemma {:induction false} LatestAnswerDecides(before: seq<Message>, m: Message, after: seq<Message>)
    requires m.Assistant? && SaysNothing(after)
    ensures WantsTools(before + [m] + after) <==> m.calls != []
    decreases |after|
  {
    var all := before + [m] + after;
    if after == [] {
      assert all == before + [m];
    } else {
      var n := |after| - 1;
      assert all[..|all| - 1] == before + [m] + after[..n];
      LatestAnswerDecides(before, m, after[..n]);
    }
  }

  /** An answer without calls ends the run, whatever comes after: it is the last message, no
      tool runs and nothing else is said. */
  lemma {:induction false} AnswerEndsRun(cfg: Config, w: World, env: Env, end: Env, later: seq<Env>)
    requires w.agent.node == AtModel && env.response.calls == []
    ensures var w' := Run(cfg, w, [env, end] + later);
            && w'.agent.node == Done && w'.gateway == w.gateway
            && w'.agent.messages == w.agent.messages + [Assistant(env.response.content, [])]
            && w'.agent.toolResults == w.agent.toolResults
  {
    var w1 := Step(cfg, w, env);
    var w2 := Step(cfg, w1, end);
    ModelStepShows(cfg, w, env);
    assert w1.agent.messages == w.agent.messages + [Last(w1.agent.messages)];
    assert ([env, end] + later)[1..] == [end] + later && ([end] + later)[1..] == later;
    assert Run(cfg, w, [env, end] + later) == Run(cfg, w2, later);
    AgentSafety.HaltIsFinal(cfg, w2, later);
  }
}

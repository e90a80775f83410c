/** What every run of the agent loop keeps, for every model and every handler behaviour. */
module AgentSafety {
  import opened Common
  import opened Policy
  import opened AgentSpec

  // -------------------------------------------------- a well-formed dialogue

  /** Reads a conversation from the start: the ids still owed an answer, in order, or
      nothing if a tool message came unasked, or a turn while answers were due. */
  function Owed(messages: seq<Message>): Option<seq<string>> {
    if messages == [] then Some([])
    else
      var before := Owed(messages[..|messages| - 1]);
      if before.None? then None
      else
        match Last(messages)
        case Tool(_, id) => if before.value != [] && before.value[0] == id then Some(before.value[1..]) else None
        case Assistant(_, calls) => if before.value == [] then Some(Ids(calls)) else None
        case _ => if before.value == [] then Some([]) else None
  }

  function ToolIds(messages: seq<Message>): seq<string> {
    if messages == [] then []
    else ToolIds(messages[..|messages| - 1]) + (if Last(messages).Tool? then [Last(messages).callId] else [])
  }

  predicate AllReplies(messages: seq<Message>) {
    messages != [] ==> Last(messages).Tool? && AllReplies(messages[..|messages| - 1])
  }

  /** The calls that gateway records are about. */
  function CallLog(records: seq<Record>): (r: seq<Call>)
    ensures |r| == |records|
  {
    if records == [] then []
    else CallLog(records[..|records| - 1]) + [Call(Last(records).toolName, Last(records).arguments, Last(records).id)]
  }

  /** Every call the model made, in order. */
  function CallsOf(messages: seq<Message>): seq<Call> {
    if messages == [] then []
    else CallsOf(messages[..|messages| - 1]) + (if Last(messages).Assistant? then Last(messages).calls else [])
  }

  /** The handler invocations that running these calls amounts to: those whose tool may
      run freely and has a handler. */
  function Invocations(cfg: Config, handlers: set<string>, calls: seq<Call>): seq<(string, string)> {
    if calls == [] then []
    else
      var c := Last(calls);
      Invocations(cfg, handlers, calls[..|calls| - 1])
      + (if RunsFreely(cfg.policies, cfg.actor, c.name) && c.name in handlers then [(c.name, c.arguments)] else [])
  }

  // -------------------------------------------------------- one tool batch

  /** Every handler invocation since `n` was of a tool that may run freely. */
  ghost predicate OnlyFreeTools(cfg: Config, executed: seq<(string, string)>, n: nat) {
    forall k :: n <= k < |executed| ==> RunsFreely(cfg.policies, cfg.actor, executed[k].0)
  }

  /** A result, a record and an audit event about the same call. */
  ghost predicate SameCall(result: ToolResult, record: Record, audit: Audit) {
    && result.toolName == record.toolName
    && result.status == ToSchemaStatus(record.status)
    && audit == Audit(record.toolName, record.arguments, record.status)
  }

  lemma OneCallIsAnswered(cfg: Config, g: Gateway, c: Call, outcome: Outcome)
    ensures var r := ExecuteTool(cfg.policies, cfg.actor, g, c.name, c.arguments, false, c.id, outcome).1;
            r.callId == c.id && r.name == c.name
  {
  }

  /** One result per call, about that call, in order, and as many replies. */
  ghost predicate Answers(rs: seq<GatewayResult>, calls: seq<Call>) {
    && |rs| == |calls|
    && (forall k :: 0 <= k < |calls| ==> rs[k].callId == calls[k].id && rs[k].name == calls[k].name)
    && AllReplies(ToolMessages(rs)) && ToolIds(ToolMessages(rs)) == Ids(calls)
  }

  lemma {:induction false} BatchIsAnswered(cfg: Config, g: Gateway, calls: seq<Call>, outcome: nat -> Outcome)
    ensures Answers(RunCalls(cfg, g, calls, outcome).1, calls)
  {
    if calls != [] {
      var k := |calls| - 1;
      BatchIsAnswered(cfg, g, calls[..k], outcome);
      var (g1, rs1) := RunCalls(cfg, g, calls[..k], outcome);
      var c := calls[k];
      var r := ExecuteTool(cfg.policies, cfg.actor, g1, c.name, c.arguments, false, c.id, outcome(k)).1;
      OneCallIsAnswered(cfg, g1, c, outcome(k));
      OneMoreAnswer(rs1, calls[..k], r, c);
      assert calls == calls[..k] + [c];
    }
  }

  lemma {:induction false} OneMoreAnswer(rs: seq<GatewayResult>, calls: seq<Call>, r: GatewayResult, c: Call)
    requires Answers(rs, calls) && r.callId == c.id && r.name == c.name
    ensures Answers(rs + [r], calls + [c])
  {
    OneMoreReply(rs, r);
    assert (calls + [c])[..|calls|] == calls;
  }

  lemma {:induction false} OneMoreReply(rs: seq<GatewayResult>, r: GatewayResult)
    ensures ToolIds(ToolMessages(rs + [r])) == ToolIds(ToolMessages(rs)) + [r.callId]
    ensures AllReplies(ToolMessages(rs)) ==> AllReplies(ToolMessages(rs + [r]))
  {
    assert (rs + [r])[..|rs|] == rs;
    var ms := ToolMessages(rs) + [ToolMessage(r)];
    assert ms[..|rs|] == ToolMessages(rs);
  }

  /** A call's handler runs exactly when its tool may run freely and has a handler. */
  lemma InvokedIff(cfg: Config, g: Gateway, c: Call, outcome: Outcome)
    ensures var (g', r) := ExecuteTool(cfg.policies, cfg.actor, g, c.name, c.arguments, false, c.id, outcome);
            && (g'.executed != g.executed <==> RunsFreely(cfg.policies, cfg.actor, c.name) && c.name in g.handlers)
            && (r.status == PendingApproval <==> NeedsApproval(cfg.policies, cfg.actor, c.name))
            && (r.status == Success ==> g'.executed == g.executed + [(c.name, c.arguments)])
  {
  }

  lemma {:induction false} AnswerOne(messages: seq<Message>, reply: ToolText, id: string, rest: seq<string>)
    requires Owed(messages) == Some([id] + rest)
    ensures Owed(messages + [Tool(reply, id)]) == Some(rest)
    ensures ToolIds(messages + [Tool(reply, id)]) == ToolIds(messages) + [id]
  {
  }

  lemma {:induction false} ToolIdsJoin(a: seq<Message>, b: seq<Message>)
    ensures ToolIds(a + b) == ToolIds(a) + ToolIds(b)
  {
    if b == [] {
      assert a + b == a;
    } else {
      assert (a + b)[..|a + b| - 1] == a + b[..|b| - 1];
      ToolIdsJoin(a, b[..|b| - 1]);
    }
  }

  /** Tool messages with the ids owed settle exactly those. */
  lemma {:induction false} AnswersSettle(messages: seq<Message>, replies: seq<Message>, rest: seq<string>)
    requires AllReplies(replies) && Owed(messages) == Some(ToolIds(replies) + rest)
    ensures Owed(messages + replies) == Some(rest)
    decreases |replies|
  {
    if replies == [] {
      assert messages + replies == messages;
      assert ToolIds(replies) + rest == rest;
    } else {
      var front, m := replies[..|replies| - 1], Last(replies);
      assert ToolIds(front) + [m.callId] + rest == ToolIds(front) + ([m.callId] + rest);
      AnswersSettle(messages, front, [m.callId] + rest);
      AnswerOne(messages + front, m.reply, m.callId, rest);
      assert messages + replies == messages + front + [m];
    }
  }

  // ------------------------------------------------------------- invariant

  /** Which ids are owed an answer at each node. */
  function OwedAt(a: Agent): seq<string> {
    if a.node in {AtPlan, AtApproval, AtTool, Halted} then Ids(PendingCalls(a.messages)) else []
  }

  ghost predicate Dialogue(a: Agent) {
    && Owed(a.messages) == Some(OwedAt(a))
    && (a.node in {AtPlan, AtApproval, AtTool, Halted} ==>
          a.messages != [] && Last(a.messages).Assistant? && Last(a.messages).calls != [])
    && (a.node == Halted <==> a.approval == PENDING)
  }

  /** Tool results, and gateway records and audit events since `g0`, agree one for one and in order. */
  ghost predicate Ledger(g0: Gateway, g: Gateway, results: seq<ToolResult>) {
    && g0.records <= g.records && |g.records| == |g0.records| + |results|
    && g0.audits <= g.audits && |g.audits| == |g0.audits| + |results|
    && forall k :: 0 <= k < |results| ==> SameCall(results[k], g.records[|g0.records| + k], g.audits[|g0.audits| + k])
  }

  /** The calls answered since `w0`, by the gateway's own records. */
  function Answered(w0: World, w: World): seq<Call>
    requires w0.gateway.records <= w.gateway.records
  {
    CallLog(w.gateway.records[|w0.gateway.records|..])
  }

  /** ...and so do the tool messages, by id. */
  ghost predicate Books(w0: World, w: World) {
    && Ledger(w0.gateway, w.gateway, w.agent.toolResults)
    && ToolIds(w.agent.messages) == ToolIds(w0.agent.messages) + Ids(Answered(w0, w))
  }

  ghost predicate Safe(cfg: Config, w0: World, w: World) {
    && w0.gateway.executed <= w.gateway.executed
    && OnlyFreeTools(cfg, w.gateway.executed, |w0.gateway.executed|)
  }

  lemma {:induction false} ModelKeepsDialogue(cfg: Config, w: World, env: Env)
    requires w.agent.node == AtModel && Dialogue(w.agent)
    ensures Dialogue(Step(cfg, w, env).agent)
    ensures ToolIds(Step(cfg, w, env).agent.messages) == ToolIds(w.agent.messages)
  {
  }

  lemma {:induction false} ToolKeepsDialogue(cfg: Config, w: World, env: Env)
    requires w.agent.node == AtTool && Dialogue(w.agent)
    ensures Dialogue(Step(cfg, w, env).agent)
    ensures ToolIds(Step(cfg, w, env).agent.messages) == ToolIds(w.agent.messages) + Ids(PendingCalls(w.agent.messages))
  {
    var calls := PendingCalls(w.agent.messages);
    BatchIsAnswered(cfg, w.gateway, calls, env.outcome);
    BatchSettles(w.agent, Step(cfg, w, env).agent, ToolMessages(RunCalls(cfg, w.gateway, calls, env.outcome).1));
  }

  /** Once replied to, call by call, the agent is back at the model with nothing owed. */
  lemma BatchSettles(a: Agent, a': Agent, replies: seq<Message>)
    requires a.node == AtTool && Dialogue(a)
    requires AllReplies(replies) && ToolIds(replies) == Ids(PendingCalls(a.messages))
    requires a'.node == AtModel && a'.messages == a.messages + replies && a'.approval == a.approval
    ensures Dialogue(a') && ToolIds(a'.messages) == ToolIds(a.messages) + ToolIds(replies)
  {
    assert ToolIds(replies) + [] == ToolIds(replies);
    AnswersSettle(a.messages, replies, []);
    ToolIdsJoin(a.messages, replies);
  }

  lemma {:induction false} StepKeepsDialogue(cfg: Config, w: World, env: Env)
    requires Dialogue(w.agent)
    ensures Dialogue(Step(cfg, w, env).agent)
  {
    match w.agent.node
    case AtModel => ModelKeepsDialogue(cfg, w, env);
    case AtTool => ToolKeepsDialogue(cfg, w, env);
    case _ =>
  }

  lemma {:induction false} LedgerGrows(g0: Gateway, g: Gateway, g': Gateway, results: seq<ToolResult>,
                                       result: ToolResult)
    requires Ledger(g0, g, results)
    requires |g'.records| == |g.records| + 1 && g.records <= g'.records
    requires |g'.audits| == |g.audits| + 1 && g.audits <= g'.audits
    requires SameCall(result, Last(g'.records), Last(g'.audits))
    ensures Ledger(g0, g', results + [result])
  {
  }

  /** Each call of a batch adds one result, one record and one audit event, all about it. */
  lemma {:induction false} BatchKeepsLedger(cfg: Config, g0: Gateway, g: Gateway, results: seq<ToolResult>,
                                            calls: seq<Call>, outcome: nat -> Outcome)
    requires Ledger(g0, g, results)
    ensures var (g', rs) := RunCalls(cfg, g, calls, outcome);
            Ledger(g0, g', results + SchemaResults(rs))
  {
    if calls == [] {
      assert results + [] == results;
    } else {
      var k := |calls| - 1;
      BatchKeepsLedger(cfg, g0, g, results, calls[..k], outcome);
      var (g1, rs1) := RunCalls(cfg, g, calls[..k], outcome);
      OneCallKeepsLedger(cfg, g0, g1, results + SchemaResults(rs1), calls[k], outcome(k));
      var r := ExecuteTool(cfg.policies, cfg.actor, g1, calls[k].name, calls[k].arguments, false, calls[k].id,
          outcome(k)).1;
      AppendResult(results, rs1, r);
    }
  }

  lemma {:induction false} AppendResult(results: seq<ToolResult>, rs: seq<GatewayResult>, r: GatewayResult)
    ensures results + SchemaResults(rs + [r]) == results + SchemaResults(rs) + [SchemaResult(r)]
  {
  }

  lemma {:induction false} OneCallKeepsLedger(cfg: Config, g0: Gateway, g: Gateway, results: seq<ToolResult>, c: Call,
                                              outcome: Outcome)
    requires Ledger(g0, g, results)
    ensures var (g', r) := ExecuteTool(cfg.policies, cfg.actor, g, c.name, c.arguments, false, c.id, outcome);
            Ledger(g0, g', results + [SchemaResult(r)])
  {
    var (g', r) := ExecuteTool(cfg.policies, cfg.actor, g, c.name, c.arguments, false, c.id, outcome);
    LedgerGrows(g0, g, g', results, SchemaResult(r));
  }

  /** Running a batch records exactly its calls... */
  lemma {:induction false} BatchIsRecorded(cfg: Config, g: Gateway, calls: seq<Call>, outcome: nat -> Outcome)
    ensures var g' := RunCalls(cfg, g, calls, outcome).0;
            g.records <= g'.records && CallLog(g'.records[|g.records|..]) == calls
  {
    if calls != [] {
      var k := |calls| - 1;
      BatchIsRecorded(cfg, g, calls[..k], outcome);
      var g1 := RunCalls(cfg, g, calls[..k], outcome).0;
      OneCallIsAccounted(cfg, g1, calls[k], outcome(k));
      OneMoreRecorded(g.records, g1.records, RunCalls(cfg, g, calls, outcome).0.records, calls[..k], calls[k]);
      assert calls == calls[..k] + [calls[k]];
    }
  }

  lemma {:induction false} OneMoreRecorded(r0: seq<Record>, r1: seq<Record>, r2: seq<Record>, calls: seq<Call>, c: Call)
    requires r0 <= r1 <= r2 && |r2| == |r1| + 1 && CallLog(r1[|r0|..]) == calls
    requires Call(Last(r2).toolName, Last(r2).arguments, Last(r2).id) == c
    ensures CallLog(r2[|r0|..]) == calls + [c]
  {
    LogGrows(r0, r1, r2);
  }

  /** ...and invokes exactly the handlers that may run. */
  lemma {:induction false} BatchInvokes(cfg: Config, g: Gateway, calls: seq<Call>, outcome: nat -> Outcome)
    ensures var g' := RunCalls(cfg, g, calls, outcome).0;
            g'.handlers == g.handlers && g'.executed == g.executed + Invocations(cfg, g.handlers, calls)
  {
    if calls != [] {
      var k := |calls| - 1;
      BatchInvokes(cfg, g, calls[..k], outcome);
      OneCallIsAccounted(cfg, RunCalls(cfg, g, calls[..k], outcome).0, calls[k], outcome(k));
    }
  }

  lemma {:induction false} InvocationsAreFree(cfg: Config, handlers: set<string>, calls: seq<Call>)
    ensures forall k :: 0 <= k < |Invocations(cfg, handlers, calls)| ==>
              RunsFreely(cfg.policies, cfg.actor, Invocations(cfg, handlers, calls)[k].0)
  {
    if calls != [] {
      InvocationsAreFree(cfg, handlers, calls[..|calls| - 1]);
    }
  }

  lemma OneCallIsAccounted(cfg: Config, g: Gateway, c: Call, outcome: Outcome)
    ensures var g' := ExecuteTool(cfg.policies, cfg.actor, g, c.name, c.arguments, false, c.id, outcome).0;
            && g'.handlers == g.handlers
            && |g'.records| == |g.records| + 1 && g.records <= g'.records
            && Last(g'.records).toolName == c.name && Last(g'.records).arguments == c.arguments
                && Last(g'.records).id == c.id
            && g'.executed == g.executed +
                 (if RunsFreely(cfg.policies, cfg.actor, c.name) && c.name in g.handlers then [(c.name, c.arguments)]
                     else [])
  {
  }

  lemma LogGrows(r0: seq<Record>, r1: seq<Record>, r2: seq<Record>)
    requires r0 <= r1 <= r2 && |r2| == |r1| + 1
    ensures CallLog(r2[|r0|..]) == CallLog(r1[|r0|..]) + [Call(Last(r2).toolName, Last(r2).arguments, Last(r2).id)]
  {
    var news := r2[|r0|..];
    assert news[..|news| - 1] == r1[|r0|..];
  }

  lemma {:induction false} CallLogJoin(a: seq<Record>, b: seq<Record>)
    ensures CallLog(a + b) == CallLog(a) + CallLog(b)
  {
    if b == [] {
      assert a + b == a;
    } else {
      assert (a + b)[..|a + b| - 1] == a + b[..|b| - 1];
      CallLogJoin(a, b[..|b| - 1]);
    }
  }

  lemma {:induction false} IdsJoin(a: seq<Call>, b: seq<Call>)
    ensures Ids(a + b) == Ids(a) + Ids(b)
  {
    if b == [] {
      assert a + b == a;
    } else {
      assert (a + b)[..|a + b| - 1] == a + b[..|b| - 1];
      IdsJoin(a, b[..|b| - 1]);
    }
  }

  lemma {:induction false} InvocationsJoin(cfg: Config, handlers: set<string>, a: seq<Call>, b: seq<Call>)
    ensures Invocations(cfg, handlers, a + b) == Invocations(cfg, handlers, a) + Invocations(cfg, handlers, b)
  {
    if b == [] {
      assert a + b == a;
    } else {
      assert (a + b)[..|a + b| - 1] == a + b[..|b| - 1];
      InvocationsJoin(cfg, handlers, a, b[..|b| - 1]);
    }
  }

  /** A tool step answers exactly the pending calls. */
  lemma {:induction false} ToolStepAnswers(cfg: Config, w0: World, w: World, env: Env)
    requires w.agent.node == AtTool && w0.gateway.records <= w.gateway.records
    ensures var w' := Step(cfg, w, env);
            && w0.gateway.records <= w'.gateway.records
            && Answered(w0, w') == Answered(w0, w) + PendingCalls(w.agent.messages)
  {
    var w' := Step(cfg, w, env);
    BatchIsRecorded(cfg, w.gateway, PendingCalls(w.agent.messages), env.outcome);
    var before, more := w.gateway.records[|w0.gateway.records|..], w'.gateway.records[|w.gateway.records|..];
    assert w'.gateway.records[|w0.gateway.records|..] == before + more;
    CallLogJoin(before, more);
  }

  lemma {:induction false} ToolKeepsLedger(cfg: Config, g0: Gateway, w: World, env: Env)
    requires w.agent.node == AtTool && Ledger(g0, w.gateway, w.agent.toolResults)
    ensures Ledger(g0, Step(cfg, w, env).gateway, Step(cfg, w, env).agent.toolResults)
  {
    BatchKeepsLedger(cfg, g0, w.gateway, w.agent.toolResults, PendingCalls(w.agent.messages), env.outcome);
  }

  /** The books after some calls were answered. */
  lemma {:induction false} BooksAfter(w0: World, w: World, w': World, calls: seq<Call>)
    requires Books(w0, w) && Ledger(w0.gateway, w'.gateway, w'.agent.toolResults)
    requires Answered(w0, w') == Answered(w0, w) + calls
    requires ToolIds(w'.agent.messages) == ToolIds(w.agent.messages) + Ids(calls)
    ensures Books(w0, w')
  {
    IdsJoin(Answered(w0, w), calls);
  }

  lemma {:induction false} ToolKeepsBooks(cfg: Config, w0: World, w: World, env: Env)
    requires w.agent.node == AtTool && Dialogue(w.agent) && Books(w0, w)
    ensures Books(w0, Step(cfg, w, env))
  {
    ToolKeepsLedger(cfg, w0.gateway, w, env);
    ToolKeepsDialogue(cfg, w, env);
    ToolStepAnswers(cfg, w0, w, env);
    BooksAfter(w0, w, Step(cfg, w, env), PendingCalls(w.agent.messages));
  }

  lemma {:induction false} StepKeepsBooks(cfg: Config, w0: World, w: World, env: Env)
    requires Dialogue(w.agent) && Books(w0, w)
    ensures Books(w0, Step(cfg, w, env))
  {
    match w.agent.node
    case AtModel => ModelKeepsDialogue(cfg, w, env);
    case AtTool => ToolKeepsBooks(cfg, w0, w, env);
    case _ =>
  }

  lemma {:induction false} StepKeepsSafe(cfg: Config, w0: World, w: World, env: Env)
    requires Safe(cfg, w0, w)
    ensures Safe(cfg, w0, Step(cfg, w, env))
  {
    if w.agent.node == AtTool {
      BatchInvokes(cfg, w.gateway, PendingCalls(w.agent.messages), env.outcome);
      InvocationsAreFree(cfg, w.gateway.handlers, PendingCalls(w.agent.messages));
    }
  }

  // --------------------------------------------------------- main results

  /** No handler of a denied or approval-required tool ever runs: for every conversation,
      every model, every handler, every number of steps. */
  lemma {:induction false} NoGatedHandlerEverRuns(cfg: Config, w0: World, w: World, envs: seq<Env>)
    requires Safe(cfg, w0, w)
    ensures Safe(cfg, w0, Run(cfg, w, envs))
    decreases |envs|
  {
    if envs != [] {
      StepKeepsSafe(cfg, w0, w, envs[0]);
      NoGatedHandlerEverRuns(cfg, w0, Step(cfg, w, envs[0]), envs[1..]);
    }
  }

  /** Said of the declared policies: from any point of any run on, every handler that runs is
      of a declared tool that lists the actor's first role and environment, sets no approval
      flag and has risk L1, L2 or L3. */
  lemma {:induction false} HandlersRunAsDeclared(cfg: Config, w: World, envs: seq<Env>, k: nat)
    requires |w.gateway.executed| <= k < |Run(cfg, w, envs).gateway.executed|
    ensures var tool := Run(cfg, w, envs).gateway.executed[k].0;
            var role := if cfg.actor.roles == [] then "" else cfg.actor.roles[0];
            && tool in cfg.policies
            && role in cfg.policies[tool].allowedRoles
            && cfg.actor.environment in cfg.policies[tool].allowedEnvironments
            && !cfg.policies[tool].approvalRequired
            && cfg.policies[tool].risk in {L1, L2, L3}
  {
    NoGatedHandlerEverRuns(cfg, w, w, envs);
    FreedomMeans(cfg.policies, cfg.actor, Run(cfg, w, envs).gateway.executed[k].0);
  }

  lemma {:induction false} RunKeepsDialogueAndBooks(cfg: Config, w0: World, w: World, envs: seq<Env>)
    requires Dialogue(w.agent) && Books(w0, w)
    ensures Dialogue(Run(cfg, w, envs).agent) && Books(w0, Run(cfg, w, envs))
    decreases |envs|
  {
    if envs != [] {
      StepKeepsDialogue(cfg, w, envs[0]);
      StepKeepsBooks(cfg, w0, w, envs[0]);
      RunKeepsDialogueAndBooks(cfg, w0, Step(cfg, w, envs[0]), envs[1..]);
    }
  }

  /** On a fresh thread whose conversation so far is settled: tool messages keep answering
      the calls of the preceding assistant turn one for one, in order; nothing is owed when
      the final answer is rendered, exactly the last batch is at a halt; and messages,
      results, records and audit events stay aligned. */
  lemma {:induction false} ConversationStaysWellFormed(cfg: Config, messages: seq<Message>, g: Gateway, envs: seq<Env>)
    requires Owed(messages) == Some([])
    ensures var w := Run(cfg, Start(messages, g), envs);
            && Books(Start(messages, g), w)
            && Owed(w.agent.messages) == Some(OwedAt(w.agent))
            && (w.agent.node in {AtFinal, Done} ==> Owed(w.agent.messages) == Some([]))
            && (w.agent.node == Halted ==>
                  && w.agent.messages != [] && Last(w.agent.messages).Assistant?
                  && Owed(w.agent.messages) == Some(Ids(Last(w.agent.messages).calls)))
  {
    var w0 := Start(messages, g);
    assert g.records[|g.records|..] == [];
    RunKeepsDialogueAndBooks(cfg, w0, w0, envs);
  }

  /** Calls the model made that wait for their answer. */
  function Waiting(a: Agent): seq<Call> {
    if a.node in {AtPlan, AtApproval, AtTool, Halted} then PendingCalls(a.messages) else []
  }

  /** Since `w0`: the model's calls are the answered ones and then those waiting, and the
      handler invocations are those the answered calls amount to. */
  ghost predicate Accounted(cfg: Config, w0: World, w: World) {
    && w.gateway.handlers == w0.gateway.handlers
    && w0.gateway.records <= w.gateway.records
    && CallsOf(w.agent.messages) == CallsOf(w0.agent.messages) + Answered(w0, w) + Waiting(w.agent)
    && w.gateway.executed == w0.gateway.executed + Invocations(cfg, w0.gateway.handlers, Answered(w0, w))
  }

  lemma {:induction false} RepliesAreNoCalls(messages: seq<Message>, replies: seq<Message>)
    requires AllReplies(replies)
    ensures CallsOf(messages + replies) == CallsOf(messages)
  {
    if replies == [] {
      assert messages + [] == messages;
    } else {
      var all := messages + replies;
      assert all[..|all| - 1] == messages + replies[..|replies| - 1];
      RepliesAreNoCalls(messages, replies[..|replies| - 1]);
    }
  }

  lemma ToolStepInvokes(cfg: Config, w: World, env: Env)
    requires w.agent.node == AtTool
    ensures var w' := Step(cfg, w, env);
            && w'.gateway.handlers == w.gateway.handlers
            && w'.gateway.executed ==
                w.gateway.executed + Invocations(cfg, w.gateway.handlers, PendingCalls(w.agent.messages))
            && CallsOf(w'.agent.messages) == CallsOf(w.agent.messages)
            && w'.agent.node == AtModel
  {
    var calls := PendingCalls(w.agent.messages);
    BatchInvokes(cfg, w.gateway, calls, env.outcome);
    BatchIsAnswered(cfg, w.gateway, calls, env.outcome);
    RepliesAreNoCalls(w.agent.messages, ToolMessages(RunCalls(cfg, w.gateway, calls, env.outcome).1));
  }

  lemma ToolKeepsAccounts(cfg: Config, w0: World, w: World, env: Env)
    requires w.agent.node == AtTool && Accounted(cfg, w0, w)
    ensures Accounted(cfg, w0, Step(cfg, w, env))
  {
    ToolStepAnswers(cfg, w0, w, env);
    ToolStepInvokes(cfg, w, env);
    MoreAnswered(cfg, w0, w, Step(cfg, w, env), PendingCalls(w.agent.messages));
  }

  /** The waiting calls have become answered ones. */
  lemma {:induction false} MoreAnswered(cfg: Config, w0: World, w: World, w': World, calls: seq<Call>)
    requires Accounted(cfg, w0, w) && Waiting(w.agent) == calls
    requires w0.gateway.records <= w'.gateway.records && Answered(w0, w') == Answered(w0, w) + calls
    requires w'.gateway.handlers == w.gateway.handlers && Waiting(w'.agent) == []
    requires w'.gateway.executed == w.gateway.executed + Invocations(cfg, w.gateway.handlers, calls)
    requires CallsOf(w'.agent.messages) == CallsOf(w.agent.messages)
    ensures Accounted(cfg, w0, w')
  {
    InvocationsJoin(cfg, w.gateway.handlers, Answered(w0, w), calls);
    Regroup(CallsOf(w0.agent.messages), Answered(w0, w), calls);
    Regroup(w0.gateway.executed, Invocations(cfg, w0.gateway.handlers, Answered(w0, w)),
        Invocations(cfg, w0.gateway.handlers, calls));
  }

  lemma {:induction false} Regroup<T>(a: seq<T>, b: seq<T>, c: seq<T>)
    ensures a + b + c == a + (b + c) + [] == a + (b + c)
  {
  }

  lemma {:induction false} ModelKeepsAccounts(cfg: Config, w0: World, w: World, env: Env)
    requires w.agent.node == AtModel && Accounted(cfg, w0, w)
    ensures Accounted(cfg, w0, Step(cfg, w, env))
  {
    var m := w.agent.messages + [Assistant(env.response.content, NamedCalls(env.response.calls, env.freshId))];
    assert m[..|m| - 1] == w.agent.messages;
  }

  lemma StepKeepsAccounts(cfg: Config, w0: World, w: World, env: Env)
    requires Accounted(cfg, w0, w)
    ensures Accounted(cfg, w0, Step(cfg, w, env))
  {
    match w.agent.node
    case AtModel => ModelKeepsAccounts(cfg, w0, w, env);
    case AtTool => ToolKeepsAccounts(cfg, w0, w, env);
    case _ =>
  }

  lemma {:induction false} RunKeepsAccounts(cfg: Config, w0: World, w: World, envs: seq<Env>)
    requires Accounted(cfg, w0, w)
    ensures Accounted(cfg, w0, Run(cfg, w, envs))
    decreases |envs|
  {
    if envs != [] {
      StepKeepsAccounts(cfg, w0, w, envs[0]);
      RunKeepsAccounts(cfg, w0, Step(cfg, w, envs[0]), envs[1..]);
    }
  }

  /** Over every run: the calls the model made are answered in order, up to those waiting,
      and the handlers invoked are exactly those of the answered calls whose tool may run
      freely and has a handler, once each and in order. */
  lemma {:induction false} InvocationsAreExact(cfg: Config, messages: seq<Message>, g: Gateway, envs: seq<Env>)
    ensures Accounted(cfg, Start(messages, g), Run(cfg, Start(messages, g), envs))
  {
    assert g.records[|g.records|..] == [];
    RunKeepsAccounts(cfg, Start(messages, g), Start(messages, g), envs);
  }

  // --------------------------------------------------------------- halting

  predicate Registered(cfg: Config, name: string) {
    name in cfg.registered
  }

  /** Which batches wait for approval: those with an approval-required tool that is in the
      registry, or, when no member of the batch is both registered and permitted, with any
      approval-required tool. */
  ghost predicate MustWait(cfg: Config, names: seq<string>) {
    exists n :: n in names && NeedsApproval(cfg.policies, cfg.actor, n) &&
      (Registered(cfg, n) || forall m :: m in names ==> !Available(cfg, m))
  }

  /** Only members of the batch that need approval are asked for, and every registered one is. */
  ghost predicate AsksFor(cfg: Config, names: seq<string>, pending: seq<string>) {
    && (forall n :: n in pending ==> n in names && NeedsApproval(cfg.policies, cfg.actor, n))
    && (forall n :: n in names && Registered(cfg, n) && NeedsApproval(cfg.policies, cfg.actor, n) ==> n in pending)
  }

  /** After planning and the approval node, a batch halts exactly when it must wait.  It
      then sits unanswered with no gateway call, no handler run for any of its members, and
      a request for exactly the candidates that need approval, whatever the plan's fate:
      kept, trimmed, or dropped for a retry. */
  lemma {:induction false} BatchHaltsIff(cfg: Config, w: World, e1: Env, e2: Env)
    requires w.agent.node == AtPlan && PendingCalls(w.agent.messages) != []
    ensures var names := Names(PendingCalls(w.agent.messages));
            var w2 := Step(cfg, Step(cfg, w, e1), e2);
            && w2.gateway == w.gateway && w2.agent.messages == w.agent.messages
            && (w2.agent.node == Halted <==> MustWait(cfg, names))
            && (w2.agent.node != Halted ==> w2.agent.node == AtTool)
            && (w2.agent.node == Halted ==>
                w2.agent.approval == PENDING && AsksFor(cfg, names, w2.agent.pendingApprovals))
  {
    PlanningLeavesCandidates(cfg, w, e1);
    WaitingCandidates(cfg, Names(PendingCalls(w.agent.messages)));
    ApprovalHaltsIff(cfg, Step(cfg, w, e1), e2);
  }

  /** Planning leaves the available members as candidates if there are any, else all. */
  lemma {:induction false} PlanningLeavesCandidates(cfg: Config, w: World, env: Env)
    requires w.agent.node == AtPlan && PendingCalls(w.agent.messages) != []
    ensures var names := Names(PendingCalls(w.agent.messages));
            var available := AvailableOf(cfg, names);
            var w' := Step(cfg, w, env);
            && w'.gateway == w.gateway && w'.agent.messages == w.agent.messages && w'.agent.node == AtApproval
            && CandidateTools(w'.agent.plan, w'.agent.messages) == if available == [] then names else available
  {
  }

  lemma {:induction false} ApprovalHaltsIff(cfg: Config, w: World, env: Env)
    requires w.agent.node == AtApproval
    ensures var required := RequiredOf(cfg, CandidateTools(w.agent.plan, w.agent.messages));
            var w' := Step(cfg, w, env);
            && w'.gateway == w.gateway && w'.agent.messages == w.agent.messages
            && w'.agent.node == (if required == [] then AtTool else Halted)
            && w'.agent.approval == (if required == [] then NOT_REQUIRED else PENDING)
            && w'.agent.pendingApprovals == required
  {
  }

  /** `required` holds the candidates that need approval, `available` the batch's members
      that are registered and permitted. */
  ghost predicate Chosen(cfg: Config, names: seq<string>, available: seq<string>, required: seq<string>) {
    && (forall n :: n in available <==> n in names && Available(cfg, n))
    && (forall n :: n in required <==>
          n in (if available == [] then names else available) && NeedsApproval(cfg.policies, cfg.actor, n))
  }

  lemma GatedIsAvailable(cfg: Config, n: string)
    requires Registered(cfg, n) && NeedsApproval(cfg.policies, cfg.actor, n)
    ensures Available(cfg, n)
  {
  }

  lemma {:induction false} ChosenAsksFor(cfg: Config, names: seq<string>, available: seq<string>, required: seq<string>)
    requires Chosen(cfg, names, available, required)
    ensures AsksFor(cfg, names, required)
  {
    forall n | n in names && Registered(cfg, n) && NeedsApproval(cfg.policies, cfg.actor, n) ensures n in required {
      GatedIsAvailable(cfg, n);
      assert n in available;
    }
  }

  lemma {:induction false} ChosenMustWait(cfg: Config, names: seq<string>, available: seq<string>,
                                          required: seq<string>)
    requires Chosen(cfg, names, available, required) && required != []
    ensures MustWait(cfg, names)
  {
    var n := required[0];
    assert n in required;
    if available == [] {
      assert forall m :: m in names ==> m in available || !Available(cfg, m);
    } else {
      assert n in available;
    }
  }

  lemma {:induction false} HasMemberIff(names: seq<string>)
    ensures names != [] <==> exists n :: n in names
  {
    assert names != [] ==> names[0] in names;
  }

  lemma {:induction false} WaitingIsChosen(cfg: Config, names: seq<string>, available: seq<string>,
                                           required: seq<string>)
    requires Chosen(cfg, names, available, required) && MustWait(cfg, names)
    ensures required != []
  {
    var n :| n in names && NeedsApproval(cfg.policies, cfg.actor, n) &&
             (Registered(cfg, n) || forall m :: m in names ==> !Available(cfg, m));
    HasMemberIff(available);
    if Registered(cfg, n) {
      GatedIsAvailable(cfg, n);
    }
    assert n in required;
  }

  lemma {:induction false} WaitingCandidates(cfg: Config, names: seq<string>)
    ensures var available := AvailableOf(cfg, names);
            var required := RequiredOf(cfg, if available == [] then names else available);
            && (required != [] <==> MustWait(cfg, names))
            && AsksFor(cfg, names, required)
  {
    var available := AvailableOf(cfg, names);
    var required := RequiredOf(cfg, if available == [] then names else available);
    if required != [] {
      ChosenMustWait(cfg, names, available, required);
    }
    if MustWait(cfg, names) {
      WaitingIsChosen(cfg, names, available, required);
    }
    ChosenAsksFor(cfg, names, available, required);
  }

  /** A halted or finished run never moves again. */
  lemma {:induction false} HaltIsFinal(cfg: Config, w: World, envs: seq<Env>)
    requires w.agent.node in {Halted, Done}
    ensures Run(cfg, w, envs) == w
    decreases |envs|
  {
    if envs != [] {
      HaltIsFinal(cfg, w, envs[1..]);
    }
  }

  /** So a batch that must wait is never handed to the gateway, however the run goes on:
      it stays unanswered, and the run never leaves the halt. */
  lemma {:induction false} HeldBatchIsNeverRun(cfg: Config, w: World, envs: seq<Env>)
    requires w.agent.node == AtPlan && PendingCalls(w.agent.messages) != []
    requires MustWait(cfg, Names(PendingCalls(w.agent.messages)))
    ensures var w' := Run(cfg, w, envs);
            && w'.gateway == w.gateway && w'.agent.messages == w.agent.messages
            && (|envs| >= 2 ==> w'.agent.node == Halted && w'.agent.approval == PENDING)
  {
    if |envs| >= 2 {
      BatchHaltsIff(cfg, w, envs[0], envs[1]);
      assert Run(cfg, w, envs) == Run(cfg, Step(cfg, Step(cfg, w, envs[0]), envs[1]), envs[1..][1..]);
      HaltIsFinal(cfg, Step(cfg, Step(cfg, w, envs[0]), envs[1]), envs[1..][1..]);
    } else if |envs| == 1 {
      assert Run(cfg, w, envs) == Run(cfg, Step(cfg, w, envs[0]), []);
    }
  }

  // -------------------------------------------------------- dual approval

  lemma {:induction false} RiskOfIsHighest(cfg: Config, names: seq<string>)
    ensures forall n :: n in names && n in cfg.policies ==> Rank(cfg.policies[n].risk) <= Rank(RiskOf(cfg, names))
    ensures RiskOf(cfg, names) == L1 ||
            exists n :: n in names && n in cfg.policies && cfg.policies[n].risk == RiskOf(cfg, names)
  {
    if names != [] {
      var front := names[..|names| - 1];
      RiskOfIsHighest(cfg, front);
      assert names == front + [Last(names)];
      assert Last(names) in names;
      assert forall n :: n in front ==> n in names;
    }
  }

  lemma RiskIsL5Iff(cfg: Config, names: seq<string>)
    ensures RiskOf(cfg, names) == L5 <==> exists n :: n in names && n in cfg.policies && cfg.policies[n].risk == L5
  {
  }

  /** The approval node asks for an L5 approval exactly when a required tool is L5. */
  lemma RequestRiskIsL5Iff(cfg: Config, plan: Option<Plan>, messages: seq<Message>)
    requires ApprovalNode(cfg, plan, messages).Some?
    ensures var request := ApprovalNode(cfg, plan, messages).value;
            request.risk == L5 <==> exists n :: n in request.tools && n in cfg.policies && cfg.policies[n].risk == L5
  {
    RiskIsL5Iff(cfg, RequiredOf(cfg, CandidateTools(plan, messages)));
  }

  /** A request snapshots, for each tool it names, the arguments of that tool's first call
      in the batch being held. */
  lemma {:induction false} RequestSnapshotsArguments(cfg: Config, w: World, name: string)
    requires w.agent.node == AtApproval && Dialogue(w.agent)
    requires ApprovalNode(cfg, w.agent.plan, w.agent.messages).Some?
    requires name in ApprovalNode(cfg, w.agent.plan, w.agent.messages).value.tools
    requires name in Names(PendingCalls(w.agent.messages))
    ensures var request := ApprovalNode(cfg, w.agent.plan, w.agent.messages).value;
            var calls := PendingCalls(w.agent.messages);
            && name in request.params
            && exists k :: 0 <= k < |calls| && calls[k].name == name && calls[k].arguments == request.params[name]
                           && forall j :: 0 <= j < k ==> calls[j].name != name
  {
  }
}

/** The agent loop as a state machine over its graph edges, driven by an arbitrary model
    and arbitrary tool handlers. */
module AgentSpec {
  import opened Common
  import opened Policy

  // ------------------------------------------------------------- messages

  datatype Call = Call(name: string, arguments: string, id: string)

  datatype Message =
    | System(text: string)
    | User(text: string)
    | Assistant(content: string, calls: seq<Call>)
    | Tool(reply: ToolText, callId: string)

  /** The wordings a tool message can have. */
  datatype ToolText =
    | Output(content: string)
    | NoOutput
    | Failed(name: string, error: Option<Failure>)
    | Deferred(name: string)

  /** The wordings an error can have. */
  datatype Failure = Denied(reason: Reason) | AwaitsApproval | NoHandler(name: string) | Exception(message: string)

  /** What the model may answer: text, and calls whose ids it may leave out. */
  datatype Response = Response(content: string, calls: seq<ModelCall>)

  datatype ModelCall = ModelCall(name: string, arguments: string, id: string)

  type Uuid = s: string | s != "" witness "0"

  /** What handlers do is not up to the loop: each returns some text or raises. */
  datatype Outcome = Returned(raw: string) | Raised(message: string)

  /** Everything a step takes from outside: the model's answer, fresh ids, handler outcomes. */
  datatype Env = Env(response: Response, freshId: nat -> Uuid, outcome: nat -> Outcome)

  function NamedCalls(calls: seq<ModelCall>, freshId: nat -> Uuid): (r: seq<Call>)
    ensures |r| == |calls|
    ensures forall k :: 0 <= k < |r| ==>
              r[k] == Call(calls[k].name, calls[k].arguments, if calls[k].id == "" then freshId(k) else calls[k].id)
  {
    seq(|calls|, k requires 0 <= k < |calls| =>
      Call(calls[k].name, calls[k].arguments, if calls[k].id == "" then freshId(k) else calls[k].id))
  }

  /** The latest assistant message's calls, skipping assistant messages without calls. */
  function PendingCalls(messages: seq<Message>): seq<Call> {
    if messages == [] then []
    else if Last(messages).Assistant? && Last(messages).calls != [] then Last(messages).calls
    else PendingCalls(messages[..|messages| - 1])
  }

  /** Whether the latest assistant message asks for tools. */
  predicate WantsTools(messages: seq<Message>) {
    messages != [] &&
    if Last(messages).Assistant? then Last(messages).calls != [] else WantsTools(messages[..|messages| - 1])
  }

  function Names(calls: seq<Call>): (r: seq<string>)
    ensures |r| == |calls| && forall k :: 0 <= k < |r| ==> r[k] == calls[k].name
  {
    if calls == [] then [] else [calls[0].name] + Names(calls[1..])
  }

  function Ids(calls: seq<Call>): (r: seq<string>)
    ensures |r| == |calls|
  {
    if calls == [] then [] else Ids(calls[..|calls| - 1]) + [Last(calls).id]
  }

  // -------------------------------------------------------------- gateway

  datatype Status = Success | Error | PendingApproval

  datatype GatewayResult = GatewayResult(
    callId: string, name: string, status: Status, content: string, error: Option<Failure>, raw: Option<string>)

  datatype Record = Record(
    id: string, toolName: string, actorId: string, environment: string, arguments: string, status: Status,
    error: Option<Failure>)

  datatype Audit = Audit(toolName: string, arguments: string, status: Status)

  /** Gateway state; `executed` lists the handler invocations, in order. */
  datatype Gateway = Gateway(
    handlers: set<string>, records: seq<Record>, audits: seq<Audit>, executed: seq<(string, string)>)

  function Summarize(raw: string): string {
    if |raw| <= 500 then raw else raw[..500]
  }

  /** What the gateway decides before and after the handler. */
  function Verdict(policies: Policies, actor: Actor, handlers: set<string>, name: string, approved: bool,
                   callId: string, outcome: Outcome): GatewayResult {
    var d := CanExecute(policies, actor, name);
    if !d.allowed then GatewayResult(callId, name, Error, "", Some(Denied(d.reason)), None)
    else if d.approvalRequired && !approved then
      GatewayResult(callId, name, PendingApproval, "", Some(AwaitsApproval), None)
    else if name !in handlers then GatewayResult(callId, name, Error, "", Some(NoHandler(name)), None)
    else match outcome
      case Returned(raw) => GatewayResult(callId, name, Success, Summarize(raw), None, Some(raw))
      case Raised(text) => GatewayResult(callId, name, Error, "", Some(Exception(text)), None)
  }

  predicate Invokes(policies: Policies, actor: Actor, handlers: set<string>, name: string, approved: bool) {
    var d := CanExecute(policies, actor, name);
    d.allowed && (d.approvalRequired ==> approved) && name in handlers
  }

  function Finish(g: Gateway, actor: Actor, arguments: string, r: GatewayResult): Gateway {
    g.(records := g.records + [Record(r.callId, r.name, actor.id, actor.environment, arguments, r.status, r.error)],
       audits := g.audits + [Audit(r.name, arguments, r.status)])
  }

  function ExecuteTool(policies: Policies, actor: Actor, g: Gateway, name: string, arguments: string, approved: bool,
                       callId: string, outcome: Outcome): (r: (Gateway, GatewayResult))
  {
    var result := Verdict(policies, actor, g.handlers, name, approved, callId, outcome);
    var g' := if Invokes(policies, actor, g.handlers, name, approved)
        then g.(executed := g.executed + [(name, arguments)]) else g;
    (Finish(g', actor, arguments, result), result)
  }

  // ------------------------------------------------------------ tool node

  datatype ToolStatus = SUCCESS | FAILURE | APPROVAL_REQUIRED

  datatype ToolResult = ToolResult(toolName: string, status: ToolStatus, data: Option<string>, error: Option<Failure>)

  function ToSchemaStatus(s: Status): ToolStatus {
    match s case Success => SUCCESS case Error => FAILURE case PendingApproval => APPROVAL_REQUIRED
  }

  function ToolMessage(r: GatewayResult): Message {
    Tool(match r.status
         case Success => if r.content == "" then NoOutput else Output(r.content)
         case Error => Failed(r.name, r.error)
         case PendingApproval => Deferred(r.name),
         r.callId)
  }

  function SchemaResult(r: GatewayResult): ToolResult {
    ToolResult(r.name, ToSchemaStatus(r.status), if r.status == Success then r.raw else None, r.error)
  }

  datatype Config = Config(policies: Policies, actor: Actor, registered: seq<string>)

  /** Running the first calls of a batch in order, one result each. */
  function RunCalls(cfg: Config, g: Gateway, calls: seq<Call>,
                    outcome: nat -> Outcome): (r: (Gateway, seq<GatewayResult>))
    ensures |r.1| == |calls|
  {
    if calls == [] then (g, [])
    else
      var k := |calls| - 1;
      var (g', rs) := RunCalls(cfg, g, calls[..k], outcome);
      var (g'', result) :=
          ExecuteTool(cfg.policies, cfg.actor, g', calls[k].name, calls[k].arguments, false, calls[k].id, outcome(k));
      (g'', rs + [result])
  }

  function ToolMessages(rs: seq<GatewayResult>): (r: seq<Message>)
    ensures |r| == |rs|
  {
    if rs == [] then [] else ToolMessages(rs[..|rs| - 1]) + [ToolMessage(Last(rs))]
  }

  function SchemaResults(rs: seq<GatewayResult>): (r: seq<ToolResult>)
    ensures |r| == |rs|
  {
    if rs == [] then [] else SchemaResults(rs[..|rs| - 1]) + [SchemaResult(Last(rs))]
  }

  // ------------------------------------------------------------ plan node

  datatype PlannedCall = CallTool(name: string)

  datatype Plan = Plan(steps: seq<PlannedCall>, requiredTools: seq<string>, risk: RiskLevel, needApproval: bool)

  datatype PlanStatus = OK | RETRY | DEGRADED

  /** The highest risk among the named tools' policies, whether or not they are permitted. */
  function RiskOf(cfg: Config, names: seq<string>): RiskLevel {
    if names == [] then L1
    else
      var sofar := RiskOf(cfg, names[..|names| - 1]);
      var d := CanExecute(cfg.policies, cfg.actor, Last(names));
      if d.risk.Some? && Rank(d.risk.value) > Rank(sofar) then d.risk.value else sofar
  }

  predicate AnyNeedsApproval(cfg: Config, names: seq<string>) {
    exists k :: 0 <= k < |names| && CanExecute(cfg.policies, cfg.actor, names[k]).approvalRequired
  }

  function DerivePlan(cfg: Config, messages: seq<Message>): Option<Plan> {
    var names := Names(PendingCalls(messages));
    if names == [] then None
    else Some(Plan(seq(|names|, k requires 0 <= k < |names| => CallTool(names[k])),
                   names, RiskOf(cfg, names), AnyNeedsApproval(cfg, names)))
  }

  predicate Available(cfg: Config, name: string) {
    name in cfg.registered && CanExecute(cfg.policies, cfg.actor, name).allowed
  }

  function AvailableOf(cfg: Config, names: seq<string>): (r: seq<string>)
    ensures forall n :: n in r <==> n in names && Available(cfg, n)
    ensures |r| <= |names|
    ensures r == names <==> forall n :: n in names ==> Available(cfg, n)
  {
    if names == [] then []
    else
      assert names == names[..|names| - 1] + [Last(names)];
      AvailableOf(cfg, names[..|names| - 1]) + (if Available(cfg, Last(names)) then [Last(names)] else [])
  }

  /** Validation, then trimming to what the registry offers this actor. */
  function PlanNode(cfg: Config, raw: Option<Plan>): (Option<Plan>, PlanStatus) {
    if raw.None? || raw.value.steps == [] then (None, RETRY)
    else
      var allowed := AvailableOf(cfg, raw.value.requiredTools);
      if allowed == raw.value.requiredTools then (raw, OK)
      else if allowed == [] then (None, RETRY)
      else (Some(raw.value.(requiredTools := allowed)), DEGRADED)
  }

  // -------------------------------------------------------- approval node

  datatype ApprovalState = NOT_REQUIRED | PENDING

  datatype Request = Request(
    requester: string, tools: seq<string>, params: map<string, string>, risk: RiskLevel, environment: string)

  /** The plan's tools if it lists any, else every pending call's. */
  function CandidateTools(plan: Option<Plan>, messages: seq<Message>): seq<string> {
    if plan.Some? && plan.value.requiredTools != [] then plan.value.requiredTools
    else Names(PendingCalls(messages))
  }

  /** Candidates that need an approval. */
  function RequiredOf(cfg: Config, names: seq<string>): (r: seq<string>)
    ensures forall n :: n in r <==> n in names && NeedsApproval(cfg.policies, cfg.actor, n)
  {
    if names == [] then []
    else RequiredOf(cfg, names[..|names| - 1])
         + (if NeedsApproval(cfg.policies, cfg.actor, Last(names)) then [Last(names)] else [])
  }

  /** The first call of that name, searching messages from the latest. */
  function CandidateArgs(messages: seq<Message>, name: string): string {
    if messages == [] then ""
    else if Last(messages).Assistant? && name in Names(Last(messages).calls) then FirstArgs(Last(messages).calls, name)
    else CandidateArgs(messages[..|messages| - 1], name)
  }

  function FirstArgs(calls: seq<Call>, name: string): string
    requires name in Names(calls)
  {
    calls[FirstCall(calls, name)].arguments
  }

  function FirstCall(calls: seq<Call>, name: string): (k: nat)
    requires name in Names(calls)
    ensures k < |calls| && calls[k].name == name
    ensures forall j :: 0 <= j < k ==> calls[j].name != name
  {
    if calls[0].name == name then 0
    else
      assert Names(calls) == [calls[0].name] + Names(calls[1..]);
      FirstCall(calls[1..], name) + 1
  }

  function ParamsOf(messages: seq<Message>, names: seq<string>): (m: map<string, string>)
    ensures forall n :: n in m <==> n in names
    ensures forall n :: n in m ==> m[n] == CandidateArgs(messages, n)
  {
    map n | n in names :: CandidateArgs(messages, n)
  }

  /** The node's answer: nothing required, or a request for the required tools. */
  function ApprovalNode(cfg: Config, plan: Option<Plan>, messages: seq<Message>): Option<Request> {
    var required := RequiredOf(cfg, CandidateTools(plan, messages));
    if required == [] then None
    else Some(Request(cfg.actor.id, required, ParamsOf(messages, required), RiskOf(cfg, required),
        cfg.actor.environment))
  }

  // -------------------------------------------------------------- the graph

  datatype Node = AtModel | AtPlan | AtApproval | AtTool | AtFinal | Done | Halted

  datatype Agent = Agent(
    node: Node,
    messages: seq<Message>,
    toolResults: seq<ToolResult>,
    plan: Option<Plan>,
    planStatus: Option<PlanStatus>,
    approval: ApprovalState,
    pendingApprovals: seq<string>,
    requests: seq<Request>)

  datatype World = World(agent: Agent, gateway: Gateway)

  function Start(messages: seq<Message>, g: Gateway): World {
    World(Agent(AtModel, messages, [], None, None, NOT_REQUIRED, [], []), g)
  }

  function ModelStep(w: World, env: Env): World {
    var messages := w.agent.messages + [Assistant(env.response.content, NamedCalls(env.response.calls, env.freshId))];
    w.(agent := w.agent.(messages := messages, node := if WantsTools(messages) then AtPlan else AtFinal))
  }

  function PlanStep(cfg: Config, w: World): World {
    var (plan, status) := PlanNode(cfg, DerivePlan(cfg, w.agent.messages));
    w.(agent := w.agent.(plan := plan, planStatus := Some(status), node := AtApproval))
  }

  function ApprovalStep(cfg: Config, w: World): World {
    match ApprovalNode(cfg, w.agent.plan, w.agent.messages)
    case None =>
      w.(agent := w.agent.(approval := NOT_REQUIRED, pendingApprovals := [], node := AtTool))
    case Some(request) =>
      w.(agent := w.agent.(approval := PENDING, pendingApprovals := request.tools,
                           requests := w.agent.requests + [request], node := Halted))
  }

  function ToolStep(cfg: Config, w: World, env: Env): World {
    var (g, rs) := RunCalls(cfg, w.gateway, PendingCalls(w.agent.messages), env.outcome);
    World(w.agent.(messages := w.agent.messages + ToolMessages(rs),
                   toolResults := w.agent.toolResults + SchemaResults(rs), node := AtModel), g)
  }

  function Step(cfg: Config, w: World, env: Env): World {
    match w.agent.node
    case AtModel => ModelStep(w, env)
    case AtPlan => PlanStep(cfg, w)
    case AtApproval => ApprovalStep(cfg, w)
    case AtTool => ToolStep(cfg, w, env)
    case AtFinal => w.(agent := w.agent.(node := Done))
    case Done => w
    case Halted => w
  }

  function Run(cfg: Config, w: World, envs: seq<Env>): World
    decreases |envs|
  {
    if envs == [] then w else Run(cfg, Step(cfg, w, envs[0]), envs[1..])
  }
}

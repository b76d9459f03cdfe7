/**
 The approval-gated loop of one agent run: graph nodes as transitions, the service
 that registers and awaits decisions, and the other users of the shared registry.
 */
module ReactLoop {
  import opened Wrappers
  import opened Messages
  import CW = ContextWindow
  import CH = ConversationHistory
  import CS = ConversationStore
  import AP = Approvals
  import CommandPolicy
  import opened TurnEvents

  datatype Config = Config(
    run: RunId, conversation: AP.Id, session: AP.Id, target: AP.Target,
    dangerous: string -> bool, letters: char -> bool)

  // A tool call of the model; its command is absent when the arguments do not validate.
  datatype ToolCall = ToolCall(id: CallId, name: string, command: Option<string>)

  // A command handed to the executor, with the consumption in the registry's history
  // that allowed it, if it needed one.
  datatype Dispatch = Dispatch(session: AP.Id, callId: CallId, command: string, grant: Option<nat>)

  datatype Node =
    | StartStream
    | LoadContext
    | CompactContext
    | PrepareModel
    | CallModel
    | CheckLimit
    | PrepareTool
    | AwaitApproval
    | Interrupted
    | AwaitDecision
    | Resumed(approve: bool)
    | ExecuteTool
    | Dispatching
    | Executing
    | RecordResult
    | ReturnResponse
    | RejectLimit
    | CloseLimit
    | Returned(limit: bool)
    | Finished

  // The graph's own state: the calls of the last model answer, the iteration, the pending
  // request, the results not recorded yet, and the consumption that allowed this dispatch.
  datatype Graph = Graph(
    node: Node, calls: seq<ToolCall>, iteration: nat, pending: Option<AP.Request>,
    results: seq<string>, grant: Option<nat>)

  // Model requests, first-time node executions, resumed approval nodes, service steps,
  // commands whose output came back, and rejections of an answer beyond the limit.
  datatype Counts = Counts(models: nat, nodes: nat, resumed: nat, services: nat, outputs: nat, rejected: nat)

  datatype Loop = Loop(
    graph: Graph, store: CS.Store, registry: AP.Registry, reserved: set<AP.Id>,
    sink: seq<SinkCall>, dispatches: seq<Dispatch>, counts: Counts)

  const EXECUTE := "execute_command"
  const LIMIT := 128

  function CallIds(calls: seq<ToolCall>): (ids: seq<CallId>)
    ensures |ids| == |calls| && forall i :: 0 <= i < |ids| ==> ids[i] == calls[i].id
  {
    seq(|calls|, i requires 0 <= i < |calls| => calls[i].id)
  }

  function Same(n: nat, text: string): (outputs: seq<string>)
    ensures |outputs| == n
  {
    seq(n, _ => text)
  }

  // ---------------------------------------------------------------- actions

  datatype Action =
    | Start
    | Load(text: string, attachments: seq<nat>)
    | Compact(percent: int, summary: string)
    | Prepare
    | Model(updates: seq<SinkCall>, text: string, calls: seq<ToolCall>)
    | Check
    | PrepareCall(approval: AP.Id)
    | Interrupt
    | Register
    | Observe
    | Resume
    | Execute
    | PassOn
    | Output(output: string)
    | Record
    | Return
    | Reject
    | Limit
    | Finish
    | Fail(cancelled: bool, code: string, message: string)
    | Abandon
    | Others(op: AP.Op)

  // What users, other runs and closing sessions may do to the registry meanwhile.
  predicate Foreign(c: Config, s: Loop, op: AP.Op) {
    match op
    case Registering(request) =>
      request.run != c.run && request.approval !in s.reserved && AP.Unused(s.registry, request.approval)
    case Deciding(_, _) => true
    case Consuming(request) => request.run != c.run
    case Invalidating(_, _) => true
    case Releasing(run) => run != c.run
  }

  // The frozen request still describes the operation about to run.
  predicate Matches(c: Config, request: AP.Request, call: ToolCall) {
    request.session == c.session && request.callId == call.id && call.name == EXECUTE
    && call.command == Some(request.command)
  }

  // The decision on the pending request, once there is one that counts.
  predicate Decided(s: Loop) {
    && s.graph.pending.Some?
    && s.graph.pending.value.approval in s.registry.entries
    && var entry := s.registry.entries[s.graph.pending.value.approval];
       entry.resolution.Some? && entry.resolution.value.status != AP.Invalidated
  }

  predicate ApprovedByUser(s: Loop)
    requires Decided(s)
  {
    s.registry.entries[s.graph.pending.value.approval].resolution.value.status == AP.Approved
  }

  // The transaction an action commits.
  function StoreOp(s: Loop, action: Action): Option<CH.Op> {
    match action
    case Load(text, attachments) => Some(CH.Turn(text, attachments))
    case Compact(percent, summary) => Some(CH.Compact(percent, summary))
    case Model(_, text, calls) => Some(CH.Assistant(text, CallIds(calls)))
    case Check => if s.graph.iteration >= LIMIT then None else Some(CH.Iterate)
    case Record => Some(CH.Results(s.graph.results))
    case Reject => Some(CH.Results(Same(|s.graph.calls|, "REACT_LIMIT_REACHED")))
    case Limit => Some(CH.End(CS.LimitReached))
    case Finish => if s.graph.node == Returned(false) then Some(CH.End(CS.Completed)) else None
    case Fail(cancelled, _, _) => Some(CH.End(if cancelled then CS.Cancelled else CS.Failed))
    case Abandon => Some(CH.End(CS.Cancelled))
    case _ => None
  }

  function RegistryOp(c: Config, s: Loop, action: Action): Option<AP.Op> {
    match action
    case Register => if s.graph.pending.Some? then Some(AP.Registering(s.graph.pending.value)) else None
    case Execute => if s.graph.pending.Some? then Some(AP.Consuming(s.graph.pending.value)) else None
    case Finish => Some(AP.Releasing(c.run))
    case Fail(_, _, _) => Some(AP.Releasing(c.run))
    case Abandon => Some(AP.Releasing(c.run))
    case Others(op) => Some(op)
    case _ => None
  }

  predicate AtNode(node: Node, action: Action) {
    match action
    case Start => node.StartStream?
    case Load(_, _) => node.LoadContext?
    case Compact(_, _) => node.CompactContext?
    case Prepare => node.PrepareModel?
    case Model(_, _, _) => node.CallModel?
    case Check => node.CheckLimit?
    case PrepareCall(_) => node.PrepareTool?
    case Interrupt => node.AwaitApproval?
    case Register => node.Interrupted?
    case Observe => node.AwaitDecision?
    case Resume => node.Resumed?
    case Execute => node.ExecuteTool?
    case PassOn => node.Dispatching?
    case Output(_) => node.Executing?
    case Record => node.RecordResult?
    case Return => node.ReturnResponse?
    case Reject => node.RejectLimit?
    case Limit => node.CloseLimit?
    case Finish => node.Returned?
    case Fail(_, _, _) => !node.Finished? && !node.StartStream?
    case Abandon => !node.Finished?
    case Others(_) => true
  }

  // What else an action needs: a history that can be cut, nothing but text from the model's
  // stream, fresh identifiers, a
  // registry that does not raise. Everything else raises, which is the action Fail.
  ghost predicate Passes(c: Config, s: Loop, action: Action) {
    match action
    case Compact(percent, _) =>
      && 1 <= percent <= 99
      && CW.CompactablePrefix(CW.After(s.store.messages, CW.Covered(s.store.summaries)), percent).Ok?
    case Model(updates, _, _) => forall i :: 0 <= i < |updates| ==> IsText(updates[i])
    case PrepareCall(approval) => AP.Unused(s.registry, approval) && approval !in s.reserved
    case Register => s.graph.pending.Some? && AP.Register(s.registry.entries, s.graph.pending.value).Ok?
    case Observe => Decided(s)
    case Execute =>
      && s.graph.calls != []
      && (s.graph.pending.Some? ==>
            Matches(c, s.graph.pending.value, s.graph.calls[0])
            && AP.Consume(s.registry.entries, s.graph.pending.value).Ok?)
    case Others(op) => Foreign(c, s, op)
    case _ => true
  }

  ghost predicate Can(c: Config, s: Loop, action: Action) {
    && AtNode(s.graph.node, action)
    && Passes(c, s, action)
    && (StoreOp(s, action).Some? ==> s.store.runs != [] && CH.Protocol(s.store, StoreOp(s, action).value))
    && (action.Check? && s.graph.iteration < LIMIT ==> CS.Increment(s.store.runs, CH.Current(s.store)).Ok?)
  }

  // ---------------------------------------------------------------- the graph

  // The node that freezes one operation: every rejection gets a result, a command that
  // is not plainly read-only gets a request.
  function PrepareResult(c: Config, g: Graph, approval: AP.Id): Graph {
    if g.calls == [] then g
    else
      var call := g.calls[0];
      if |g.calls| > 1 then g.(node := RecordResult, results := Same(|g.calls|, "MULTIPLE_TOOL_CALLS_UNSUPPORTED"))
      else if call.name != EXECUTE then g.(node := RecordResult, results := ["UNKNOWN_TOOL"])
      else if call.command.None? then g.(node := RecordResult, results := ["COMMAND_REJECTED_INVALID_ARGUMENTS"])
      else
        match CommandPolicy.Classify(call.command.value, c.dangerous, c.letters)
        case Blocked => g.(node := RecordResult, results := ["COMMAND_REJECTED_DANGEROUS_PATTERN"])
        case AutoReadOnly => g.(node := ExecuteTool)
        case RequireApproval =>
          g.(node := AwaitApproval, pending :=
               Some(AP.Request(approval, c.conversation, c.run, c.session, call.id, call.command.value, c.target)))
  }

  // The checks the executor node repeats before it hands a command on.
  function ExecuteResult(c: Config, g: Graph): Graph {
    if g.calls == [] then g
    else
      var call := g.calls[0];
      if call.name != EXECUTE then g.(node := RecordResult, results := ["UNKNOWN_TOOL"])
      else if call.command.None? then g.(node := RecordResult, results := ["COMMAND_REJECTED_INVALID_ARGUMENTS"])
      else if c.dangerous(call.command.value) then
        g.(node := RecordResult, results := ["COMMAND_REJECTED_DANGEROUS_PATTERN"])
      else g.(node := Dispatching)
  }

  function NextGraph(c: Config, s: Loop, action: Action): Graph {
    var g := s.graph;
    match action
    case Start => g.(node := LoadContext)
    case Load(_, _) => g.(node := CompactContext)
    case Compact(_, _) => g.(node := PrepareModel)
    case Prepare => g.(node := CallModel)
    case Model(_, _, calls) => g.(node := if calls == [] then ReturnResponse else CheckLimit, calls := calls)
    case Check =>
      if g.iteration >= LIMIT then g.(node := RejectLimit)
      else g.(node := PrepareTool, iteration := g.iteration + 1)
    case PrepareCall(approval) => PrepareResult(c, g, approval)
    case Interrupt => g.(node := Interrupted)
    case Register => g.(node := AwaitDecision)
    case Observe => g.(node := Resumed(Decided(s) && ApprovedByUser(s)))
    case Resume =>
      if g.node.Resumed? && g.node.approve then g.(node := ExecuteTool)
      else g.(node := RecordResult, results := ["COMMAND_REJECTED_BY_USER"])
    case Execute =>
      ExecuteResult(c, g.(grant := if g.pending.Some? then Some(|s.registry.history|) else None))
    case PassOn => g.(node := Executing)
    case Output(output) => g.(node := RecordResult, results := [output])
    case Record => g.(node := PrepareModel, results := [], pending := None, grant := None)
    case Return => g.(node := Returned(false))
    case Reject => g.(node := CloseLimit)
    case Limit => g.(node := Returned(true))
    case Finish => g.(node := Finished)
    case Fail(_, _, _) => g.(node := Finished)
    case Abandon => g.(node := Finished)
    case Others(_) => g
  }

  // ---------------------------------------------------------------- everything around it

  function NextStore(s: Loop, action: Action): CS.Store
    requires StoreOp(s, action).Some? ==> s.store.runs != [] && CH.Protocol(s.store, StoreOp(s, action).value)
  {
    match StoreOp(s, action) case None => s.store case Some(op) => CH.Next(s.store, op)
  }

  function NextRegistry(c: Config, s: Loop, action: Action): AP.Registry {
    match RegistryOp(c, s, action) case None => s.registry case Some(op) => AP.Apply(s.registry, op)
  }

  function SinkCalls(c: Config, s: Loop, action: Action): seq<SinkCall> {
    var g := s.graph;
    match action
    case Start => [Started]
    case Model(updates, _, _) => updates
    case Register =>
      if g.pending.None? then []
      else
        var request := g.pending.value;
        [ApprovalRequested(request.approval, request.session, request.callId, request.command)]
    case Observe =>
      if !Decided(s) then []
      else [ApprovalResolved(g.pending.value.approval, g.pending.value.callId, ApprovedByUser(s))]
    case Execute =>
      if g.calls != [] && ExecuteResult(c, g).node.Dispatching? && g.calls[0].command.Some?
      then [ToolStarted(g.calls[0].id, g.calls[0].command.value)] else []
    case Finish =>
      if g.node == Returned(true)
      then [Failed("LIMIT_REACHED", g.iteration, "REACT_LIMIT_REACHED", "the Agent reached the ReAct iteration limit")]
      else [Completed(g.iteration)]
    case Fail(cancelled, code, message) =>
      [Failed(if cancelled then "CANCELLED" else "FAILED", g.iteration, code, message)]
    case _ => []
  }

  function NextDispatches(c: Config, s: Loop, action: Action): seq<Dispatch> {
    var g := s.graph;
    if action.PassOn? && g.calls != [] && g.calls[0].command.Some?
    then s.dispatches + [Dispatch(c.session, g.calls[0].id, g.calls[0].command.value, g.grant)]
    else s.dispatches
  }

  predicate IsService(action: Action) {
    action.Start? || action.Register? || action.Observe? || action.Finish? || action.Fail? || action.Abandon?
  }

  // A node counts when it is first executed: `reject_limit` at its second transaction,
  // `execute_tool` when it starts.
  predicate IsNode(action: Action) {
    && !IsService(action) && !action.Resume? && !action.PassOn? && !action.Output? && !action.Reject?
    && !action.Others?
  }

  function NextCounts(counts: Counts, action: Action): Counts {
    Counts(counts.models + (if action.Model? then 1 else 0),
           counts.nodes + (if IsNode(action) then 1 else 0),
           counts.resumed + (if action.Resume? then 1 else 0),
           counts.services + (if IsService(action) then 1 else 0),
           counts.outputs + (if action.Output? then 1 else 0),
           counts.rejected + (if action.Reject? then 1 else 0))
  }

  function Do(c: Config, s: Loop, action: Action): Loop
    requires Can(c, s, action)
  {
    Loop(NextGraph(c, s, action), NextStore(s, action), NextRegistry(c, s, action),
         if action.PrepareCall? then s.reserved + {action.approval} else s.reserved,
         s.sink + SinkCalls(c, s, action), NextDispatches(c, s, action), NextCounts(s.counts, action))
  }

  // ---------------------------------------------------------------- runs

  // No stored answer calls an empty or repeated identifier.
  predicate Usable(messages: seq<Record>) {
    forall i :: 0 <= i < |messages| && messages[i].message.AI? ==> ValidCalls(messages[i].message.calls)
  }

  // A run starts with its row just inserted and an identifier nobody used before.
  ghost predicate Initial(c: Config, s: Loop) {
    && s.graph == Graph(StartStream, [], 0, None, [], None)
    && (Usable(s.store.messages) ==> CH.Inv(s.store)) && Distinct(CH.Ids(s.store.runs))
    && s.store.runs != [] && s.store.runs[|s.store.runs| - 1] == CS.Run(c.run, CS.Running, 0)
    && CH.NoMessagesOf(s.store.messages, c.run)
    && AP.Inv(s.registry)
    && (forall id :: id in s.registry.entries ==> s.registry.entries[id].request.run != c.run)
    && s.reserved == {} && s.sink == [] && s.dispatches == [] && s.counts == Counts(0, 0, 0, 0, 0, 0)
  }

  ghost predicate Execution(c: Config, states: seq<Loop>, actions: seq<Action>) {
    && |states| == |actions| + 1
    && Initial(c, states[0])
    && forall i {:trigger actions[i]} :: 0 <= i < |actions| ==>
         Can(c, states[i], actions[i]) && states[i + 1] == Do(c, states[i], actions[i])
  }
}

/**
 What becomes of the model's tool calls: from one answer of the model to the results that
 are stored for it, told from the events of the stream and the commands that were run; and
 what every step adds to the stored conversation.
 */
module ReactRounds {
  import opened Wrappers
  import opened Messages
  import CW = ContextWindow
  import CH = ConversationHistory
  import CS = ConversationStore
  import AP = Approvals
  import CommandPolicy
  import opened TurnEvents
  import opened ReactLoop
  import opened ReactTables
  import opened ReactRequests
  import opened ReactBounds
  import opened ReactSafety

  // ---------------------------------------------------------------- one round

  predicate OneCommand(calls: seq<ToolCall>) {
    |calls| == 1 && calls[0].name == "execute_command" && calls[0].command.Some?
  }

  // The call is turned down before anybody is asked.
  predicate TurnedDown(c: Config, calls: seq<ToolCall>, text: string) {
    || (|calls| > 1 && text == "MULTIPLE_TOOL_CALLS_UNSUPPORTED")
    || (|calls| == 1 && calls[0].name != "execute_command" && text == "UNKNOWN_TOOL")
    || (|calls| == 1 && calls[0].name == "execute_command" && calls[0].command.None?
        && text == "COMMAND_REJECTED_INVALID_ARGUMENTS")
    || (OneCommand(calls) && c.dangerous(calls[0].command.value) && text == "COMMAND_REJECTED_DANGEROUS_PATTERN")
  }

  predicate ReadOnly(c: Config, calls: seq<ToolCall>) {
    OneCommand(calls) && CommandPolicy.Classify(calls[0].command.value, c.dangerous, c.letters) == CommandPolicy.AutoReadOnly
  }

  predicate NeedsUser(c: Config, calls: seq<ToolCall>) {
    OneCommand(calls) && CommandPolicy.Classify(calls[0].command.value, c.dangerous, c.letters) == CommandPolicy.RequireApproval
  }

  // The request is for this very operation.
  predicate IsFor(c: Config, request: AP.Request, calls: seq<ToolCall>) {
    && OneCommand(calls) && request.callId == calls[0].id && request.command == calls[0].command.value
    && request.session == c.session && request.run == c.run && request.conversation == c.conversation
    && request.target == c.target
  }

  function Asked(request: AP.Request): SinkCall {
    ApprovalRequested(request.approval, request.session, request.callId, request.command)
  }

  function Told(request: AP.Request, approved: bool): SinkCall {
    ApprovalResolved(request.approval, request.callId, approved)
  }

  // What the stream has shown of the round by the time the command may run: nothing for a
  // plainly read-only one, a request and its approval for any other.
  predicate Cleared(c: Config, calls: seq<ToolCall>, pending: Option<AP.Request>, shown: seq<SinkCall>) {
    match pending
    case None => ReadOnly(c, calls) && shown == []
    case Some(request) => NeedsUser(c, calls) && IsFor(c, request, calls) && shown == [Asked(request), Told(request, true)]
  }

  predicate Ran(c: Config, calls: seq<ToolCall>, pending: Option<AP.Request>, dispatched: seq<Dispatch>) {
    && OneCommand(calls) && |dispatched| == 1
    && dispatched[0].session == c.session && dispatched[0].callId == calls[0].id
    && dispatched[0].command == calls[0].command.value && (dispatched[0].grant.Some? <==> pending.Some?)
  }

  // The three ways a round ends: turned down at once, rejected by the user, or run - and
  // what is recorded for each.
  ghost predicate Ended(c: Config, calls: seq<ToolCall>, shown: seq<SinkCall>, dispatched: seq<Dispatch>,
                        results: seq<string>, heard: Option<string>) {
    || (shown == [] && dispatched == [] && |results| == |calls|
        && forall k :: 0 <= k < |results| ==> TurnedDown(c, calls, results[k]))
    || (dispatched == [] && results == ["COMMAND_REJECTED_BY_USER"]
        && exists request :: NeedsUser(c, calls) && IsFor(c, request, calls) && shown == [Asked(request), Told(request, false)])
    || (heard.Some? && results == [heard.value]
        && exists pending, before :: RanAfter(c, calls, pending, before, shown, dispatched))
  }

  predicate RanAfter(c: Config, calls: seq<ToolCall>, pending: Option<AP.Request>, before: seq<SinkCall>,
                     shown: seq<SinkCall>, dispatched: seq<Dispatch>) {
    && Cleared(c, calls, pending, before) && Ran(c, calls, pending, dispatched)
    && shown == before + [ToolStarted(calls[0].id, calls[0].command.value)]
  }

  // Where the round stands at a node; `base` is the state right after the model's answer,
  // and `heard` the last output of a command since then.
  ghost predicate RoundAt(c: Config, base: Loop, s: Loop, heard: Option<string>) {
    && s.graph.calls == base.graph.calls != [] && base.sink <= s.sink && base.dispatches <= s.dispatches
    && var calls, pending := s.graph.calls, s.graph.pending;
       var shown, dispatched := s.sink[|base.sink|..], s.dispatches[|base.dispatches|..];
       match s.graph.node
       case CheckLimit => shown == [] && dispatched == [] && pending.None?
       case PrepareTool => shown == [] && dispatched == [] && pending.None?
       case AwaitApproval =>
         shown == [] && dispatched == [] && NeedsUser(c, calls) && pending.Some? && IsFor(c, pending.value, calls)
       case Interrupted =>
         shown == [] && dispatched == [] && NeedsUser(c, calls) && pending.Some? && IsFor(c, pending.value, calls)
       case AwaitDecision =>
         && dispatched == [] && NeedsUser(c, calls) && pending.Some? && IsFor(c, pending.value, calls)
         && shown == [Asked(pending.value)]
       case Resumed(approve) =>
         && dispatched == [] && NeedsUser(c, calls) && pending.Some? && IsFor(c, pending.value, calls)
         && shown == [Asked(pending.value), Told(pending.value, approve)]
       case ExecuteTool => dispatched == [] && Cleared(c, calls, pending, shown)
       case Dispatching =>
         && dispatched == [] && OneCommand(calls) && (s.graph.grant.Some? <==> pending.Some?)
         && exists before :: Cleared(c, calls, pending, before)
              && shown == before + [ToolStarted(calls[0].id, calls[0].command.value)]
       case Executing => exists before :: RanAfter(c, calls, pending, before, shown, dispatched)
       case RecordResult => Ended(c, calls, shown, dispatched, s.graph.results, heard)
       case RejectLimit => shown == [] && dispatched == []
       case CloseLimit => shown == [] && dispatched == []
       case Returned(limit) => limit && shown == [] && dispatched == []
       case Finished => true
       case _ => false
  }

  predicate Moves(action: Action) {
    !action.Model? && !action.Record?
  }

  function HeardAfter(heard: Option<string>, action: Action): Option<string> {
    if action.Output? then Some(action.output) else heard
  }

  lemma SafeToRun(c: Config, calls: seq<ToolCall>)
    requires ReadOnly(c, calls) || NeedsUser(c, calls)
    ensures !c.dangerous(calls[0].command.value)
  {
  }

  lemma Longer<T>(base: seq<T>, s: seq<T>, more: seq<T>)
    requires base <= s
    ensures base <= s + more && (s + more)[|base|..] == s[|base|..] + more
  {
  }

  lemma PrepareEnds(c: Config, base: Loop, s: Loop, heard: Option<string>, approval: AP.Id)
    requires RoundAt(c, base, s, heard) && s.graph.node.PrepareTool?
    ensures RoundAt(c, base, s.(graph := PrepareResult(c, s.graph, approval)), heard)
  {
    CommandPolicy.ClassifyIff(if s.graph.calls[0].command.Some? then s.graph.calls[0].command.value else "",
                              c.dangerous, c.letters);
    hide CommandPolicy.Classify;
  }

  lemma ExecuteStarts(c: Config, base: Loop, s: Loop, heard: Option<string>)
    requires RoundAt(c, base, s, heard) && Can(c, s, Execute)
    ensures RoundAt(c, base, Do(c, s, Execute), heard)
    ensures Do(c, s, Execute).graph.node.Dispatching?
  {
    SafeToRun(c, s.graph.calls);
    Longer(base.sink, s.sink, SinkCalls(c, s, Execute));
    hide CommandPolicy.Classify, NextRegistry, NextStore, Passes;
    var before := s.sink[|base.sink|..];
    assert Cleared(c, s.graph.calls, s.graph.pending, before);
  }

  lemma AskingStays(c: Config, base: Loop, s: Loop, heard: Option<string>, action: Action)
    requires RoundAt(c, base, s, heard) && Can(c, s, action)
    requires action.Interrupt? || action.Register? || action.Observe? || action.Resume?
    ensures RoundAt(c, base, Do(c, s, action), heard)
  {
    Longer(base.sink, s.sink, SinkCalls(c, s, action));
    hide CommandPolicy.Classify, NextRegistry, NextStore, Passes;
  }

  lemma PassedOn(c: Config, base: Loop, s: Loop, heard: Option<string>)
    requires RoundAt(c, base, s, heard) && Can(c, s, PassOn)
    ensures RoundAt(c, base, Do(c, s, PassOn), heard)
  {
    hide Cleared, NextRegistry, NextStore, NextCounts, Passes, StoreOp, CH.Protocol, PrepareResult, ExecuteResult;
    var call := s.graph.calls[0];
    var before :| Cleared(c, s.graph.calls, s.graph.pending, before)
      && s.sink[|base.sink|..] == before + [ToolStarted(call.id, call.command.value)];
    Longer(base.dispatches, s.dispatches, [Dispatch(c.session, call.id, call.command.value, s.graph.grant)]);
    assert s.sink + [] == s.sink;
    assert RanAfter(c, s.graph.calls, s.graph.pending, before, s.sink[|base.sink|..],
                    Do(c, s, PassOn).dispatches[|base.dispatches|..]);
  }

  lemma OutputHeard(c: Config, base: Loop, s: Loop, heard: Option<string>, action: Action)
    requires RoundAt(c, base, s, heard) && Can(c, s, action) && action.Output?
    ensures RoundAt(c, base, Do(c, s, action), Some(action.output))
  {
    hide RanAfter, NextRegistry, NextStore, NextCounts, Passes, StoreOp, CH.Protocol, PrepareResult, ExecuteResult;
    assert s.sink + [] == s.sink;
  }

  lemma OthersStayRound(c: Config, base: Loop, s: Loop, heard: Option<string>, action: Action)
    requires RoundAt(c, base, s, heard) && Can(c, s, action) && Moves(action)
    requires !action.Interrupt? && !action.Register? && !action.Observe? && !action.Resume?
    requires !action.PassOn? && !action.Output? && !action.Execute? && !action.PrepareCall?
    ensures RoundAt(c, base, Do(c, s, action), heard)
  {
    hide Ended, RanAfter, Cleared, IsFor, NeedsUser, NextRegistry, NextStore, NextCounts, Passes, StoreOp, CH.Protocol,
         PrepareResult, ExecuteResult, Decided, Told, Asked;
    Longer(base.sink, s.sink, SinkCalls(c, s, action));
    assert s.sink + [] == s.sink;
  }

  lemma PreparedLoop(c: Config, base: Loop, s: Loop, heard: Option<string>, approval: AP.Id)
    requires RoundAt(c, base, s, heard) && Can(c, s, PrepareCall(approval))
    ensures RoundAt(c, base, Do(c, s, PrepareCall(approval)), heard)
  {
    PrepareEnds(c, base, s, heard, approval);
    assert s.sink + [] == s.sink;
    hide PrepareResult, Passes;
  }

  // Every step of a round keeps to the story.
  lemma RoundStep(c: Config, base: Loop, s: Loop, heard: Option<string>, action: Action)
    requires RoundAt(c, base, s, heard) && Can(c, s, action) && Moves(action)
    ensures RoundAt(c, base, Do(c, s, action), HeardAfter(heard, action))
  {
    hide RoundAt, Can, Do;
    match action
    case PrepareCall(approval) => PreparedLoop(c, base, s, heard, approval);
    case Execute => ExecuteStarts(c, base, s, heard);
    case PassOn => PassedOn(c, base, s, heard);
    case Output(_) => OutputHeard(c, base, s, heard, action);
    case Interrupt => AskingStays(c, base, s, heard, action);
    case Register => AskingStays(c, base, s, heard, action);
    case Observe => AskingStays(c, base, s, heard, action);
    case Resume => AskingStays(c, base, s, heard, action);
    case _ => OthersStayRound(c, base, s, heard, action);
  }

  lemma RoundBegins(c: Config, s: Loop, action: Action)
    requires Inv(c, s) && Can(c, s, action) && action.Model? && action.calls != []
    ensures RoundAt(c, Do(c, s, action), Do(c, s, action), None)
  {
    hide StoreFits, AP.Inv, RegistryFits, GrantsFit, CountsFit, SinkFits, CH.Protocol, NextStore, NextRegistry;
  }

  // The last output of a command among the actions from `j` up to `i`.
  function Heard(actions: seq<Action>, j: nat, i: nat): Option<string>
    requires j <= i <= |actions|
    decreases i - j
  {
    if i == j then None else HeardAfter(Heard(actions, j, i - 1), actions[i - 1])
  }

  // The actions after the answer at `j` up to `i` belong to its round.
  predicate WithinRound(actions: seq<Action>, j: nat, i: nat) {
    && j < i <= |actions| && actions[j].Model? && actions[j].calls != []
    && forall k :: j < k < i ==> Moves(actions[k])
  }

  lemma {:induction false} RoundTells(c: Config, states: seq<Loop>, actions: seq<Action>, j: nat, i: nat)
    requires Execution(c, states, actions) && WithinRound(actions, j, i)
    ensures RoundAt(c, states[j + 1], states[i], Heard(actions, j + 1, i))
    ensures states[j + 1].graph.calls == actions[j].calls
    decreases i
  {
    hide RoundAt, Inv, Can, Do, Initial;
    ReachableInv(c, states, actions, j);
    RoundBegins(c, states[j], actions[j]);
    AnsweredCalls(c, states[j], actions[j]);
    if i > j + 1 {
      RoundTells(c, states, actions, j, i - 1);
      RoundStep(c, states[j + 1], states[i - 1], Heard(actions, j + 1, i - 1), actions[i - 1]);
    }
  }

  lemma AnsweredCalls(c: Config, s: Loop, action: Action)
    requires Can(c, s, action) && action.Model?
    ensures Do(c, s, action).graph.calls == action.calls
  {
  }

  // ---------------------------------------------------------------- what the steps store

  predicate ToolRows(rows: seq<Message>, calls: seq<ToolCall>, results: seq<string>) {
    |rows| == |calls| == |results| && forall k :: 0 <= k < |rows| ==> rows[k] == Tool(calls[k].id, results[k])
  }

  // The messages a step adds to the conversation.
  ghost predicate Adds(s: Loop, action: Action, rows: seq<Message>) {
    match action
    case Load(text, attachments) =>
      var open := CH.OpenCalls(s.store.messages);
      && |rows| == |open| + 1 && rows[|open|] == Human(text, attachments)
      && forall k :: 0 <= k < |open| ==> rows[k] == Tool(open[k], "PREVIOUS_TOOL_CALL_INTERRUPTED")
    case Model(_, text, calls) =>
      && |rows| == 1 && rows[0].AI? && rows[0].text == text && |rows[0].calls| == |calls|
      && forall k :: 0 <= k < |calls| ==> rows[0].calls[k] == calls[k].id
    case Record => ToolRows(rows, s.graph.calls, s.graph.results)
    case Reject => ToolRows(rows, s.graph.calls, Same(|s.graph.calls|, "REACT_LIMIT_REACHED"))
    case _ => rows == []
  }

  lemma AppendedContents(messages: seq<Record>, run: RunId, batch: seq<Message>)
    ensures Contents(CS.Append(messages, run, batch)) == Contents(messages) + batch
  {
  }

  lemma LoadAdds(store: CS.Store, text: string, attachments: seq<nat>) returns (rows: seq<Message>)
    requires store.runs != []
    ensures Contents(CS.LoadTurn(store.messages, CH.Current(store), text, attachments)) == Contents(store.messages) + rows
    ensures var open := CH.OpenCalls(store.messages);
            && |rows| == |open| + 1 && rows[|open|] == Human(text, attachments)
            && forall k :: 0 <= k < |open| ==> rows[k] == Tool(open[k], "PREVIOUS_TOOL_CALL_INTERRUPTED")
  {
    rows := CS.Repairs(store.messages) + [Human(text, attachments)];
    AppendedContents(store.messages, CH.Current(store), rows);
  }

  lemma AnswerRows(ids: seq<CallId>, calls: seq<ToolCall>, results: seq<string>)
    requires ids == CallIds(calls) && |results| == |calls|
    ensures ToolRows(CH.CallResults(ids, results), calls, results)
  {
  }

  // What every step adds to the stored conversation, and that nothing else changes in it.
  lemma StepStores(c: Config, s: Loop, action: Action) returns (rows: seq<Message>)
    requires Inv(c, s) && Can(c, s, action)
    ensures Adds(s, action, rows)
    ensures Contents(Do(c, s, action).store.messages) == Contents(s.store.messages) + rows
  {
    hide RequestFits, AP.Inv, RegistryFits, GrantsFit, CountsFit, SinkFits, CH.Inv, NextGraph, NextRegistry, NextCounts,
         SinkCalls, NextDispatches, CH.CompactOnce, CS.Increment, CS.Finish, CS.LoadTurn, CS.Append, CH.CallResults, Passes;
    var store := s.store;
    match action
    case Load(text, attachments) =>
      rows := LoadAdds(store, text, attachments);
    case Model(_, text, calls) =>
      rows := [AI(text, CallIds(calls))];
      AppendedContents(store.messages, CH.Current(store), rows);
    case Record =>
      rows := CH.CallResults(CH.OpenCalls(store.messages), s.graph.results);
      AnswerRows(CH.OpenCalls(store.messages), s.graph.calls, s.graph.results);
      AppendedContents(store.messages, CH.Current(store), rows);
    case Reject =>
      rows := CH.CallResults(CH.OpenCalls(store.messages), Same(|s.graph.calls|, "REACT_LIMIT_REACHED"));
      AnswerRows(CH.OpenCalls(store.messages), s.graph.calls, Same(|s.graph.calls|, "REACT_LIMIT_REACHED"));
      AppendedContents(store.messages, CH.Current(store), rows);
    case Compact(percent, summary) =>
      CompactKeepsRows(store, percent, summary);
      rows := [];
      assert Contents(store.messages) + rows == Contents(store.messages);
    case _ =>
      rows := [];
      assert Contents(store.messages) + rows == Contents(store.messages);
  }

  function StatusAfter(action: Action): CS.Status {
    match action
    case Limit => CS.LimitReached
    case Finish => CS.Completed
    case Fail(cancelled, _, _) => if cancelled then CS.Cancelled else CS.Failed
    case Abandon => CS.Cancelled
    case _ => CS.Running
  }

  lemma SettledStatus(c: Config, s: Loop)
    requires StoreFits(c, s)
    ensures s.store.runs != [] && Distinct(CH.Ids(s.store.runs)) && CH.Current(s.store) == LastRun(s.store).id
    ensures s.graph.node.Finished? || LastRun(s.store).status == if s.graph.node == Returned(true) then CS.LimitReached else CS.Running
  {
    hide CH.Inv;
  }

  // What each transaction does to the run on record.
  lemma OpStatus(store: CS.Store, op: CH.Op)
    requires store.runs != [] && Distinct(CH.Ids(store.runs)) && CH.Protocol(store, op) && !op.Begin? && !op.Retry?
    ensures var after := CH.Next(store, op);
            && after.runs != []
            && LastRun(after).status == (if op.End? && LastRun(store).status == CS.Running then op.status else LastRun(store).status)
  {
    hide CH.CompactOnce, CS.Append, CS.LoadTurn, CH.CallResults;
    match op
    case Iterate => IterateLast(store);
    case End(status) => EndLast(store, status);
    case Compact(percent, text) => CompactKeepsRows(store, percent, text);
    case _ =>
  }

  // A running run ends as the step says, and one that has ended stays as it ended.
  lemma StepEnds(c: Config, s: Loop, action: Action)
    requires Inv(c, s) && Can(c, s, action)
    ensures s.store.runs != [] && Do(c, s, action).store.runs != []
    ensures var before, after := LastRun(s.store).status, LastRun(Do(c, s, action).store).status;
            && (!s.graph.node.Finished? && s.graph.node != Returned(true) ==> before == CS.Running)
            && (s.graph.node == Returned(true) ==> before == CS.LimitReached)
            && after == if before == CS.Running then StatusAfter(action) else before
  {
    hide RequestFits, AP.Inv, RegistryFits, GrantsFit, CountsFit, SinkFits, StoreFits, NextGraph, NextRegistry, NextCounts,
         SinkCalls, NextDispatches, CH.Protocol, CH.Next, Passes, LastRun;
    SettledStatus(c, s);
    if StoreOp(s, action).Some? {
      OpStatus(s.store, StoreOp(s, action).value);
    }
  }

  // The last call of a run that ends by itself tells the stored outcome and iteration.
  lemma EndAgrees(c: Config, s: Loop, action: Action)
    requires Inv(c, s) && Can(c, s, action) && (action.Finish? || action.Fail?)
    requires action.Fail? ==> LastRun(s.store).status == CS.Running
    ensures Do(c, s, action).sink != [] && Do(c, s, action).store.runs != []
    ensures var last, run := Do(c, s, action).sink[|Do(c, s, action).sink| - 1], LastRun(Do(c, s, action).store);
            match run.status
            case Completed => last == TurnEvents.SinkCall.Completed(run.iteration)
            case LimitReached => last.Failed? && last.status == "LIMIT_REACHED" && last.iteration == run.iteration
            case Cancelled => last.Failed? && last.status == "CANCELLED" && last.iteration == run.iteration
            case Failed => last.Failed? && last.status == "FAILED" && last.iteration == run.iteration
            case Running => false
  {
    StepEnds(c, s, action);
    EndKeepsStore(s.store, StatusAfter(action));
    SettledStatus(c, s);
    hide RequestFits, AP.Inv, RegistryFits, GrantsFit, CountsFit, SinkFits, CH.Inv, NextRegistry, NextCounts, Passes, Usable;
  }

  // ---------------------------------------------------------------- main results

  // What is stored for an answer with tool calls: one row for each call, in order; and they
  // say why the calls were turned down at once, or that the user rejected the one command -
  // exactly after the stream has said so -, or what the command put out that was run for it,
  // being plainly read-only or approved.
  lemma RoundRecorded(c: Config, states: seq<Loop>, actions: seq<Action>, j: nat, i: nat) returns (rows: seq<Message>)
    requires Execution(c, states, actions) && WithinRound(actions, j, i) && i < |actions| && actions[i].Record?
    ensures Contents(states[i + 1].store.messages) == Contents(states[i].store.messages) + rows
    ensures var base, s := states[j + 1], states[i];
            && ToolRows(rows, actions[j].calls, s.graph.results)
            && base.sink <= s.sink && base.dispatches <= s.dispatches
            && Ended(c, actions[j].calls, s.sink[|base.sink|..], s.dispatches[|base.dispatches|..], s.graph.results,
                     Heard(actions, j + 1, i))
  {
    hide Inv, Ended, Initial, Do;
    RoundTells(c, states, actions, j, i);
    ReachableInv(c, states, actions, i);
    rows := StepStores(c, states[i], actions[i]);
    hide Passes;
  }

  predicate Own(action: Action) {
    !action.Others? && !action.Fail? && !action.Abandon?
  }

  // Once the stream has said that a request is approved, the run goes on to consume it -
  // unless it fails or is torn down -, and starts the command by doing so.
  lemma ApprovedIsUsed(c: Config, states: seq<Loop>, actions: seq<Action>, j: nat, i: nat, request: AP.Request)
    requires Execution(c, states, actions) && WithinRound(actions, j, i) && i < |actions| && Own(actions[i])
    requires states[i].sink == states[j + 1].sink + [Asked(request), Told(request, true)]
    requires IsFor(c, request, actions[j].calls) && !states[i].graph.node.Finished?
    ensures (actions[i].Resume? && states[i + 1].graph.node.ExecuteTool? && states[i + 1].graph.pending.Some?
             && Asked(states[i + 1].graph.pending.value) == Asked(request))
            || (actions[i].Execute? && states[i + 1].graph.node.Dispatching?
                && exists used :: Asked(used) == Asked(request) && IsFor(c, used, actions[j].calls)
                     && states[i + 1].registry.history == states[i].registry.history + [AP.Consumed(used)])
  {
    hide Inv, Initial, CommandPolicy.Classify;
    RoundTells(c, states, actions, j, i);
    var base, s := states[j + 1], states[i];
    assert s.sink[|base.sink|..] == [Asked(request), Told(request, true)];
    NotYetRun(c, base, s, Heard(actions, j + 1, i), request);
    if actions[i].Execute? {
      ExecuteStarts(c, base, s, Heard(actions, j + 1, i));
      ExecuteConsumes(c, s);
    }
    hide RoundAt, Passes, NextStore, NextRegistry;
  }

  // With an approval as the last thing shown, the command is about to run.
  lemma NotYetRun(c: Config, base: Loop, s: Loop, heard: Option<string>, request: AP.Request)
    requires RoundAt(c, base, s, heard) && s.sink[|base.sink|..] == [Asked(request), Told(request, true)]
    requires !s.graph.node.Finished?
    ensures s.graph.node == Resumed(true) || s.graph.node.ExecuteTool?
    ensures s.graph.pending.Some? && Asked(s.graph.pending.value) == Asked(request)
    ensures IsFor(c, s.graph.pending.value, s.graph.calls)
  {
  }

  lemma ExecuteConsumes(c: Config, s: Loop)
    requires Can(c, s, Execute) && s.graph.pending.Some?
    ensures Do(c, s, Execute).registry.history == s.registry.history + [AP.Consumed(s.graph.pending.value)]
  {
  }

  // ---------------------------------------------------------------- what the user said

  ghost predicate Decision(registry: AP.Registry, id: AP.Id, approved: bool) {
    exists b :: AP.DecidedAt(registry, b, id, approved)
  }

  lemma HistoryStays(c: Config, s: Loop, action: Action, id: AP.Id, approved: bool)
    requires Can(c, s, action) && Decision(s.registry, id, approved)
    ensures Decision(Do(c, s, action).registry, id, approved)
  {
    var b :| AP.DecidedAt(s.registry, b, id, approved);
    var after := Do(c, s, action).registry;
    ApplyGrows(c, s, action);
    assert AP.DecidedAt(after, b, id, approved);
  }

  lemma ApplyGrows(c: Config, s: Loop, action: Action)
    requires Can(c, s, action)
    ensures s.registry.history <= Do(c, s, action).registry.history
  {
    hide AP.Register, AP.Decide, AP.Consume, AP.Invalidate, AP.Release, Passes, NextGraph, NextStore;
  }

  lemma ObservedIsDecided(c: Config, s: Loop, action: Action)
    requires Inv(c, s) && Can(c, s, action) && action.Observe?
    ensures s.graph.pending.Some? && Decided(s)
    ensures SinkCalls(c, s, action) ==
            [ApprovalResolved(s.graph.pending.value.approval, s.graph.pending.value.callId, ApprovedByUser(s))]
    ensures Decision(Do(c, s, action).registry, s.graph.pending.value.approval, ApprovedByUser(s))
  {
    hide StoreFits, RequestFits, RegistryFits, GrantsFit, CountsFit, SinkFits, NextGraph, NextStore, CH.Protocol;
    var id := s.graph.pending.value.approval;
    assert AP.EntryOk(s.registry, id);
    assert AP.Granting(s.registry.entries[id].resolution.value) == ApprovedByUser(s);
    assert Decision(s.registry, id, ApprovedByUser(s));
    HistoryStays(c, s, action, id, ApprovedByUser(s));
  }

  lemma ResolvedOnlyObserved(c: Config, s: Loop, action: Action, m: nat)
    requires Can(c, s, action) && m < |SinkCalls(c, s, action)| && SinkCalls(c, s, action)[m].ApprovalResolved?
    ensures action.Observe?
  {
    hide CH.Protocol, StoreOp;
  }

  // What the stream tells about an approval is what a user decided.
  lemma {:induction false} ToldIsDecided(c: Config, states: seq<Loop>, actions: seq<Action>, n: nat, k: nat)
    requires Execution(c, states, actions) && n < |states| && k < |states[n].sink| && states[n].sink[k].ApprovalResolved?
    ensures Decision(states[n].registry, states[n].sink[k].approval, states[n].sink[k].approved)
  {
    hide Inv, Can, Do, Initial, SinkCalls, Decision;
    if n == 0 {
      StartsSilent(c, states[0]);
    } else {
      var s, action := states[n - 1], actions[n - 1];
      SinkGrowsBy(c, s, action);
      if k < |s.sink| {
        ToldIsDecided(c, states, actions, n - 1, k);
        HistoryStays(c, s, action, s.sink[k].approval, s.sink[k].approved);
      } else {
        ResolvedOnlyObserved(c, s, action, k - |s.sink|);
        ReachableInv(c, states, actions, n - 1);
        ObservedIsDecided(c, s, action);
      }
    }
  }

  lemma StartsSilent(c: Config, s: Loop)
    requires Initial(c, s)
    ensures s.sink == []
  {
  }

  lemma SinkGrowsBy(c: Config, s: Loop, action: Action)
    requires Can(c, s, action)
    ensures Do(c, s, action).sink == s.sink + SinkCalls(c, s, action)
  {
  }

  lemma RejectedStays(registry: AP.Registry, id: AP.Id, at: nat)
    requires AP.Inv(registry) && Decision(registry, id, false)
    requires at < |registry.history| && registry.history[at].Consumed?
    ensures registry.history[at].request.approval != id
  {
    assert AP.Justified(registry, at);
    var request := registry.history[at].request;
    if request.approval == id {
      var b :| 0 <= b < at && registry.history[b] == AP.Event.Decided(id, true);
      var d :| AP.DecidedAt(registry, d, id, false);
      var first, second := if b < d then b else d, if b < d then d else b;
      assert AP.SameKind(registry.history[first], registry.history[second]);
    }
  }

  // A request the stream has shown as rejected is never consumed.
  lemma RejectedNeverConsumed(c: Config, states: seq<Loop>, actions: seq<Action>, n: nat, k: nat, at: nat)
    requires Execution(c, states, actions) && n < |states| && k < |states[n].sink|
    requires states[n].sink[k].ApprovalResolved? && !states[n].sink[k].approved
    requires at < |states[n].registry.history| && states[n].registry.history[at].Consumed?
    ensures states[n].registry.history[at].request.approval != states[n].sink[k].approval
  {
    hide Execution, Decision;
    ToldIsDecided(c, states, actions, n, k);
    ReachableInv(c, states, actions, n);
    hide StoreFits, RequestFits, RegistryFits, GrantsFit, CountsFit, SinkFits;
    RejectedStays(states[n].registry, states[n].sink[k].approval, at);
    hide AP.Inv;
  }

  // ---------------------------------------------------------------- nothing is left behind

  predicate NoEntryOf(registry: AP.Registry, run: AP.Id) {
    forall id :: id in registry.entries ==> registry.entries[id].request.run != run
  }

  predicate Released(c: Config, s: Loop) {
    s.graph.node.Finished? ==> NoEntryOf(s.registry, c.run)
  }

  lemma ApplyReleased(registry: AP.Registry, op: AP.Op, run: AP.Id)
    requires NoEntryOf(registry, run) || op == AP.Releasing(run)
    requires op.Registering? ==> op.request.run != run
    ensures NoEntryOf(AP.Apply(registry, op), run)
  {
    match op
    case Registering(request) => AP.RegisterMeans(registry.entries, request);
    case Deciding(id, decision) => AP.DecideMeans(registry.entries, id, decision);
    case Consuming(request) => AP.ConsumeMeans(registry.entries, request);
    case Invalidating(ended, reason) => AP.EndMeans(registry.entries, ended, reason);
    case Releasing(ended) => AP.EndMeans(registry.entries, ended, AP.RunCancelled);
    hide AP.Register, AP.Decide, AP.Consume, AP.Invalidate, AP.Release;
  }

  // What the registry does in a step that ends the run or comes after its end.
  lemma EndReleases(c: Config, s: Loop, action: Action)
    requires Can(c, s, action) && (NextGraph(c, s, action).node.Finished? || s.graph.node.Finished?)
    ensures match RegistryOp(c, s, action)
            case None => s.graph.node.Finished?
            case Some(op) =>
              (s.graph.node.Finished? || op == AP.Releasing(c.run)) && (op.Registering? ==> op.request.run != c.run)
  {
    hide CH.Protocol, StoreOp, PrepareResult, ExecuteResult;
    if action.PrepareCall? { PreparedNode(c, s, action.approval); }
    if action.Execute? { ExecutedNode(c, s); }
  }

  lemma PreparedNode(c: Config, s: Loop, approval: AP.Id)
    ensures PrepareResult(c, s.graph, approval).node.Finished? ==> s.graph.node.Finished?
  {
    hide CommandPolicy.Classify;
  }

  lemma ExecutedNode(c: Config, s: Loop)
    ensures forall g: Graph :: ExecuteResult(c, g).node.Finished? ==> g.node.Finished?
  {
  }

  lemma StaysReleased(c: Config, s: Loop, action: Action)
    requires Can(c, s, action) && Released(c, s)
    ensures Released(c, Do(c, s, action))
  {
    hide AP.Apply, NextGraph, NextStore, StoreOp, CH.Protocol, SinkCalls, NoEntryOf, Passes, RegistryOp;
    if NextGraph(c, s, action).node.Finished? {
      EndReleases(c, s, action);
      if RegistryOp(c, s, action).Some? {
        ApplyReleased(s.registry, RegistryOp(c, s, action).value, c.run);
      }
    }
  }

  // A run that is over leaves no request in the registry, so nothing of it can be used later.
  lemma {:induction false} OverLeavesNothing(c: Config, states: seq<Loop>, actions: seq<Action>, n: nat)
    requires Execution(c, states, actions) && n < |states|
    ensures Released(c, states[n])
  {
    hide Can, Do;
    if n > 0 {
      OverLeavesNothing(c, states, actions, n - 1);
      StaysReleased(c, states[n - 1], actions[n - 1]);
      hide Released;
    }
  }

  // ---------------------------------------------------------------- conversations that cannot go on

  // An answer with unusable call identifiers stands behind everything the summaries cover.
  ghost predicate Spoilt(store: CS.Store) {
    exists i :: SpoiltAt(store, i)
  }

  predicate SpoiltAt(store: CS.Store, i: int) {
    && 0 <= i < |store.messages| && store.messages[i].sequence > CW.Covered(store.summaries)
    && store.messages[i].message.AI? && !ValidCalls(store.messages[i].message.calls)
  }

  lemma {:induction false} StillAfter(records: seq<Record>, covered: int, i: nat) returns (k: nat)
    requires i < |records| && records[i].sequence > covered
    ensures k < |CW.After(records, covered)| && CW.After(records, covered)[k] == records[i]
  {
    var n := |records| - 1;
    if i == n {
      k := |CW.After(records[..n], covered)|;
    } else {
      k := StillAfter(records[..n], covered, i);
    }
  }

  lemma SpoiltUncut(store: CS.Store, percent: int)
    requires Spoilt(store)
    ensures CW.CompactablePrefix(CW.After(store.messages, CW.Covered(store.summaries)), percent).Err?
  {
    var i :| SpoiltAt(store, i);
    var k := StillAfter(store.messages, CW.Covered(store.summaries), i);
    var records := CW.After(store.messages, CW.Covered(store.summaries));
    CH.BadCallsPoison(records, k, []);
    assert records + [] == records;
    hide CW.CompactablePrefix;
  }

  predicate Early(node: Node) {
    node.StartStream? || node.LoadContext? || node.CompactContext? || node.Finished?
  }

  lemma SpoiltStep(c: Config, s: Loop, action: Action)
    requires Can(c, s, action) && Early(s.graph.node) && Spoilt(s.store) && s.counts.models == 0
    ensures var t := Do(c, s, action); Early(t.graph.node) && Spoilt(t.store) && t.counts.models == 0
  {
    if action.Compact? {
      SpoiltUncut(s.store, action.percent);
      assert false;
    }
    var i :| SpoiltAt(s.store, i);
    KeepsEarlier(c, s, action);
    assert SpoiltAt(Do(c, s, action).store, i);
    hide SpoiltAt, CW.CompactablePrefix, CH.Next, CH.Protocol, NextRegistry, SinkCalls, PrepareResult, ExecuteResult;
  }

  lemma KeepsEarlier(c: Config, s: Loop, action: Action)
    requires Can(c, s, action) && Early(s.graph.node) && !action.Compact?
    ensures s.store.messages <= Do(c, s, action).store.messages
    ensures Do(c, s, action).store.summaries == s.store.summaries
  {
    hide CW.CompactablePrefix, CH.CompactOnce, CS.Finish, CS.Increment, NextGraph, NextRegistry, SinkCalls;
  }

  // With such an answer in its conversation no later turn ever asks the model: it ends, by
  // failing or by being torn down, where the history would be compacted.
  lemma {:induction false} SpoiltTurnsFail(c: Config, states: seq<Loop>, actions: seq<Action>, n: nat)
    requires Execution(c, states, actions) && n < |states| && Spoilt(states[0].store)
    ensures Early(states[n].graph.node) && Spoilt(states[n].store) && states[n].counts.models == 0
  {
    hide Can, Do, Spoilt;
    if n > 0 {
      SpoiltTurnsFail(c, states, actions, n - 1);
      SpoiltStep(c, states[n - 1], actions[n - 1]);
    }
  }
}

/**
 The stored side of the approval-gated loop: every transaction of the graph is one
 the conversation store allows, and the history is always at the stage of the node.
 */
module ReactTables {
  import opened Wrappers
  import opened Messages
  import CH = ConversationHistory
  import CS = ConversationStore
  import AP = Approvals
  import opened TurnEvents
  import opened ReactLoop

  // ---------------------------------------------------------------- the stored side

  // How far the stored history has come at a node.
  datatype Stage = Fresh | Loaded | Closed | Answered | CallsOpen | AtLimit | Over

  function StageOf(node: Node): Stage {
    match node
    case StartStream => Fresh
    case LoadContext => Fresh
    case CompactContext => Loaded
    case PrepareModel => Closed
    case CallModel => Closed
    case ReturnResponse => Answered
    case CloseLimit => Closed
    case Returned(limit) => if limit then AtLimit else Answered
    case Finished => Over
    case _ => CallsOpen
  }

  predicate LastIsAI(store: CS.Store) {
    store.messages != [] && store.messages[|store.messages| - 1].message.AI?
  }

  predicate HistoryAt(stage: Stage, calls: seq<ToolCall>, store: CS.Store)
    requires store.runs != []
  {
    match stage
    case Fresh => CH.NoMessagesOf(store.messages, CH.Current(store))
    case Loaded => CH.JustLoaded(store)
    case Closed => CH.InTurn(store) && !LastIsAI(store)
    case Answered => CH.InTurn(store) && CH.OpenCalls(store.messages) == []
    case CallsOpen => CH.InTurn(store) && calls != [] && CH.OpenCalls(store.messages) == CallIds(calls)
    case AtLimit => CH.InTurn(store) && !LastIsAI(store)
    case Over => true
  }

  function LastRun(store: CS.Store): CS.Run
    requires store.runs != []
  {
    store.runs[|store.runs| - 1]
  }

  predicate TablesFit(run: RunId, stage: Stage, calls: seq<ToolCall>, iteration: nat, store: CS.Store) {
    && (Usable(store.messages) ==> CH.Inv(store))
    && Distinct(CH.Ids(store.runs)) && store.runs != [] && CH.Current(store) == run
    && LastRun(store).iteration == iteration <= LIMIT
    && (stage != Over ==> LastRun(store).status == if stage == AtLimit then CS.LimitReached else CS.Running)
    && HistoryAt(stage, calls, store)
  }

  predicate StoreFits(c: Config, s: Loop) {
    TablesFit(c.run, StageOf(s.graph.node), s.graph.calls, s.graph.iteration, s.store)
  }

  lemma {:induction false} RunAtLast(runs: seq<CS.Run>)
    requires runs != [] && Distinct(CH.Ids(runs))
    ensures CS.RunAt(runs, runs[|runs| - 1].id) == |runs| - 1
  {
    if |runs| > 1 {
      var ids := CH.Ids(runs);
      assert ids[0] != ids[|runs| - 1];
      forall i, j | 0 <= i < j < |runs[1..]| ensures CH.Ids(runs[1..])[i] != CH.Ids(runs[1..])[j] {
        assert ids[i + 1] != ids[j + 1];
      }
      RunAtLast(runs[1..]);
    }
  }

  lemma IterateLast(store: CS.Store)
    requires Distinct(CH.Ids(store.runs)) && store.runs != []
    ensures var run := LastRun(store);
            CS.Increment(store.runs, run.id) ==
            if run.status == CS.Running && run.iteration < LIMIT
            then Ok(store.runs[|store.runs| - 1 := run.(iteration := run.iteration + 1)])
            else Err(if run.iteration >= LIMIT then CS.IterationLimit else CS.RunNotRunning)
  {
    RunAtLast(store.runs);
  }

  lemma EndLast(store: CS.Store, status: CS.Status)
    requires Distinct(CH.Ids(store.runs)) && store.runs != [] && status != CS.Running
    ensures var run := LastRun(store);
            CH.Next(store, CH.End(status)) ==
            if run.status == CS.Running
            then store.(runs := store.runs[|store.runs| - 1 := run.(status := status)]) else store
  {
    RunAtLast(store.runs);
  }

  lemma LastChanged(runs: seq<CS.Run>, run: CS.Run)
    requires runs != [] && Distinct(CH.Ids(runs)) && run.id == runs[|runs| - 1].id
    ensures CH.Ids(runs[|runs| - 1 := run]) == CH.Ids(runs)
  {
  }

  lemma AppendedLast(store: CS.Store, batch: seq<Message>)
    requires store.runs != [] && batch != []
    ensures var grown := CS.Append(store.messages, CH.Current(store), batch);
            && grown != []
            && grown[|grown| - 1].run == CH.Current(store)
            && grown[|grown| - 1].message == batch[|batch| - 1]
            && store.messages <= grown
  {
  }

  lemma UsableBefore(messages: seq<Record>, grown: seq<Record>)
    requires messages <= grown && Usable(grown)
    ensures Usable(messages)
  {
  }

  lemma CompactKeepsRows(store: CS.Store, percent: int, summary: string)
    requires CH.Protocol(store, CH.Compact(percent, summary))
    ensures var after := CH.Next(store, CH.Compact(percent, summary));
            after.messages == store.messages && after.runs == store.runs
  {
  }

  lemma ResultsLast(store: CS.Store, outputs: seq<string>)
    requires CH.Protocol(store, CH.Results(outputs))
    ensures var after := CH.Next(store, CH.Results(outputs));
            CH.InTurn(after) && !LastIsAI(after) && after.runs == store.runs && store.messages <= after.messages
  {
    AppendedLast(store, CH.CallResults(CH.OpenCalls(store.messages), outputs));
  }

  lemma TurnLast(store: CS.Store, text: string, attachments: seq<nat>)
    requires CH.Protocol(store, CH.Turn(text, attachments))
    ensures var after := CH.Next(store, CH.Turn(text, attachments));
            CH.JustLoaded(after) && after.runs == store.runs && store.messages <= after.messages
  {
    CH.TurnIsLast(store, text, attachments);
    CH.TurnRows(store.messages, CH.Current(store), text, attachments);
  }

  lemma TurnFits(run: RunId, calls: seq<ToolCall>, it: nat, store: CS.Store, text: string, attachments: seq<nat>)
    requires TablesFit(run, Fresh, calls, it, store)
    ensures CH.Protocol(store, CH.Turn(text, attachments))
    ensures TablesFit(run, Loaded, calls, it, CH.Next(store, CH.Turn(text, attachments)))
  {
    var after := CH.Next(store, CH.Turn(text, attachments));
    TurnLast(store, text, attachments);
    if Usable(after.messages) {
      UsableBefore(store.messages, after.messages);
      CH.TurnKeepsInv(store, text, attachments);
    }
  }

  lemma CompactFits(run: RunId, calls: seq<ToolCall>, it: nat, store: CS.Store, percent: int, summary: string)
    requires TablesFit(run, Loaded, calls, it, store) && 1 <= percent <= 99
    ensures CH.Protocol(store, CH.Compact(percent, summary))
    ensures TablesFit(run, Closed, calls, it, CH.Next(store, CH.Compact(percent, summary)))
  {
    if Usable(store.messages) {
      CH.CompactKeepsInv(store, percent, summary);
    }
    CompactKeepsRows(store, percent, summary);
    SameRowsFit(run, calls, it, store, CH.Next(store, CH.Compact(percent, summary)));
  }

  lemma SameRowsFit(run: RunId, calls: seq<ToolCall>, it: nat, store: CS.Store, after: CS.Store)
    requires TablesFit(run, Loaded, calls, it, store)
    requires Usable(store.messages) ==> CH.Inv(after)
    requires after.messages == store.messages && after.runs == store.runs
    ensures TablesFit(run, Closed, calls, it, after)
  {
  }

  lemma ModelFits(run: RunId, before: seq<ToolCall>, it: nat, store: CS.Store, text: string, calls: seq<ToolCall>)
    requires TablesFit(run, Closed, before, it, store)
    ensures CH.Protocol(store, CH.Assistant(text, CallIds(calls)))
    ensures TablesFit(run, if calls == [] then Answered else CallsOpen, calls, it,
                      CH.Next(store, CH.Assistant(text, CallIds(calls))))
  {
    var after := CH.Next(store, CH.Assistant(text, CallIds(calls)));
    AppendedLast(store, [AI(text, CallIds(calls))]);
    if Usable(after.messages) {
      UsableBefore(store.messages, after.messages);
      CH.AssistantKeepsInvIff(store, text, CallIds(calls));
    }
  }

  lemma IterateFits(run: RunId, calls: seq<ToolCall>, it: nat, store: CS.Store)
    requires TablesFit(run, CallsOpen, calls, it, store) && it < LIMIT
    ensures CH.Protocol(store, CH.Iterate) && CS.Increment(store.runs, run).Ok?
    ensures TablesFit(run, CallsOpen, calls, it + 1, CH.Next(store, CH.Iterate))
  {
    IterateLast(store);
    LastChanged(store.runs, LastRun(store).(iteration := it + 1));
    if Usable(store.messages) {
      CH.StatusStepKeepsInv(store, CH.Iterate);
    }
  }

  lemma ResultsFit(run: RunId, calls: seq<ToolCall>, it: nat, store: CS.Store, outputs: seq<string>)
    requires TablesFit(run, CallsOpen, calls, it, store) && |outputs| == |calls|
    ensures CH.Protocol(store, CH.Results(outputs))
    ensures TablesFit(run, Closed, calls, it, CH.Next(store, CH.Results(outputs)))
  {
    var after := CH.Next(store, CH.Results(outputs));
    ResultsLast(store, outputs);
    if Usable(after.messages) {
      UsableBefore(store.messages, after.messages);
      CH.ResultsKeepInv(store, outputs);
    }
  }

  lemma LimitFits(run: RunId, calls: seq<ToolCall>, it: nat, store: CS.Store)
    requires TablesFit(run, Closed, calls, it, store)
    ensures TablesFit(run, AtLimit, calls, it, CH.Next(store, CH.End(CS.LimitReached)))
  {
    EndKeepsStore(store, CS.LimitReached);
  }

  lemma EndFits(run: RunId, stage: Stage, calls: seq<ToolCall>, it: nat, store: CS.Store, status: CS.Status)
    requires TablesFit(run, stage, calls, it, store) && status != CS.Running
    ensures TablesFit(run, Over, calls, it, CH.Next(store, CH.End(status)))
  {
    EndKeepsStore(store, status);
  }

  lemma EndKeepsStore(store: CS.Store, status: CS.Status)
    requires Distinct(CH.Ids(store.runs)) && store.runs != [] && status != CS.Running
    requires Usable(store.messages) ==> CH.Inv(store)
    ensures var after := CH.Next(store, CH.End(status));
            && (Usable(after.messages) ==> CH.Inv(after)) && Distinct(CH.Ids(after.runs))
            && after.runs != [] && CH.Current(after) == CH.Current(store)
            && after.messages == store.messages
            && LastRun(after).iteration == LastRun(store).iteration
            && LastRun(after).status == (if LastRun(store).status == CS.Running then status else LastRun(store).status)
  {
    EndLast(store, status);
    LastChanged(store.runs, LastRun(store).(status := status));
    if Usable(store.messages) {
      CH.StatusStepKeepsInv(store, CH.End(status));
    }
  }

  // `results` answers every call of the model.
  predicate ResultsFill(g: Graph) {
    g.node.RecordResult? ==> |g.results| == |g.calls|
  }

  // Committing an operation of the right kind takes the tables to the next stage.
  predicate Advances(stage: Stage, op: CH.Op, after: Stage, before: seq<ToolCall>, calls: seq<ToolCall>) {
    match op
    case Turn(_, _) => stage == Fresh && after == Loaded && calls == before
    case Compact(percent, _) => stage == Loaded && after == Closed && calls == before && 1 <= percent <= 99
    case Assistant(_, ids) =>
      && stage == Closed && ids == CallIds(calls)
      && after == (if calls == [] then Answered else CallsOpen)
    case Iterate => stage == CallsOpen && after == CallsOpen && calls == before
    case Results(outputs) => stage == CallsOpen && after == Closed && calls == before && |outputs| == |calls|
    case End(status) =>
      && status != CS.Running && calls == before
      && (after == Over || (stage == Closed && after == AtLimit && status == CS.LimitReached))
    case _ => false
  }

  lemma OpFits(run: RunId, stage: Stage, before: seq<ToolCall>, it: nat, store: CS.Store,
               op: CH.Op, after: Stage, calls: seq<ToolCall>)
    requires TablesFit(run, stage, before, it, store) && Advances(stage, op, after, before, calls)
    requires op.Iterate? ==> it < LIMIT
    ensures CH.Protocol(store, op)
    ensures op.Iterate? ==> CS.Increment(store.runs, run).Ok?
    ensures TablesFit(run, after, calls, if op.Iterate? then it + 1 else it, CH.Next(store, op))
  {
    hide CH.Inv, CH.Apply, HistoryAt;
    match op
    case Turn(text, attachments) => TurnFits(run, before, it, store, text, attachments);
    case Compact(percent, summary) => CompactFits(run, before, it, store, percent, summary);
    case Assistant(text, _) => ModelFits(run, before, it, store, text, calls);
    case Iterate => IterateFits(run, calls, it, store);
    case Results(outputs) => ResultsFit(run, calls, it, store, outputs);
    case End(status) =>
      if after == Over { EndFits(run, stage, calls, it, store, status); } else { LimitFits(run, calls, it, store); }
    case _ =>
  }

  predicate SameCalls(g: Graph, after: Graph) {
    after.iteration == g.iteration && after.calls == g.calls && StageOf(after.node) == StageOf(g.node)
  }

  lemma PrepareStays(c: Config, g: Graph, approval: AP.Id)
    requires g.node.PrepareTool?
    ensures SameCalls(g, PrepareResult(c, g, approval))
  {
  }

  lemma ExecuteStays(c: Config, g: Graph)
    requires g.node.ExecuteTool?
    ensures SameCalls(g, ExecuteResult(c, g))
  {
  }

  // The other actions keep the stage or end the run.
  lemma GraphStays(c: Config, s: Loop, action: Action)
    requires AtNode(s.graph.node, action) && StoreOp(s, action).None?
    ensures var after := NextGraph(c, s, action);
            || SameCalls(s.graph, after)
            || (after.iteration == s.graph.iteration && after.calls == s.graph.calls && StageOf(after.node) == Over)
  {
    if action.PrepareCall? {
      PrepareStays(c, s.graph, action.approval);
    }
    if action.Execute? {
      ExecuteStays(c, s.graph.(grant := if s.graph.pending.Some? then Some(|s.registry.history|) else None));
    }
    hide PrepareResult, ExecuteResult;
  }

  // Every transaction of the graph is one its stage allows.
  lemma GraphAdvances(c: Config, s: Loop, action: Action)
    requires AtNode(s.graph.node, action) && Passes(c, s, action) && ResultsFill(s.graph)
    requires StoreOp(s, action).Some?
    ensures var after := NextGraph(c, s, action);
            var op := StoreOp(s, action).value;
            && Advances(StageOf(s.graph.node), op, StageOf(after.node), s.graph.calls, after.calls)
            && after.iteration == (if op.Iterate? then s.graph.iteration + 1 else s.graph.iteration)
            && (op.Iterate? ==> s.graph.iteration < LIMIT)
  {
    hide PrepareResult, ExecuteResult;
  }

  lemma StepKeepsStore(c: Config, s: Loop, action: Action)
    requires StoreFits(c, s) && ResultsFill(s.graph) && Can(c, s, action)
    ensures StoreFits(c, Do(c, s, action))
  {
    var after := NextGraph(c, s, action);
    if StoreOp(s, action).Some? {
      GraphAdvances(c, s, action);
      OpFits(c.run, StageOf(s.graph.node), s.graph.calls, s.graph.iteration, s.store,
             StoreOp(s, action).value, StageOf(after.node), after.calls);
    } else {
      GraphStays(c, s, action);
    }
    hide CH.Inv, CH.Apply, NextGraph, StoreOp, Passes, HistoryAt, SinkCalls, RegistryOp;
  }
}

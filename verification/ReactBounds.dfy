/**
 How much one run can do - iterations, model requests, dispatched commands, executed
 nodes - and that its event calls follow the stream's protocol.
 */
module ReactBounds {
  import opened Wrappers
  import AP = Approvals
  import CommandPolicy
  import opened TurnEvents
  import opened ReactLoop
  import opened ReactRequests

  // ---------------------------------------------------------------- counting

  predicate Within(counts: Counts, dispatched: int, nodes: int, models: int, commands: int, resumed: int, services: int, outputs: int) {
    && counts.nodes <= nodes && counts.models == models && dispatched <= commands
    && counts.resumed <= resumed && counts.services <= services && counts.outputs <= outputs
  }

  // Every round of the loop takes at most seven nodes, one model request, one command,
  // one resumption and two steps of the service.
  predicate CountsFit(g: Graph, counts: Counts, n: nat) {
    var it := g.iteration;
    && it <= LIMIT
    && counts.rejected <= (if g.node.CloseLimit? || g.node.Returned? || g.node.Finished? then 1 else 0)
    && match g.node
       case StartStream => it == 0 && Within(counts, n, 0, 0, 0, 0, 0, 0)
       case LoadContext => it == 0 && Within(counts, n, 0, 0, 0, 0, 1, 0)
       case CompactContext => it == 0 && Within(counts, n, 1, 0, 0, 0, 1, 0)
       case PrepareModel => Within(counts, n, 7 * it + 2, it, it, it, 2 * it + 1, it)
       case CallModel => Within(counts, n, 7 * it + 3, it, it, it, 2 * it + 1, it)
       case CheckLimit => Within(counts, n, 7 * it + 4, it + 1, it, it, 2 * it + 1, it)
       case ReturnResponse => Within(counts, n, 7 * it + 4, it + 1, it, it, 2 * it + 1, it)
       case PrepareTool => it > 0 && Within(counts, n, 7 * it - 2, it, it - 1, it - 1, 2 * it - 1, it - 1)
       case AwaitApproval => it > 0 && Within(counts, n, 7 * it - 1, it, it - 1, it - 1, 2 * it - 1, it - 1)
       case Interrupted => it > 0 && Within(counts, n, 7 * it, it, it - 1, it - 1, 2 * it - 1, it - 1)
       case AwaitDecision => it > 0 && Within(counts, n, 7 * it, it, it - 1, it - 1, 2 * it, it - 1)
       case Resumed(_) => it > 0 && Within(counts, n, 7 * it, it, it - 1, it - 1, 2 * it + 1, it - 1)
       case ExecuteTool => it > 0 && Within(counts, n, 7 * it, it, it - 1, it, 2 * it + 1, it - 1)
       case Dispatching => it > 0 && Within(counts, n, 7 * it + 1, it, it - 1, it, 2 * it + 1, it - 1)
       case Executing => it > 0 && Within(counts, n, 7 * it + 1, it, it, it, 2 * it + 1, it - 1)
       case RecordResult => it > 0 && Within(counts, n, 7 * it + 1, it, it, it, 2 * it + 1, it)
       case RejectLimit => it == LIMIT && Within(counts, n, 7 * it + 5, it + 1, it, it, 2 * it + 1, it)
       case CloseLimit => it == LIMIT && Within(counts, n, 7 * it + 5, it + 1, it, it, 2 * it + 1, it)
       case Returned(limit) =>
         (limit ==> it == LIMIT) && Within(counts, n, 7 * it + 6, it + 1, it, it, 2 * it + 1, it)
       case Finished => counts.models <= LIMIT + 1 && Within(counts, n, 902, counts.models, LIMIT, LIMIT, 258, LIMIT)
  }

  lemma EndCounts(c: Config, s: Loop, action: Action)
    requires CountsFit(s.graph, s.counts, |s.dispatches|) && AtNode(s.graph.node, action)
    requires action.Finish? || action.Fail? || action.Abandon?
    ensures CountsFit(NextGraph(c, s, action), NextCounts(s.counts, action), |s.dispatches|)
  {
  }

  lemma MoveCounts(c: Config, s: Loop, action: Action)
    requires CountsFit(s.graph, s.counts, |s.dispatches|) && AtNode(s.graph.node, action)
    requires !action.Finish? && !action.Fail? && !action.Abandon? && !action.PrepareCall? && !action.Execute?
    ensures CountsFit(NextGraph(c, s, action), NextCounts(s.counts, action), |NextDispatches(c, s, action)|)
  {
    hide PrepareResult, ExecuteResult, Decided;
  }

  lemma StepKeepsCounts(c: Config, s: Loop, action: Action)
    requires CountsFit(s.graph, s.counts, |s.dispatches|) && AtNode(s.graph.node, action)
    requires s.graph.node.PrepareTool? || s.graph.node.ExecuteTool? ==> s.graph.calls != []
    ensures CountsFit(NextGraph(c, s, action), NextCounts(s.counts, action), |NextDispatches(c, s, action)|)
  {
    if action.PrepareCall? {
      PrepareNode(c, s.graph, action.approval);
      hide PrepareResult;
    } else if action.Execute? {
      ExecuteNode(c, s.graph.(grant := if s.graph.pending.Some? then Some(|s.registry.history|) else None));
      hide ExecuteResult;
    } else if action.Finish? || action.Fail? || action.Abandon? {
      EndCounts(c, s, action);
    } else {
      MoveCounts(c, s, action);
      hide CountsFit, NextGraph;
    }
  }

  lemma PrepareNode(c: Config, g: Graph, approval: AP.Id)
    requires g.calls != []
    ensures var after := PrepareResult(c, g, approval);
            && after.iteration == g.iteration
            && (after.node.RecordResult? || after.node.ExecuteTool? || after.node.AwaitApproval?)
  {
    hide CommandPolicy.Classify;
  }

  lemma ExecuteNode(c: Config, g: Graph)
    requires g.calls != []
    ensures ExecuteResult(c, g).iteration == g.iteration
    ensures ExecuteResult(c, g).node.RecordResult? || ExecuteResult(c, g).node.Dispatching?
  {
  }

  // ---------------------------------------------------------------- the event calls

  predicate SinkFits(c: Config, g: Graph, reserved: set<AP.Id>, sink: seq<SinkCall>) {
    var phase := PhaseAfter(sink, c.session);
    if g.node.StartStream? then sink == []
    else if g.node.Finished? then phase != Broken
    else
      && phase.Open? && phase.asked <= reserved
      && (g.node.AwaitDecision? ==>
            g.pending.Some? && phase.pending == Some((g.pending.value.approval, g.pending.value.callId)))
      && (!g.node.AwaitDecision? ==> phase.pending.None?)
      && (g.pending.Some? && (g.node.AwaitApproval? || g.node.Interrupted?) ==> g.pending.value.approval !in phase.asked)
  }

  lemma OneCall(sink: seq<SinkCall>, calls: seq<SinkCall>, session: nat)
    requires |calls| == 1
    ensures PhaseAfter(sink + calls, session) == Advance(PhaseAfter(sink, session), calls[0], session)
  {
    PhaseStep(sink, calls[0], session);
    assert sink + [calls[0]] == sink + calls;
  }

  function ReservedAfter(s: Loop, action: Action): set<AP.Id> {
    if action.PrepareCall? then s.reserved + {action.approval} else s.reserved
  }

  predicate StaysOpen(action: Action) {
    !action.Start? && !action.Finish? && !action.Fail? && !action.Abandon?
  }

  // Where the graph stands after an action, as far as the event stream can tell.
  lemma OpenMoves(c: Config, s: Loop, action: Action)
    requires RequestFits(c, s.graph, s.reserved) && AtNode(s.graph.node, action) && Passes(c, s, action)
    requires StaysOpen(action) && !s.graph.node.Finished?
    ensures var g, after := s.graph, NextGraph(c, s, action);
            && !after.node.StartStream? == !g.node.StartStream? && !after.node.Finished?
            && (after.node.AwaitDecision? <==> action.Register? || (action.Others? && g.node.AwaitDecision?))
            && (action.Register? || action.Interrupt? || action.Others? ==> after.pending == g.pending)
            && (after.node.AwaitApproval? || after.node.Interrupted? ==>
                  || (action.PrepareCall? && after.pending.Some? && after.pending.value.approval == action.approval)
                  || (action.Interrupt? && g.node.AwaitApproval?)
                  || (action.Others? && after == g))
  {
    hide CommandPolicy.Classify, Matches;
  }

  // Actions without a call of their own.
  lemma QuietSink(c: Config, s: Loop, action: Action)
    requires SinkFits(c, s.graph, s.reserved, s.sink) && RequestFits(c, s.graph, s.reserved)
    requires AtNode(s.graph.node, action) && Passes(c, s, action) && StaysOpen(action)
    requires !s.graph.node.Finished? && !action.Register? && !action.Observe?
    requires s.graph.node.StartStream? ==> action.Others?
    requires PhaseAfter(s.sink + SinkCalls(c, s, action), c.session) == PhaseAfter(s.sink, c.session)
    requires s.graph.node.StartStream? ==> SinkCalls(c, s, action) == []
    ensures SinkFits(c, NextGraph(c, s, action), ReservedAfter(s, action), s.sink + SinkCalls(c, s, action))
  {
    OpenMoves(c, s, action);
    hide NextGraph, SinkCalls, PhaseAfter, RequestFits, AP.Unused;
  }

  lemma ApprovalSink(c: Config, s: Loop, action: Action)
    requires SinkFits(c, s.graph, s.reserved, s.sink) && RequestFits(c, s.graph, s.reserved)
    requires AtNode(s.graph.node, action) && Passes(c, s, action) && (action.Register? || action.Observe?)
    ensures SinkFits(c, NextGraph(c, s, action), s.reserved, s.sink + SinkCalls(c, s, action))
  {
    OneCall(s.sink, SinkCalls(c, s, action), c.session);
    hide PhaseAfter, AP.Unused;
  }

  lemma StartSink(c: Config, s: Loop)
    requires SinkFits(c, s.graph, s.reserved, s.sink) && s.graph.node.StartStream?
    ensures SinkFits(c, s.graph.(node := LoadContext), s.reserved, s.sink + [Started])
  {
    assert PhaseAfter(s.sink, c.session) == Before;
    OneCall(s.sink, [Started], c.session);
    hide PhaseAfter;
  }

  predicate IsTerminal(call: SinkCall) {
    call.Completed? || call.Failed?
  }

  // A turn that runs is closed by one terminal call; only a failure may leave a request open.
  lemma TerminalSink(c: Config, s: Loop, call: SinkCall)
    requires SinkFits(c, s.graph, s.reserved, s.sink) && !s.graph.node.StartStream? && !s.graph.node.Finished?
    requires IsTerminal(call) && (s.graph.node.AwaitDecision? ==> call.Failed?)
    ensures PhaseAfter(s.sink + [call], c.session).Sealed?
  {
    OneCall(s.sink, [call], c.session);
    hide PhaseAfter;
  }

  lemma EndSink(c: Config, s: Loop, action: Action)
    requires SinkFits(c, s.graph, s.reserved, s.sink) && AtNode(s.graph.node, action)
    requires action.Finish? || action.Fail? || action.Abandon?
    ensures SinkFits(c, NextGraph(c, s, action), s.reserved, s.sink + SinkCalls(c, s, action))
    ensures action.Finish? || action.Fail? ==> PhaseAfter(s.sink + SinkCalls(c, s, action), c.session).Sealed?
  {
    var calls := SinkCalls(c, s, action);
    if action.Abandon? {
      assert s.sink + calls == s.sink;
    } else {
      TerminalSink(c, s, calls[0]);
      assert calls == [calls[0]];
    }
    hide PhaseAfter;
  }

  lemma ToolCallKeepsPhase(c: Config, s: Loop, action: Action)
    requires SinkFits(c, s.graph, s.reserved, s.sink)
    requires AtNode(s.graph.node, action) && Passes(c, s, action) && StaysOpen(action)
    requires !action.Register? && !action.Observe?
    ensures PhaseAfter(s.sink + SinkCalls(c, s, action), c.session) == PhaseAfter(s.sink, c.session)
  {
    var calls := SinkCalls(c, s, action);
    if action.Model? {
      PhaseOfText(s.sink, calls, c.session);
    } else if calls == [] {
      assert s.sink + calls == s.sink;
    } else {
      OneCall(s.sink, calls, c.session);
    }
    hide PhaseAfter, ExecuteResult;
  }

  lemma StepKeepsSink(c: Config, s: Loop, action: Action)
    requires SinkFits(c, s.graph, s.reserved, s.sink) && RequestFits(c, s.graph, s.reserved)
    requires AtNode(s.graph.node, action) && Passes(c, s, action)
    ensures SinkFits(c, NextGraph(c, s, action), ReservedAfter(s, action), s.sink + SinkCalls(c, s, action))
  {
    if s.graph.node.Finished? {
      assert s.sink + [] == s.sink;
    } else if action.Start? {
      StartSink(c, s);
    } else if !StaysOpen(action) {
      EndSink(c, s, action);
    } else if action.Register? || action.Observe? {
      ApprovalSink(c, s, action);
    } else {
      ToolCallKeepsPhase(c, s, action);
      QuietSink(c, s, action);
    }
    hide SinkFits, RequestFits, Passes;
  }
}

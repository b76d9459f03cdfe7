/**
 What every execution of the approval-gated loop guarantees, whatever the model
 answers, the users decide and other runs do to the shared registry.
 */
module ReactSafety {
  import opened Wrappers
  import opened Messages
  import CW = ContextWindow
  import CH = ConversationHistory
  import CS = ConversationStore
  import AP = Approvals
  import CommandPolicy
  import TurnEvents
  import opened ReactLoop
  import opened ReactTables
  import opened ReactRequests
  import opened ReactBounds

  ghost predicate Inv(c: Config, s: Loop) {
    && StoreFits(c, s)
    && RequestFits(c, s.graph, s.reserved)
    && AP.Inv(s.registry) && RegistryFits(c, s.graph, s.registry)
    && GrantsFit(c, s.graph, s.registry, s.dispatches)
    && CountsFit(s.graph, s.counts, |s.dispatches|)
    && SinkFits(c, s.graph, s.reserved, s.sink)
  }

  lemma InitialInv(c: Config, s: Loop)
    requires Initial(c, s)
    ensures Inv(c, s)
  {
    hide CH.Inv, AP.Inv;
  }

  lemma CallsPresent(c: Config, s: Loop)
    requires StoreFits(c, s)
    ensures s.graph.node.PrepareTool? || s.graph.node.ExecuteTool? || s.graph.node.RejectLimit? ==> s.graph.calls != []
  {
    hide CH.Inv;
  }

  lemma StepKeepsInv(c: Config, s: Loop, action: Action)
    requires Inv(c, s) && Can(c, s, action)
    ensures Inv(c, Do(c, s, action))
  {
    hide StoreFits, RequestFits, AP.Inv, RegistryFits, GrantsFit, CountsFit, SinkFits, Passes, AtNode, CH.Protocol,
         NextGraph, NextStore, NextRegistry, SinkCalls, NextDispatches, NextCounts, StoreOp;
    CallsPresent(c, s);
    ResultsAnswer(c, s);
    StepKeepsStore(c, s, action);
    StepKeepsRequest(c, s, action);
    StepKeepsRegistry(c, s, action);
    StepKeepsGrants(c, s, action);
    StepKeepsCounts(c, s, action);
    StepKeepsSink(c, s, action);
  }

  lemma ResultsAnswer(c: Config, s: Loop)
    requires RequestFits(c, s.graph, s.reserved)
    ensures ResultsFill(s.graph)
  {
  }

  lemma {:induction false} ReachableInv(c: Config, states: seq<Loop>, actions: seq<Action>, n: nat)
    requires Execution(c, states, actions) && n < |states|
    ensures Inv(c, states[n])
  {
    hide Inv, Initial, Can, Do;
    if n == 0 {
      InitialInv(c, states[0]);
    } else {
      ReachableInv(c, states, actions, n - 1);
      StepKeepsInv(c, states[n - 1], actions[n - 1]);
    }
  }

  // ---------------------------------------------------------------- nothing is refused

  // The conversation store never refuses a transaction of the graph.
  lemma StoreNeverRefuses(c: Config, s: Loop, action: Action)
    requires Inv(c, s) && AtNode(s.graph.node, action) && Passes(c, s, action)
    ensures Can(c, s, action)
  {
    ResultsAnswer(c, s);
    if StoreOp(s, action).Some? {
      GraphAdvances(c, s, action);
      var after := NextGraph(c, s, action);
      OpFits(c.run, StageOf(s.graph.node), s.graph.calls, s.graph.iteration, s.store,
             StoreOp(s, action).value, StageOf(after.node), after.calls);
      CurrentRun(c, s);
    }
    hide Inv, AtNode, Passes, CH.Protocol, NextGraph, TablesFit;
  }

  lemma CurrentRun(c: Config, s: Loop)
    requires StoreFits(c, s)
    ensures s.store.runs != [] && CH.Current(s.store) == c.run
  {
    hide CH.Inv;
  }

  // Registering never conflicts with an earlier request, and an approved request can be
  // consumed unless its run was ended in between.
  lemma RegistryRefusesOnlyEnded(c: Config, s: Loop)
    requires Inv(c, s)
    ensures s.graph.node.Interrupted? ==> AP.Register(s.registry.entries, s.graph.pending.value).Ok?
    ensures s.graph.node.ExecuteTool? && s.graph.pending.Some? ==>
              && s.graph.pending.value.approval in s.registry.entries
              && (AP.Consume(s.registry.entries, s.graph.pending.value).Ok? <==>
                  s.registry.entries[s.graph.pending.value.approval].active)
  {
    hide StoreFits, GrantsFit, CountsFit, SinkFits, CommandPolicy.Classify;
    EntriesRegistered(s.registry);
    hide AP.Inv;
  }

  lemma EntriesRegistered(registry: AP.Registry)
    requires AP.Inv(registry)
    ensures forall id :: id in registry.entries ==> !AP.Unused(registry, id)
  {
    forall id | id in registry.entries ensures !AP.Unused(registry, id) {
      assert AP.EntryOk(registry, id);
      var a :| AP.RegisteredAt(registry, a, registry.entries[id].request);
    }
  }

  // The run waits only for a person: with any answer of the model and of the executor it
  // can go on, unless it awaits a decision or its approval was withdrawn.
  predicate WaitsForOthers(s: Loop) {
    || (s.graph.node.AwaitDecision? && !Decided(s))
    || (s.graph.node.ExecuteTool? && s.graph.pending.Some?
        && s.graph.pending.value.approval in s.registry.entries
        && !s.registry.entries[s.graph.pending.value.approval].active)
  }

  // A history that cannot be cut ends the turn where it is to be compacted.
  function NextOf(s: Loop, unused: AP.Id, text: string): Action {
    match s.graph.node
    case StartStream => Start
    case LoadContext => Load(text, [])
    case CompactContext =>
      if Usable(s.store.messages) then Compact(50, text) else Fail(false, "CONTEXT_SUMMARY_INVALID", text)
    case PrepareModel => Prepare
    case CallModel => Model([], text, [])
    case CheckLimit => Check
    case PrepareTool => PrepareCall(unused)
    case AwaitApproval => Interrupt
    case Interrupted => Register
    case AwaitDecision => Observe
    case Resumed(_) => Resume
    case ExecuteTool => Execute
    case Dispatching => PassOn
    case Executing => Output(text)
    case RecordResult => Action.Record
    case ReturnResponse => Return
    case RejectLimit => Reject
    case CloseLimit => Limit
    case Returned(_) => Finish
    case Finished => Abandon
  }

  lemma NeverStuck(c: Config, states: seq<Loop>, actions: seq<Action>, n: nat, unused: AP.Id, text: string)
    requires Execution(c, states, actions) && n < |states|
    requires !states[n].graph.node.Finished? && !WaitsForOthers(states[n])
    requires AP.Unused(states[n].registry, unused) && unused !in states[n].reserved
    ensures Can(c, states[n], NextOf(states[n], unused, text))
  {
    ReachableInv(c, states, actions, n);
    hide Execution, Can;
    NextPasses(c, states[n], unused, text);
    StoreNeverRefuses(c, states[n], NextOf(states[n], unused, text));
  }

  lemma NextPasses(c: Config, s: Loop, unused: AP.Id, text: string)
    requires Inv(c, s) && !s.graph.node.Finished? && !WaitsForOthers(s)
    requires AP.Unused(s.registry, unused) && unused !in s.reserved
    ensures AtNode(s.graph.node, NextOf(s, unused, text)) && Passes(c, s, NextOf(s, unused, text))
  {
    hide StoreFits, RequestFits, AP.Inv, RegistryFits, GrantsFit, CountsFit, SinkFits, AP.Consume, AP.Register,
         AP.Unused, Matches, Foreign;
    RegistryRefusesOnlyEnded(c, s);
    CallsPresent(c, s);
    RequestPresent(c, s.graph, s.reserved);
    if s.graph.node.CompactContext? && Usable(s.store.messages) {
      Compactable(c, s, text);
    }
    hide CW.CompactablePrefix;
  }

  lemma Compactable(c: Config, s: Loop, text: string)
    requires StoreFits(c, s) && s.graph.node.CompactContext? && Usable(s.store.messages)
    ensures CW.CompactablePrefix(CW.After(s.store.messages, CW.Covered(s.store.summaries)), 50).Ok?
  {
    hide CH.Inv;
    CH.CompactionAccepted(s.store, 50, text);
  }

  lemma RequestPresent(c: Config, g: Graph, reserved: set<AP.Id>)
    requires RequestFits(c, g, reserved)
    ensures g.node.Interrupted? || g.node.AwaitDecision? ==> g.pending.Some?
    ensures g.node.ExecuteTool? && g.pending.Some? ==> g.calls != [] && Matches(c, g.pending.value, g.calls[0])
  {
    hide CommandPolicy.Classify, Matches;
  }

  // ---------------------------------------------------------------- main results

  // A request was registered and approved before this moment of the history, and its run
  // was not ended in between.
  ghost predicate ApprovedBefore(registry: AP.Registry, request: AP.Request, at: nat) {
    exists a, b ::
      && 0 <= a < at <= |registry.history| && 0 <= b < at
      && registry.history[a] == AP.Registered(request)
      && registry.history[b] == AP.Event.Decided(request.approval, true)
      && forall e :: a < e < at ==> registry.history[e] != AP.Ended(request.run)
  }

  // Every command ever handed to the executor was plainly read-only, or is the exact
  // operation of a request that was approved, still active, and consumed for it alone.
  lemma DispatchesJustified(c: Config, states: seq<Loop>, actions: seq<Action>, n: nat, i: nat)
    requires Execution(c, states, actions) && n < |states| && i < |states[n].dispatches|
    ensures var s := states[n];
            var dispatch := s.dispatches[i];
            && dispatch.session == c.session
            && match dispatch.grant
               case None => CommandPolicy.Classify(dispatch.command, c.dangerous, c.letters) == CommandPolicy.AutoReadOnly
               case Some(at) =>
                 && at < |s.registry.history| && s.registry.history[at].Consumed?
                 && var request := s.registry.history[at].request;
                    && request.run == c.run && request.conversation == c.conversation && request.target == c.target
                    && request.session == c.session && request.callId == dispatch.callId
                    && request.command == dispatch.command
                    && ApprovedBefore(s.registry, request, at)
                    && (forall j :: 0 <= j < |s.dispatches| && j != i ==> s.dispatches[j].grant != dispatch.grant)
                    && (forall j :: 0 <= j < |s.registry.history| && j != at && s.registry.history[j].Consumed? ==>
                          s.registry.history[j].request.approval != request.approval)
  {
    ReachableInv(c, states, actions, n);
    hide Execution, StoreFits, RegistryFits, CountsFit, SinkFits, RequestFits, CommandPolicy.Classify;
    var s := states[n];
    assert Allowed(c, s.registry, s.dispatches[i]);
    if s.dispatches[i].grant.Some? {
      GrantsDiffer(c, s, i);
      ConsumedOnce(s.registry, s.dispatches[i].grant.value);
    }
    hide AP.Inv, GrantsFit;
  }

  lemma GrantsDiffer(c: Config, s: Loop, i: nat)
    requires GrantsFit(c, s.graph, s.registry, s.dispatches) && i < |s.dispatches| && s.dispatches[i].grant.Some?
    ensures forall j :: 0 <= j < |s.dispatches| && j != i ==> s.dispatches[j].grant != s.dispatches[i].grant
  {
    hide Allowed;
  }

  lemma ConsumedOnce(registry: AP.Registry, at: nat)
    requires AP.Inv(registry) && at < |registry.history| && registry.history[at].Consumed?
    ensures ApprovedBefore(registry, registry.history[at].request, at)
    ensures forall j :: 0 <= j < |registry.history| && j != at && registry.history[j].Consumed? ==>
              registry.history[j].request.approval != registry.history[at].request.approval
  {
    assert AP.Justified(registry, at);
    var request := registry.history[at].request;
    var a :| 0 <= a < at && registry.history[a] == AP.Registered(request)
               && !AP.EndedBetween(registry, request.run, a, at);
    var b :| 0 <= b < at && registry.history[b] == AP.Event.Decided(request.approval, true);
    forall e | a < e < at ensures registry.history[e] != AP.Ended(request.run) {
      assert registry.history[e] == AP.Ended(request.run) ==> AP.EndedBetween(registry, request.run, a, at);
    }
    forall j | 0 <= j < |registry.history| && j != at && registry.history[j].Consumed?
      ensures registry.history[j].request.approval != request.approval
    {
      assert !AP.SameKind(registry.history[if j < at then j else at], registry.history[if j < at then at else j]);
    }
  }

  // The graph's counter and the stored one agree, and nothing exceeds its bound.
  lemma RunIsBounded(c: Config, states: seq<Loop>, actions: seq<Action>, n: nat)
    requires Execution(c, states, actions) && n < |states|
    ensures var s := states[n];
            && s.store.runs != [] && CS.RunAt(s.store.runs, c.run) == |s.store.runs| - 1
            && s.store.runs[|s.store.runs| - 1].iteration == s.graph.iteration <= 128
            && s.counts.models <= 129 && |s.dispatches| <= 128
            && s.counts.nodes <= 902 && s.counts.resumed <= 128
  {
    ReachableInv(c, states, actions, n);
    hide Execution, RequestFits, RegistryFits, AP.Inv, GrantsFit, SinkFits;
    StoredRun(c, states[n]);
    CountsBound(states[n].graph, states[n].counts, |states[n].dispatches|);
    hide CountsFit, StoreFits;
  }

  lemma StoredRun(c: Config, s: Loop)
    requires StoreFits(c, s)
    ensures s.store.runs != [] && CS.RunAt(s.store.runs, c.run) == |s.store.runs| - 1
    ensures s.store.runs[|s.store.runs| - 1].iteration == s.graph.iteration
  {
    RunAtLast(s.store.runs);
    hide CS.ChainOk, CH.SeamsOk, CH.OrderedByRun;
  }

  lemma CountsBound(g: Graph, counts: Counts, n: nat)
    requires CountsFit(g, counts, n)
    ensures g.iteration <= 128 && counts.models <= 129 && n <= 128
    ensures counts.nodes <= 902 && counts.resumed <= 128 && counts.services <= 258 && counts.outputs <= 128
    ensures counts.rejected <= 1
  {
  }

  function OwnSteps(actions: seq<Action>): nat {
    if actions == [] then 0
    else OwnSteps(actions[..|actions| - 1]) + if actions[|actions| - 1].Others? then 0 else 1
  }

  function Total(counts: Counts, dispatched: nat): nat {
    counts.nodes + counts.resumed + counts.services + counts.outputs + counts.rejected + dispatched
  }

  lemma StepIsCounted(c: Config, s: Loop, action: Action)
    requires Inv(c, s) && Can(c, s, action)
    ensures Total(NextCounts(s.counts, action), |NextDispatches(c, s, action)|)
         == Total(s.counts, |s.dispatches|) + (if action.Others? then 0 else 1)
  {
    if action.PassOn? {
      DispatchedCall(c, s.graph, s.reserved);
    }
    hide Inv, CH.Protocol, StoreOp, Passes;
  }

  lemma DispatchedCall(c: Config, g: Graph, reserved: set<AP.Id>)
    requires RequestFits(c, g, reserved) && g.node.Dispatching?
    ensures g.calls != [] && g.calls[0].command.Some?
  {
  }

  lemma {:induction false} StepsAreCounted(c: Config, states: seq<Loop>, actions: seq<Action>)
    requires Execution(c, states, actions)
    ensures OwnSteps(actions) == Total(states[|actions|].counts, |states[|actions|].dispatches|)
  {
    if actions != [] {
      var n := |actions| - 1;
      StepsAreCounted(c, states[..n + 1], actions[..n]);
      ReachableInv(c, states, actions, n);
      StepIsCounted(c, states[n], actions[n]);
      hide Inv, Can, Initial, NextGraph, NextStore, NextRegistry, NextDispatches, NextCounts, SinkCalls, Total;
    }
  }

  lemma StateBound(c: Config, s: Loop)
    requires Inv(c, s)
    ensures Total(s.counts, |s.dispatches|) <= 902 + 128 + 258 + 128 + 1 + 128
    ensures s.counts.nodes <= 902 && s.counts.resumed <= 128
  {
    assert CountsFit(s.graph, s.counts, |s.dispatches|);
    hide Inv;
    CountsBound(s.graph, s.counts, |s.dispatches|);
  }

  // Every execution ends: the run itself takes at most 1545 steps, and far fewer graph
  // steps than the 2048 the graph is configured to allow.
  lemma RunTerminates(c: Config, states: seq<Loop>, actions: seq<Action>)
    requires Execution(c, states, actions)
    ensures OwnSteps(actions) <= 902 + 128 + 258 + 128 + 1 + 128
    ensures states[|actions|].counts.nodes + states[|actions|].counts.resumed < 2048
  {
    hide Inv, Initial, Can, Do, OwnSteps, Total;
    StepsAreCounted(c, states, actions);
    ReachableInv(c, states, actions, |actions|);
    StateBound(c, states[|actions|]);
  }

  // A run that reaches the limit has asked the model 129 times, is stored as such, and
  // leaves every tool call of the conversation paired, exactly if all stored answers have
  // usable call identifiers.
  lemma LimitLeavesPaired(c: Config, states: seq<Loop>, actions: seq<Action>, n: nat)
    requires Execution(c, states, actions) && n < |states| && states[n].graph.node == Returned(true)
    ensures var s := states[n];
            && s.counts.models == 129 && s.graph.iteration == 128
            && s.store.runs != [] && s.store.runs[|s.store.runs| - 1] == CS.Run(c.run, CS.LimitReached, 128)
            && (Paired(Contents(s.store.messages)) <==> Usable(s.store.messages))
  {
    ReachableInv(c, states, actions, n);
    hide Execution, RequestFits, RegistryFits, AP.Inv, GrantsFit, SinkFits;
    LimitStore(c, states[n]);
    hide StoreFits;
  }

  lemma LimitStore(c: Config, s: Loop)
    requires StoreFits(c, s) && s.graph.node == Returned(true)
    ensures s.store.runs != []
    ensures s.store.runs[|s.store.runs| - 1] == CS.Run(c.run, CS.LimitReached, s.graph.iteration)
    ensures Paired(Contents(s.store.messages)) <==> Usable(s.store.messages)
  {
    var messages := s.store.messages;
    UnitsIffPaired(messages);
    if Usable(messages) {
      CH.TailOfWhole(messages);
      CH.ClosedIfNotAI(messages);
    } else {
      var i :| 0 <= i < |messages| && messages[i].message.AI? && !ValidCalls(messages[i].message.calls);
      CH.BadCallsPoison(messages, i, []);
      assert messages + [] == messages;
    }
    hide CS.ChainOk, CH.SeamsOk, CH.OrderedByRun, Paired, Units;
  }

  // Each model request is made on a history whose view pairs every call with its results,
  // as long as the stored answers have usable call identifiers.
  lemma ModelSeesPairs(c: Config, states: seq<Loop>, actions: seq<Action>, n: nat)
    requires Execution(c, states, actions) && n < |states| && states[n].graph.node.CallModel?
    ensures Usable(states[n].store.messages) ==>
              Paired(CW.Project(states[n].store.messages, states[n].store.summaries))
  {
    ReachableInv(c, states, actions, n);
    hide Execution, RequestFits, RegistryFits, AP.Inv, GrantsFit, SinkFits, CountsFit;
    if Usable(states[n].store.messages) {
      ViewPairs(c, states[n]);
    }
    hide StoreFits;
  }

  lemma ViewPairs(c: Config, s: Loop)
    requires StoreFits(c, s) && s.graph.node.CallModel? && Usable(s.store.messages)
    ensures Paired(CW.Project(s.store.messages, s.store.summaries))
  {
    CH.TailOfWhole(s.store.messages);
    CH.ClosedIfNotAI(s.store.messages);
    CH.CoveredWithin(s.store);
    hide CS.ChainOk, CH.SeamsOk, CH.OrderedByRun, Paired, CW.Project, Units;
    CW.ProjectionPaired(s.store.messages, s.store.summaries);
  }

  lemma CallsInProtocol(c: Config, s: Loop)
    requires Inv(c, s)
    ensures s.sink != [] ==> TurnEvents.PhaseAfter(s.sink, c.session) != TurnEvents.Broken
  {
    hide StoreFits, RequestFits, RegistryFits, AP.Inv, GrantsFit, CountsFit, TurnEvents.PhaseAfter;
  }

  lemma EndSealsStream(c: Config, s: Loop, action: Action)
    requires Inv(c, s) && Can(c, s, action) && (action.Finish? || action.Fail?)
    ensures TurnEvents.PhaseAfter(Do(c, s, action).sink, c.session) == TurnEvents.Sealed
  {
    hide StoreFits, RequestFits, RegistryFits, AP.Inv, GrantsFit, CountsFit, SinkFits, Passes, AtNode, CH.Protocol,
         NextGraph, NextStore, NextRegistry, SinkCalls, NextDispatches, NextCounts, StoreOp, TurnEvents.PhaseAfter;
    EndSink(c, s, action);
  }

  // The run's event calls never leave the stream's protocol, and a run that was not torn
  // down from outside closes it.
  lemma CallsFollowProtocol(c: Config, states: seq<Loop>, actions: seq<Action>, n: nat)
    requires Execution(c, states, actions) && n < |states|
    ensures states[n].sink != [] ==> TurnEvents.PhaseAfter(states[n].sink, c.session) != TurnEvents.Broken
    ensures n > 0 && (actions[n - 1].Finish? || actions[n - 1].Fail?) ==>
              TurnEvents.PhaseAfter(states[n].sink, c.session) == TurnEvents.Sealed
  {
    hide Inv, Initial, Can, Do, TurnEvents.PhaseAfter;
    ReachableInv(c, states, actions, n);
    CallsInProtocol(c, states[n]);
    if n > 0 && (actions[n - 1].Finish? || actions[n - 1].Fail?) {
      ReachableInv(c, states, actions, n - 1);
      EndSealsStream(c, states[n - 1], actions[n - 1]);
    }
  }
}

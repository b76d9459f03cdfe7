/**
 The requests of one run in the shared registry: what the pending request is at each
 node, and why every command was allowed to be dispatched.
 */
module ReactRequests {
  import opened Wrappers
  import opened Messages
  import AP = Approvals
  import CommandPolicy
  import opened TurnEvents
  import opened ReactLoop

  // ---------------------------------------------------------------- the frozen request

  predicate Serving(node: Node) {
    node.AwaitApproval? || node.Interrupted? || node.AwaitDecision? || node.Resumed?
  }

  predicate Acting(node: Node) {
    node.ExecuteTool? || node.Dispatching?
  }

  predicate Plain(c: Config, g: Graph) {
    && g.calls != [] && g.calls[0].command.Some?
    && CommandPolicy.Classify(g.calls[0].command.value, c.dangerous, c.letters) == CommandPolicy.AutoReadOnly
  }

  predicate Frozen(c: Config, g: Graph, request: AP.Request) {
    && g.calls != [] && Matches(c, request, g.calls[0])
    && request.run == c.run && request.conversation == c.conversation && request.target == c.target
  }

  predicate RequestFits(c: Config, g: Graph, reserved: set<AP.Id>) {
    && (Serving(g.node) ==> g.pending.Some?)
    && (Serving(g.node) || Acting(g.node) ==> |g.calls| == 1)
    && (Serving(g.node) || Acting(g.node) ==>
          if g.pending.Some? then Frozen(c, g, g.pending.value) && g.pending.value.approval in reserved else Plain(c, g))
    && (g.node.Dispatching? ==> g.calls[0].command.Some? && (g.grant.Some? <==> g.pending.Some?))
    && (g.node.Executing? ==> |g.calls| == 1)
    && (g.node.RecordResult? ==> |g.results| == |g.calls|)
    && (!Serving(g.node) && !Acting(g.node) && !g.node.Executing? && !g.node.RecordResult? && !g.node.Finished? ==>
          g.pending.None?)
  }

  lemma PrepareFits(c: Config, g: Graph, approval: AP.Id, reserved: set<AP.Id>)
    requires g.node.PrepareTool? && g.calls != [] && g.pending.None?
    ensures RequestFits(c, PrepareResult(c, g, approval), reserved + {approval})
  {
  }

  lemma ExecuteFits(c: Config, g: Graph, grant: Option<nat>, reserved: set<AP.Id>)
    requires RequestFits(c, g, reserved) && g.node.ExecuteTool? && (grant.Some? <==> g.pending.Some?)
    ensures RequestFits(c, ExecuteResult(c, g.(grant := grant)), reserved)
  {
  }

  lemma StepKeepsRequest(c: Config, s: Loop, action: Action)
    requires RequestFits(c, s.graph, s.reserved) && AtNode(s.graph.node, action) && Passes(c, s, action)
    requires s.graph.node.PrepareTool? ==> s.graph.calls != []
    ensures RequestFits(c, NextGraph(c, s, action), if action.PrepareCall? then s.reserved + {action.approval} else s.reserved)
  {
    if action.PrepareCall? {
      PrepareFits(c, s.graph, action.approval, s.reserved);
    }
    if action.Execute? {
      ExecuteFits(c, s.graph, if s.graph.pending.Some? then Some(|s.registry.history|) else None, s.reserved);
    }
    hide PrepareResult, ExecuteResult, CommandPolicy.Classify;
  }

  // ---------------------------------------------------------------- the registry

  predicate Waiting(entry: AP.Entry, run: AP.Id) {
    entry.request.run == run && entry.resolution.None?
  }

  // The entry of the pending request: unconsumed, and approved once the graph acts on it.
  predicate Held(g: Graph, entries: AP.Entries) {
    g.pending.Some? && (g.node.AwaitDecision? || g.node.Resumed? || g.node.ExecuteTool?) ==>
      && g.pending.value.approval in entries
      && var entry := entries[g.pending.value.approval];
         && entry.request == g.pending.value && !entry.consumed
         && (g.node.ExecuteTool? || (g.node.Resumed? && g.node.approve) ==>
               entry.resolution.Some? && entry.resolution.value.status == AP.Approved)
  }

  // The command about to be dispatched has its consumption in the history.
  predicate Granted(g: Graph, registry: AP.Registry) {
    g.node.Dispatching? && g.grant.Some? ==>
      && g.grant.value < |registry.history|
      && g.pending.Some? && registry.history[g.grant.value] == AP.Consumed(g.pending.value)
  }

  predicate RegistryFits(c: Config, g: Graph, registry: AP.Registry) {
    && (g.pending.Some? && (g.node.AwaitApproval? || g.node.Interrupted?) ==>
          AP.Unused(registry, g.pending.value.approval))
    && (forall id :: id in registry.entries && Waiting(registry.entries[id], c.run) ==>
          g.node.AwaitDecision? && g.pending.Some? && id == g.pending.value.approval)
    && Held(g, registry.entries)
    && Granted(g, registry)
  }

  // What everybody else may do to an entry of this run: decide it or end it.
  predicate SameButDecided(entry: AP.Entry, after: AP.Entry) {
    && after.request == entry.request && after.consumed == entry.consumed
    && (entry.resolution.Some? ==> after.resolution == entry.resolution)
  }

  predicate OwnEntriesStay(run: AP.Id, before: AP.Entries, after: AP.Entries) {
    && (forall id :: id in before && before[id].request.run == run ==>
          id in after && SameButDecided(before[id], after[id]))
    && (forall id :: id in after && after[id].request.run == run ==>
          id in before && before[id].request.run == run)
  }

  // An operation adds at most one event, and only a registration uses up an identifier.
  lemma HistoryGrows(registry: AP.Registry, op: AP.Op)
    ensures registry.history <= AP.Apply(registry, op).history
    ensures forall id :: AP.Unused(registry, id) && !(op.Registering? && op.request.approval == id) ==>
              AP.Unused(AP.Apply(registry, op), id)
  {
    var after := AP.Apply(registry, op);
    assert forall i :: |registry.history| <= i < |after.history| && after.history[i].Registered? ==>
        op.Registering? && after.history[i].request == op.request;
    hide AP.Apply;
    assert forall i :: 0 <= i < |registry.history| ==> after.history[i] == registry.history[i];
  }

  lemma EntriesStay(c: Config, s: Loop, op: AP.Op)
    requires forall id :: id in s.registry.entries ==> s.registry.entries[id].request.approval == id
    requires Foreign(c, s, op)
    ensures OwnEntriesStay(c.run, s.registry.entries, AP.Apply(s.registry, op).entries)
  {
    hide AP.Unused;
    match op
    case Registering(_) =>
    case Deciding(_, _) =>
    case Consuming(_) =>
    case Invalidating(_, _) =>
    case Releasing(_) =>
  }

  lemma ForeignEffect(c: Config, s: Loop, op: AP.Op)
    requires AP.Inv(s.registry) && Foreign(c, s, op)
    ensures AP.Inv(AP.Apply(s.registry, op))
    ensures s.registry.history <= AP.Apply(s.registry, op).history
    ensures OwnEntriesStay(c.run, s.registry.entries, AP.Apply(s.registry, op).entries)
    ensures forall id :: id in s.reserved && AP.Unused(s.registry, id) ==> AP.Unused(AP.Apply(s.registry, op), id)
  {
    EntriesOwn(s.registry);
    hide AP.Inv, AP.Apply, AP.Unused, OwnEntriesStay;
    AP.ApplyKeepsInv(s.registry, op);
    EntriesStay(c, s, op);
    HistoryGrows(s.registry, op);
  }

  lemma EntriesOwn(registry: AP.Registry)
    requires AP.Inv(registry)
    ensures forall id :: id in registry.entries ==> registry.entries[id].request.approval == id
  {
    forall id | id in registry.entries ensures registry.entries[id].request.approval == id {
      assert AP.EntryOk(registry, id);
    }
  }

  lemma UndisturbedFits(c: Config, g: Graph, before: AP.Registry, after: AP.Registry, reserved: set<AP.Id>)
    requires RegistryFits(c, g, before) && RequestFits(c, g, reserved)
    requires before.history <= after.history && OwnEntriesStay(c.run, before.entries, after.entries)
    requires forall id :: id in reserved && AP.Unused(before, id) ==> AP.Unused(after, id)
    ensures RegistryFits(c, g, after)
  {
    hide AP.Unused, Plain, Matches;
  }

  lemma OthersKeepRegistry(c: Config, s: Loop, op: AP.Op)
    requires AP.Inv(s.registry) && RegistryFits(c, s.graph, s.registry) && Foreign(c, s, op)
    requires RequestFits(c, s.graph, s.reserved)
    ensures AP.Inv(AP.Apply(s.registry, op)) && RegistryFits(c, s.graph, AP.Apply(s.registry, op))
  {
    ForeignEffect(c, s, op);
    hide AP.Inv, AP.Apply, AP.Unused, Foreign, RequestFits, RegistryFits, OwnEntriesStay;
    UndisturbedFits(c, s.graph, s.registry, AP.Apply(s.registry, op), s.reserved);
  }

  lemma RegisterKeepsRegistry(c: Config, s: Loop)
    requires AP.Inv(s.registry) && RegistryFits(c, s.graph, s.registry) && RequestFits(c, s.graph, s.reserved)
    requires s.graph.node.Interrupted? && AP.Register(s.registry.entries, s.graph.pending.value).Ok?
    ensures var after := AP.Apply(s.registry, AP.Registering(s.graph.pending.value));
            AP.Inv(after) && RegistryFits(c, s.graph.(node := AwaitDecision), after)
  {
    AP.ApplyKeepsInv(s.registry, AP.Registering(s.graph.pending.value));
    hide AP.Inv, AP.Unused, Plain;
  }

  lemma ConsumeEffect(registry: AP.Registry, request: AP.Request)
    requires AP.Consume(registry.entries, request).Ok?
    ensures request.approval in registry.entries
    ensures AP.Apply(registry, AP.Consuming(request)) ==
            AP.Registry(registry.entries[request.approval := registry.entries[request.approval].(consumed := true)],
                        registry.history + [AP.Consumed(request)])
  {
  }

  lemma ConsumedFits(c: Config, g: Graph, after: Graph, registry: AP.Registry, request: AP.Request)
    requires RegistryFits(c, g, registry) && g.node.ExecuteTool? && request.approval in registry.entries
    requires after.pending == Some(request) && after.grant == Some(|registry.history|)
    requires after.node.RecordResult? || after.node.Dispatching?
    ensures RegistryFits(c, after, AP.Registry(
              registry.entries[request.approval := registry.entries[request.approval].(consumed := true)],
              registry.history + [AP.Consumed(request)]))
  {
    hide AP.Unused;
  }

  lemma ExecuteMoves(c: Config, g: Graph)
    requires g.calls != []
    ensures var after := ExecuteResult(c, g);
            after.pending == g.pending && after.grant == g.grant && (after.node.RecordResult? || after.node.Dispatching?)
  {
  }

  lemma ConsumeKeepsRegistry(c: Config, s: Loop)
    requires AP.Inv(s.registry) && RegistryFits(c, s.graph, s.registry) && RequestFits(c, s.graph, s.reserved)
    requires s.graph.node.ExecuteTool?
    requires s.graph.pending.Some? && AP.Consume(s.registry.entries, s.graph.pending.value).Ok?
    ensures var after := AP.Apply(s.registry, AP.Consuming(s.graph.pending.value));
            AP.Inv(after)
            && RegistryFits(c, ExecuteResult(c, s.graph.(grant := Some(|s.registry.history|))), after)
  {
    AP.ApplyKeepsInv(s.registry, AP.Consuming(s.graph.pending.value));
    ConsumeEffect(s.registry, s.graph.pending.value);
    var g := s.graph.(grant := Some(|s.registry.history|));
    ExecuteMoves(c, g);
    hide AP.Inv, AP.Apply, AP.Consume, RegistryFits, ExecuteResult;
    ConsumedFits(c, s.graph, ExecuteResult(c, g), s.registry, s.graph.pending.value);
  }

  lemma ReleaseKeepsRegistry(c: Config, s: Loop)
    requires AP.Inv(s.registry)
    ensures var after := AP.Apply(s.registry, AP.Releasing(c.run));
            AP.Inv(after) && RegistryFits(c, s.graph.(node := Finished), after)
  {
    AP.ApplyKeepsInv(s.registry, AP.Releasing(c.run));
    hide AP.Inv, AP.Unused;
  }

  // Moving on without touching the registry.
  lemma MoveKeepsRegistry(c: Config, s: Loop, action: Action)
    requires RegistryFits(c, s.graph, s.registry) && RequestFits(c, s.graph, s.reserved)
    requires AtNode(s.graph.node, action) && Passes(c, s, action) && RegistryOp(c, s, action).None?
    ensures RegistryFits(c, NextGraph(c, s, action), s.registry)
  {
    hide AP.Unused, CommandPolicy.Classify, Matches;
  }

  lemma StepKeepsRegistry(c: Config, s: Loop, action: Action)
    requires AP.Inv(s.registry) && RegistryFits(c, s.graph, s.registry) && RequestFits(c, s.graph, s.reserved)
    requires AtNode(s.graph.node, action) && Passes(c, s, action)
    ensures AP.Inv(NextRegistry(c, s, action)) && RegistryFits(c, NextGraph(c, s, action), NextRegistry(c, s, action))
  {
    hide AP.Inv, AP.Apply, RegistryFits, ExecuteResult, PrepareResult;
    match action
    case Register => RegisterKeepsRegistry(c, s);
    case Execute => if s.graph.pending.Some? { ConsumeKeepsRegistry(c, s); } else { MoveKeepsRegistry(c, s, action); }
    case Finish => ReleaseKeepsRegistry(c, s);
    case Fail(_, _, _) => ReleaseKeepsRegistry(c, s);
    case Abandon => ReleaseKeepsRegistry(c, s);
    case Others(op) => OthersKeepRegistry(c, s, op);
    case _ => MoveKeepsRegistry(c, s, action);
  }

  // ---------------------------------------------------------------- why a dispatch was allowed

  // Plainly read-only, or consumed from the registry as the very same operation.
  predicate Allowed(c: Config, registry: AP.Registry, dispatch: Dispatch) {
    && dispatch.session == c.session
    && match dispatch.grant
       case None => CommandPolicy.Classify(dispatch.command, c.dangerous, c.letters) == CommandPolicy.AutoReadOnly
       case Some(at) =>
         && at < |registry.history| && registry.history[at].Consumed?
         && var request := registry.history[at].request;
            request.run == c.run && request.conversation == c.conversation && request.session == dispatch.session
            && request.target == c.target && request.callId == dispatch.callId && request.command == dispatch.command
  }

  // Each consumption pays for one dispatch only, in order.
  predicate GrantsFit(c: Config, g: Graph, registry: AP.Registry, dispatches: seq<Dispatch>) {
    && (forall i :: 0 <= i < |dispatches| ==> Allowed(c, registry, dispatches[i]))
    && (forall i, j :: 0 <= i < j < |dispatches| && dispatches[i].grant.Some? && dispatches[j].grant.Some? ==>
          dispatches[i].grant.value < dispatches[j].grant.value)
    && (g.node.Dispatching? && g.grant.Some? ==>
          forall i :: 0 <= i < |dispatches| && dispatches[i].grant.Some? ==> dispatches[i].grant.value < g.grant.value)
  }

  lemma AllowedStays(c: Config, registry: AP.Registry, after: AP.Registry, dispatch: Dispatch)
    requires Allowed(c, registry, dispatch) && registry.history <= after.history
    ensures Allowed(c, after, dispatch)
  {
  }

  lemma PassOnKeepsGrants(c: Config, s: Loop)
    requires GrantsFit(c, s.graph, s.registry, s.dispatches) && RequestFits(c, s.graph, s.reserved)
    requires RegistryFits(c, s.graph, s.registry) && s.graph.node.Dispatching?
    ensures GrantsFit(c, NextGraph(c, s, PassOn), s.registry, NextDispatches(c, s, PassOn))
  {
    hide CommandPolicy.Classify, AP.Unused, Held;
  }

  lemma RegistryOpGrows(c: Config, s: Loop, action: Action)
    ensures s.registry.history <= NextRegistry(c, s, action).history
  {
    if RegistryOp(c, s, action).Some? {
      HistoryGrows(s.registry, RegistryOp(c, s, action).value);
    }
    hide AP.Apply;
  }

  lemma GraphGrants(c: Config, s: Loop, action: Action)
    requires AtNode(s.graph.node, action) && !action.PassOn?
    ensures var after := NextGraph(c, s, action);
            after.node.Dispatching? && after.grant.Some? ==>
              || (action.Execute? && after.grant.value == |s.registry.history|)
              || (action.Others? && after == s.graph)
  {
    hide CommandPolicy.Classify;
  }

  lemma StepKeepsGrants(c: Config, s: Loop, action: Action)
    requires GrantsFit(c, s.graph, s.registry, s.dispatches) && RequestFits(c, s.graph, s.reserved)
    requires RegistryFits(c, s.graph, s.registry) && AtNode(s.graph.node, action)
    ensures GrantsFit(c, NextGraph(c, s, action), NextRegistry(c, s, action), NextDispatches(c, s, action))
  {
    RegistryOpGrows(c, s, action);
    var after := NextRegistry(c, s, action);
    if action.PassOn? {
      PassOnKeepsGrants(c, s);
    } else {
      GraphGrants(c, s, action);
      hide NextGraph, NextRegistry, RegistryFits, RequestFits;
      forall i | 0 <= i < |s.dispatches| ensures Allowed(c, after, s.dispatches[i]) {
        AllowedStays(c, s.registry, after, s.dispatches[i]);
      }
    }
  }
}

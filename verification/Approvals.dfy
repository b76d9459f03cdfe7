/**
 The registry of human decisions: each request can be decided once, consumed once,
 and not at all after its run is invalidated.
 */
module Approvals {
  import opened Wrappers

  type Id = nat

  datatype Target = Target(name: string, host: string, port: nat, user: string)

  datatype Request = Request(
    approval: Id, conversation: Id, run: Id, session: Id, callId: string, command: string, target: Target)

  datatype Decision = Decision(conversation: Id, run: Id, session: Id, callId: string, approve: bool)

  datatype Verdict = Approved | Rejected | Invalidated

  datatype Reason = UserApproved | UserRejected | SessionUnavailable | RunCancelled

  datatype Resolution = Resolution(approval: Id, status: Verdict, reason: Reason)

  datatype Entry = Entry(request: Request, resolution: Option<Resolution>, consumed: bool, active: bool)

  datatype ApprovalError = Conflict | NotFound | Inactive

  type Entries = map<Id, Entry>

  predicate Granting(resolution: Resolution) {
    resolution.status == Approved
  }

  // ---------------------------------------------------------------- the operations

  predicate PendingFor(entries: Entries, run: Id) {
    exists id :: id in entries && entries[id].request.run == run && entries[id].resolution.None?
  }

  function Register(entries: Entries, request: Request): Result<Entries, ApprovalError> {
    if request.approval in entries || PendingFor(entries, request.run) then Err(Conflict)
    else Ok(entries[request.approval := Entry(request, None, false, true)])
  }

  predicate SameIdentity(request: Request, decision: Decision) {
    && request.conversation == decision.conversation && request.run == decision.run
    && request.session == decision.session && request.callId == decision.callId
  }

  function Decide(entries: Entries, id: Id, decision: Decision): Result<(Entries, Resolution), ApprovalError> {
    if id !in entries then Err(NotFound)
    else
      var entry := entries[id];
      var status := if decision.approve then Approved else Rejected;
      if !SameIdentity(entry.request, decision) then Err(Conflict)
      else if !entry.active then Err(Inactive)
      else if entry.resolution.Some? then
        if entry.resolution.value.status != status then Err(Conflict) else Ok((entries, entry.resolution.value))
      else
        var resolution := Resolution(id, status, if decision.approve then UserApproved else UserRejected);
        Ok((entries[id := entry.(resolution := Some(resolution))], resolution))
  }

  predicate Consumable(entry: Entry) {
    entry.active && entry.resolution.Some? && entry.resolution.value.status == Approved && !entry.consumed
  }

  function Consume(entries: Entries, request: Request): Result<Entries, ApprovalError> {
    if request.approval !in entries then Err(NotFound)
    else
      var entry := entries[request.approval];
      if entry.request != request then Err(Conflict)
      else if !entry.active || entry.resolution.None? || entry.resolution.value.status != Approved then Err(Inactive)
      else if entry.consumed then Err(Conflict)
      else Ok(entries[request.approval := entry.(consumed := true)])
  }

  function Deactivate(entry: Entry, reason: Reason): Entry {
    entry.(active := false,
           resolution := if entry.resolution.Some? then entry.resolution
                         else Some(Resolution(entry.request.approval, Invalidated, reason)))
  }

  function InvalidateEntry(entry: Entry, run: Id, reason: Reason): Entry {
    if entry.request.run == run then Deactivate(entry, reason) else entry
  }

  function Invalidate(entries: Entries, run: Id, reason: Reason): Entries {
    map id | id in entries :: InvalidateEntry(entries[id], run, reason)
  }

  function Release(entries: Entries, run: Id): Entries {
    map id | id in entries && entries[id].request.run != run :: entries[id]
  }

  class ApprovalRegistry {
    var entries: Entries

    constructor ()
      ensures entries == map[]
    {
      entries := map[];
    }

    method RegisterRequest(request: Request) returns (outcome: Result<(), ApprovalError>)
      modifies this
      ensures match Register(old(entries), request)
              case Ok(after) => outcome == Ok(()) && entries == after
              case Err(error) => outcome == Err(error) && entries == old(entries)
    {
      if request.approval in entries {
        return Err(Conflict);
      }
      var unseen := entries.Keys;
      while unseen != {}
        invariant unseen <= entries.Keys
        invariant forall id :: id in entries && id !in unseen ==>
                    !(entries[id].request.run == request.run && entries[id].resolution.None?)
        decreases |unseen|
      {
        var id :| id in unseen;
        if entries[id].request.run == request.run && entries[id].resolution.None? {
          return Err(Conflict);
        }
        unseen := unseen - {id};
      }
      entries := entries[request.approval := Entry(request, None, false, true)];
      outcome := Ok(());
    }

    method DecideRequest(id: Id, decision: Decision) returns (outcome: Result<Resolution, ApprovalError>)
      modifies this
      ensures match Decide(old(entries), id, decision)
              case Ok((after, resolution)) => outcome == Ok(resolution) && entries == after
              case Err(error) => outcome == Err(error) && entries == old(entries)
    {
      if id !in entries {
        return Err(NotFound);
      }
      var entry := entries[id];
      if !SameIdentity(entry.request, decision) {
        return Err(Conflict);
      }
      if !entry.active {
        return Err(Inactive);
      }
      var status := if decision.approve then Approved else Rejected;
      if entry.resolution.Some? {
        return if entry.resolution.value.status != status then Err(Conflict) else Ok(entry.resolution.value);
      }
      var resolution := Resolution(id, status, if decision.approve then UserApproved else UserRejected);
      entries := entries[id := entry.(resolution := Some(resolution))];
      outcome := Ok(resolution);
    }

    method ConsumeRequest(request: Request) returns (outcome: Result<(), ApprovalError>)
      modifies this
      ensures match Consume(old(entries), request)
              case Ok(after) => outcome == Ok(()) && entries == after
              case Err(error) => outcome == Err(error) && entries == old(entries)
    {
      if request.approval !in entries {
        return Err(NotFound);
      }
      var entry := entries[request.approval];
      if entry.request != request {
        return Err(Conflict);
      }
      if !entry.active || entry.resolution.None? || entry.resolution.value.status != Approved {
        return Err(Inactive);
      }
      if entry.consumed {
        return Err(Conflict);
      }
      entries := entries[request.approval := entry.(consumed := true)];
      outcome := Ok(());
    }

    method InvalidateRun(run: Id, reason: Reason)
      modifies this
      ensures entries == Invalidate(old(entries), run, reason)
    {
      var unseen := entries.Keys;
      ghost var before := entries;
      while unseen != {}
        invariant unseen <= entries.Keys == before.Keys
        invariant forall id :: id in before ==>
                    entries[id] == if id in unseen then before[id] else InvalidateEntry(before[id], run, reason)
        decreases |unseen|
      {
        var id :| id in unseen;
        var entry := entries[id];
        if entry.request.run == run {
          entry := entry.(active := false);
          if entry.resolution.None? {
            entry := entry.(resolution := Some(Resolution(entry.request.approval, Invalidated, reason)));
          }
        }
        assert entry == InvalidateEntry(before[id], run, reason);
        entries := entries[id := entry];
        unseen := unseen - {id};
      }
    }

    method ReleaseRun(run: Id)
      modifies this
      ensures entries == Release(old(entries), run)
    {
      InvalidateRun(run, RunCancelled);
      entries := map id | id in entries && entries[id].request.run != run :: entries[id];
    }
  }

  // ---------------------------------------------------------------- what the operations mean

  // A request is new and no other of its run is open; it starts undecided and unused.
  lemma RegisterMeans(entries: Entries, request: Request)
    ensures Register(entries, request).Ok? <==>
            && request.approval !in entries
            && forall id :: id in entries && entries[id].request.run == request.run ==> entries[id].resolution.Some?
    ensures Register(entries, request).Err? ==> Register(entries, request).error == Conflict
    ensures Register(entries, request).Ok? ==>
              var after := Register(entries, request).value;
              && after.Keys == entries.Keys + {request.approval}
              && (forall id :: id in entries ==> after[id] == entries[id])
              && after[request.approval].request == request && after[request.approval].resolution == None
              && !after[request.approval].consumed && after[request.approval].active
  {
  }

  predicate Names(request: Request, decision: Decision) {
    && request.callId == decision.callId && request.session == decision.session
    && request.run == decision.run && request.conversation == decision.conversation
  }

  // A decision counts for exactly the named operation while it is active, once; what is
  // stored and answered is what the user said.
  lemma DecideMeans(entries: Entries, id: Id, decision: Decision)
    ensures var said := if decision.approve then Approved else Rejected;
            var outcome := Decide(entries, id, decision);
            && (outcome.Ok? <==>
                  && id in entries && Names(entries[id].request, decision) && entries[id].active
                  && (entries[id].resolution.Some? ==> entries[id].resolution.value.status == said))
            && (outcome == Err(NotFound) <==> id !in entries)
            && (outcome == Err(Inactive) <==> id in entries && Names(entries[id].request, decision) && !entries[id].active)
            && (outcome.Ok? ==>
                  var (after, resolution) := outcome.value;
                  && resolution.status == said && after.Keys == entries.Keys
                  && after[id].resolution == Some(resolution) && after[id].request == entries[id].request
                  && after[id].consumed == entries[id].consumed && after[id].active
                  && (forall other :: other in entries && other != id ==> after[other] == entries[other])
                  && (entries[id].resolution.Some? ==> resolution == entries[id].resolution.value)
                  && (entries[id].resolution.None? ==>
                        resolution.approval == id
                        && resolution.reason == if decision.approve then UserApproved else UserRejected))
  {
  }

  // Exactly the approved, active and unused request itself can be consumed, and then is used.
  lemma ConsumeMeans(entries: Entries, request: Request)
    ensures var outcome := Consume(entries, request);
            && (outcome.Ok? <==>
                  && request.approval in entries && entries[request.approval].request == request
                  && entries[request.approval].active && !entries[request.approval].consumed
                  && entries[request.approval].resolution.Some?
                  && entries[request.approval].resolution.value.status == Approved)
            && (outcome.Ok? ==>
                  && outcome.value.Keys == entries.Keys && outcome.value[request.approval].consumed
                  && outcome.value[request.approval].resolution == entries[request.approval].resolution
                  && forall id :: id in entries && id != request.approval ==> outcome.value[id] == entries[id])
  {
  }

  // Ending a run makes its requests unusable and answers the open ones; releasing forgets
  // them; other runs are not touched.
  lemma EndMeans(entries: Entries, run: Id, reason: Reason)
    ensures var after := Invalidate(entries, run, reason);
            && after.Keys == entries.Keys
            && forall id :: id in entries ==>
                 if entries[id].request.run != run then after[id] == entries[id]
                 else
                   && !after[id].active && after[id].request == entries[id].request
                   && after[id].consumed == entries[id].consumed && after[id].resolution.Some?
                   && (if entries[id].resolution.Some? then after[id].resolution == entries[id].resolution
                       else after[id].resolution.value.status == Invalidated && after[id].resolution.value.reason == reason)
    ensures var after := Release(entries, run);
            && (forall id :: id in after <==> id in entries && entries[id].request.run != run)
            && forall id :: id in after ==> after[id] == entries[id]
  {
  }

  // ---------------------------------------------------------------- histories

  datatype Op =
    | Registering(request: Request)
    | Deciding(id: Id, decision: Decision)
    | Consuming(request: Request)
    | Invalidating(run: Id, reason: Reason)
    | Releasing(run: Id)

  // What happened, in order; a refused operation leaves no event.
  datatype Event =
    | Registered(request: Request)
    | Decided(id: Id, approve: bool)
    | Consumed(request: Request)
    | Ended(run: Id)

  datatype Registry = Registry(entries: Entries, history: seq<Event>)

  const NEW_REGISTRY := Registry(map[], [])

  function Apply(registry: Registry, op: Op): Registry {
    var Registry(entries, history) := registry;
    match op
    case Registering(request) => (
      match Register(entries, request)
      case Ok(after) => Registry(after, history + [Registered(request)])
      case Err(_) => registry)
    case Deciding(id, decision) => (
      match Decide(entries, id, decision)
      case Ok((after, _)) =>
        Registry(after, if after == entries then history else history + [Decided(id, decision.approve)])
      case Err(_) => registry)
    case Consuming(request) => (
      match Consume(entries, request)
      case Ok(after) => Registry(after, history + [Consumed(request)])
      case Err(_) => registry)
    case Invalidating(run, reason) => Registry(Invalidate(entries, run, reason), history + [Ended(run)])
    case Releasing(run) => Registry(Release(entries, run), history + [Ended(run)])
  }

  // Approval identifiers are random and never used again.
  predicate Unused(registry: Registry, id: Id) {
    forall i :: 0 <= i < |registry.history| && registry.history[i].Registered? ==>
      registry.history[i].request.approval != id
  }

  predicate Admissible(registry: Registry, op: Op) {
    op.Registering? ==> Unused(registry, op.request.approval)
  }

  predicate RegisteredAt(registry: Registry, i: int, request: Request) {
    0 <= i < |registry.history| && registry.history[i] == Registered(request)
  }

  predicate DecidedAt(registry: Registry, i: int, id: Id, approve: bool) {
    0 <= i < |registry.history| && registry.history[i] == Decided(id, approve)
  }

  // The run was invalidated or released between two moments of the history.
  predicate EndedBetween(registry: Registry, run: Id, from: int, until: int) {
    exists j :: 0 <= from < j < until <= |registry.history| && registry.history[j] == Ended(run)
  }

  predicate WasConsumed(registry: Registry, id: Id) {
    exists i :: 0 <= i < |registry.history| && registry.history[i].Consumed? && registry.history[i].request.approval == id
  }

  // What an entry in the table says about the past.
  ghost predicate EntryOk(registry: Registry, id: Id)
    requires id in registry.entries
  {
    var entry := registry.entries[id];
    && entry.request.approval == id
    && (exists a :: RegisteredAt(registry, a, entry.request) && (entry.active ==> !EndedBetween(registry, entry.request.run, a, |registry.history|)))
    && (entry.resolution.Some? && entry.resolution.value.status != Invalidated ==>
          exists b :: DecidedAt(registry, b, id, Granting(entry.resolution.value)))
    && (entry.resolution.None? ==> entry.active && forall b, v :: !DecidedAt(registry, b, id, v))
    && (entry.consumed <==> WasConsumed(registry, id))
  }

  // Every consumption was of a registered, approved request whose run had not ended.
  ghost predicate Justified(registry: Registry, i: int)
    requires 0 <= i < |registry.history| && registry.history[i].Consumed?
  {
    var request := registry.history[i].request;
    && (exists a :: 0 <= a < i && registry.history[a] == Registered(request)
          && !EndedBetween(registry, request.run, a, i))
    && (exists b :: 0 <= b < i && registry.history[b] == Decided(request.approval, true))
  }

  predicate OnePending(entries: Entries) {
    forall id, other :: id in entries && other in entries && id != other ==>
      !(entries[id].resolution.None? && entries[other].resolution.None?
        && entries[id].request.run == entries[other].request.run)
  }

  // One registration, one decision and one consumption per identifier, and nothing is
  // decided before it is registered.
  predicate SameKind(a: Event, b: Event) {
    || (a.Registered? && b.Registered? && a.request.approval == b.request.approval)
    || (a.Decided? && b.Decided? && a.id == b.id)
    || (a.Consumed? && b.Consumed? && a.request.approval == b.request.approval)
  }

  ghost predicate HistoryOk(registry: Registry) {
    && (forall i, j :: 0 <= i < j < |registry.history| ==> !SameKind(registry.history[i], registry.history[j]))
    && (forall i :: 0 <= i < |registry.history| && registry.history[i].Decided? ==> !Unused(registry, registry.history[i].id))
    && (forall i :: 0 <= i < |registry.history| && registry.history[i].Consumed? ==> Justified(registry, i))
  }

  ghost predicate EntriesOk(registry: Registry) {
    forall id :: id in registry.entries ==> EntryOk(registry, id)
  }

  ghost predicate Inv(registry: Registry) {
    EntriesOk(registry) && HistoryOk(registry) && OnePending(registry.entries)
  }

  // ---------------------------------------------------------------- every operation keeps it

  predicate Extends(registry: Registry, after: Registry, event: Event) {
    after.history == registry.history + [event]
  }

  // An untouched entry stays explained when something else happens.
  lemma EntryStays(registry: Registry, after: Registry, id: Id, event: Event)
    requires id in registry.entries && EntryOk(registry, id)
    requires id in after.entries && after.entries[id] == registry.entries[id]
    requires Extends(registry, after, event)
    requires event == Ended(registry.entries[id].request.run) ==> !registry.entries[id].active
    requires event.Decided? ==> event.id != id
    requires event.Consumed? ==> event.request.approval != id
    ensures EntryOk(after, id)
  {
    var entry := registry.entries[id];
    var a :| RegisteredAt(registry, a, entry.request)
               && (entry.active ==> !EndedBetween(registry, entry.request.run, a, |registry.history|));
    assert RegisteredAt(after, a, entry.request);
    if entry.resolution.Some? && entry.resolution.value.status != Invalidated {
      var b :| DecidedAt(registry, b, id, Granting(entry.resolution.value));
      assert DecidedAt(after, b, id, Granting(entry.resolution.value));
    }
    if entry.resolution.None? {
      forall b, v ensures !DecidedAt(after, b, id, v) {
        assert !DecidedAt(registry, b, id, v);
      }
    }
    ConsumedGrows(registry, after, id, event);
  }

  lemma ConsumedGrows(registry: Registry, after: Registry, id: Id, event: Event)
    requires Extends(registry, after, event)
    ensures WasConsumed(after, id) <==>
            WasConsumed(registry, id) || (event.Consumed? && event.request.approval == id)
  {
    if WasConsumed(registry, id) {
      var i :| 0 <= i < |registry.history| && registry.history[i].Consumed? && registry.history[i].request.approval == id;
      assert after.history[i].Consumed?;
    }
    if event.Consumed? && event.request.approval == id {
      assert after.history[|registry.history|] == event;
    }
  }

  lemma JustifiedStays(registry: Registry, after: Registry, i: int, event: Event)
    requires 0 <= i < |registry.history| && registry.history[i].Consumed? && Justified(registry, i)
    requires Extends(registry, after, event)
    ensures after.history[i].Consumed? && Justified(after, i)
  {
    var request := registry.history[i].request;
    var a :| 0 <= a < i && registry.history[a] == Registered(request) && !EndedBetween(registry, request.run, a, i);
    assert after.history[a] == Registered(request);
    assert !EndedBetween(after, request.run, a, i);
    var b :| 0 <= b < i && registry.history[b] == Decided(request.approval, true);
    assert after.history[b] == Decided(request.approval, true);
  }

  lemma HistoryGrows(registry: Registry, after: Registry, event: Event)
    requires HistoryOk(registry) && Extends(registry, after, event)
    requires forall i :: 0 <= i < |registry.history| ==> !SameKind(registry.history[i], event)
    requires event.Decided? ==> !Unused(registry, event.id)
    requires event.Consumed? ==> Justified(after, |registry.history|)
    ensures HistoryOk(after)
  {
    UnusedGrows(registry, after, event);
    forall i | 0 <= i < |after.history| && after.history[i].Consumed? ensures Justified(after, i) {
      if i < |registry.history| {
        assert registry.history[i] == after.history[i];
        JustifiedStays(registry, after, i, event);
      }
    }
    forall i | 0 <= i < |after.history| && after.history[i].Decided? ensures !Unused(after, after.history[i].id) {
      if i < |registry.history| {
        assert registry.history[i] == after.history[i];
      }
    }
  }

  lemma UnusedGrows(registry: Registry, after: Registry, event: Event)
    requires Extends(registry, after, event)
    ensures forall id :: Unused(after, id) <==>
              Unused(registry, id) && !(event.Registered? && event.request.approval == id)
  {
    forall id
      ensures Unused(after, id) <==> Unused(registry, id) && !(event.Registered? && event.request.approval == id)
    {
      assert forall i :: 0 <= i < |registry.history| ==> after.history[i] == registry.history[i];
      assert after.history[|registry.history|] == event;
    }
  }

  lemma UnusedNotConsumed(registry: Registry, id: Id)
    requires HistoryOk(registry) && Unused(registry, id)
    ensures !WasConsumed(registry, id)
  {
    forall i | 0 <= i < |registry.history| && registry.history[i].Consumed?
      ensures registry.history[i].request.approval != id
    {
      assert Justified(registry, i);
      var a :| 0 <= a < i && registry.history[a] == Registered(registry.history[i].request);
    }
  }

  lemma NewEntryOk(registry: Registry, after: Registry, request: Request)
    requires HistoryOk(registry) && Unused(registry, request.approval)
    requires Extends(registry, after, Registered(request))
    requires request.approval in after.entries
    requires after.entries[request.approval] == Entry(request, None, false, true)
    ensures EntryOk(after, request.approval)
  {
    var n := |registry.history|;
    var id := request.approval;
    assert RegisteredAt(after, n, request) && !EndedBetween(after, request.run, n, n + 1);
    forall b, v ensures !DecidedAt(after, b, id, v) {
      assert 0 <= b < n ==> after.history[b] == registry.history[b];
      assert 0 <= b < n && registry.history[b].Decided? ==> registry.history[b].id != id;
    }
    UnusedNotConsumed(registry, id);
    ConsumedGrows(registry, after, id, Registered(request));
  }

  lemma RegisterKeepsInv(registry: Registry, request: Request)
    requires Inv(registry) && Unused(registry, request.approval)
    ensures Inv(Apply(registry, Registering(request)))
  {
    var after := Apply(registry, Registering(request));
    if after != registry {
      HistoryGrows(registry, after, Registered(request));
      NewEntryOk(registry, after, request);
      forall id | id in registry.entries ensures EntryOk(after, id) {
        assert EntryOk(registry, id);
        EntryStays(registry, after, id, Registered(request));
      }
    }
  }

  lemma DecidedEntryOk(registry: Registry, after: Registry, id: Id, approve: bool, reason: Reason)
    requires id in registry.entries && EntryOk(registry, id)
    requires registry.entries[id].active && registry.entries[id].resolution.None?
    requires Extends(registry, after, Decided(id, approve))
    requires id in after.entries && after.entries[id] ==
               registry.entries[id].(resolution := Some(Resolution(id, if approve then Approved else Rejected, reason)))
    ensures EntryOk(after, id)
  {
    var entry := registry.entries[id];
    var a :| RegisteredAt(registry, a, entry.request)
               && !EndedBetween(registry, entry.request.run, a, |registry.history|);
    assert RegisteredAt(after, a, entry.request);
    assert !EndedBetween(after, entry.request.run, a, |after.history|);
    assert DecidedAt(after, |registry.history|, id, Granting(after.entries[id].resolution.value));
    ConsumedGrows(registry, after, id, Decided(id, approve));
  }

  lemma DecideKeepsInv(registry: Registry, id: Id, decision: Decision)
    requires Inv(registry)
    ensures Inv(Apply(registry, Deciding(id, decision)))
  {
    var after := Apply(registry, Deciding(id, decision));
    if after != registry {
      var event := Decided(id, decision.approve);
      assert EntryOk(registry, id);
      var a :| RegisteredAt(registry, a, registry.entries[id].request);
      forall i | 0 <= i < |registry.history| ensures !SameKind(registry.history[i], event) {
        if registry.history[i].Decided? { assert !DecidedAt(registry, i, id, registry.history[i].approve); }
      }
      HistoryGrows(registry, after, event);
      DecidedEntryOk(registry, after, id, decision.approve, if decision.approve then UserApproved else UserRejected);
      forall other | other in registry.entries && other != id ensures EntryOk(after, other) {
        assert EntryOk(registry, other);
        EntryStays(registry, after, other, event);
      }
    }
  }

  lemma ConsumedEntryOk(registry: Registry, after: Registry, request: Request)
    requires request.approval in registry.entries && EntryOk(registry, request.approval)
    requires var entry := registry.entries[request.approval];
             && entry.request == request && Consumable(entry)
             && request.approval in after.entries && after.entries[request.approval] == entry.(consumed := true)
    requires Extends(registry, after, Consumed(request))
    ensures EntryOk(after, request.approval) && Justified(after, |registry.history|)
  {
    var n := |registry.history|;
    var a :| RegisteredAt(registry, a, request) && !EndedBetween(registry, request.run, a, n);
    var resolution := registry.entries[request.approval].resolution.value;
    var b :| DecidedAt(registry, b, request.approval, Granting(resolution));
    assert RegisteredAt(after, a, request) && !EndedBetween(after, request.run, a, n + 1);
    assert DecidedAt(after, b, request.approval, Granting(resolution));
    assert after.history[a] == Registered(request) && !EndedBetween(after, request.run, a, n);
    assert after.history[b] == Decided(request.approval, true);
    ConsumedGrows(registry, after, request.approval, Consumed(request));
  }

  lemma ConsumeKeepsInv(registry: Registry, request: Request)
    requires Inv(registry)
    ensures Inv(Apply(registry, Consuming(request)))
  {
    var after := Apply(registry, Consuming(request));
    if after != registry {
      var event := Consumed(request);
      assert EntryOk(registry, request.approval);
      ConsumedEntryOk(registry, after, request);
      forall i | 0 <= i < |registry.history| ensures !SameKind(registry.history[i], event) {
        assert !WasConsumed(registry, request.approval);
      }
      HistoryGrows(registry, after, event);
      forall other | other in registry.entries && other != request.approval ensures EntryOk(after, other) {
        assert EntryOk(registry, other);
        EntryStays(registry, after, other, event);
      }
    }
  }

  lemma InvalidatedEntryOk(registry: Registry, after: Registry, id: Id, run: Id, reason: Reason)
    requires id in registry.entries && EntryOk(registry, id) && registry.entries[id].request.run == run
    requires Extends(registry, after, Ended(run))
    requires id in after.entries && after.entries[id] == Deactivate(registry.entries[id], reason)
    ensures EntryOk(after, id)
  {
    var entry := registry.entries[id];
    var a :| RegisteredAt(registry, a, entry.request);
    assert RegisteredAt(after, a, entry.request);
    if entry.resolution.Some? && entry.resolution.value.status != Invalidated {
      var b :| DecidedAt(registry, b, id, Granting(entry.resolution.value));
      assert DecidedAt(after, b, id, Granting(entry.resolution.value));
    }
    ConsumedGrows(registry, after, id, Ended(run));
  }

  lemma EndKeepsInv(registry: Registry, op: Op)
    requires Inv(registry) && (op.Invalidating? || op.Releasing?)
    ensures Inv(Apply(registry, op))
  {
    var after := Apply(registry, op);
    HistoryGrows(registry, after, Ended(op.run));
    forall id | id in after.entries ensures EntryOk(after, id) {
      assert EntryOk(registry, id);
      if registry.entries[id].request.run == op.run {
        InvalidatedEntryOk(registry, after, id, op.run, op.reason);
      } else {
        EntryStays(registry, after, id, Ended(op.run));
      }
    }
  }

  lemma ApplyKeepsInv(registry: Registry, op: Op)
    requires Inv(registry) && Admissible(registry, op)
    ensures Inv(Apply(registry, op))
  {
    match op
    case Registering(request) => RegisterKeepsInv(registry, request);
    case Deciding(id, decision) => DecideKeepsInv(registry, id, decision);
    case Consuming(request) => ConsumeKeepsInv(registry, request);
    case Invalidating(_, _) => EndKeepsInv(registry, op);
    case Releasing(_) => EndKeepsInv(registry, op);
  }

  // ---------------------------------------------------------------- whole histories

  ghost predicate Trace(registries: seq<Registry>, ops: seq<Op>) {
    && |registries| == |ops| + 1
    && registries[0] == NEW_REGISTRY
    && forall i :: 0 <= i < |ops| ==>
         Admissible(registries[i], ops[i]) && registries[i + 1] == Apply(registries[i], ops[i])
  }

  lemma {:induction false} ReachableInv(registries: seq<Registry>, ops: seq<Op>, n: nat)
    requires Trace(registries, ops) && n < |registries|
    ensures Inv(registries[n])
  {
    if n > 0 {
      ReachableInv(registries, ops, n - 1);
      ApplyKeepsInv(registries[n - 1], ops[n - 1]);
    }
  }

  lemma {:induction false} HistoryPrefix(registries: seq<Registry>, ops: seq<Op>, m: nat, n: nat)
    requires Trace(registries, ops) && m <= n < |registries|
    ensures registries[m].history <= registries[n].history
    decreases n - m
  {
    if m < n {
      HistoryPrefix(registries, ops, m, n - 1);
    }
  }

  // While an identifier has an entry, its resolution - once there - is never another one,
  // not even through a release and a later registration.
  lemma {:induction false} ResolutionNeverChanges(registries: seq<Registry>, ops: seq<Op>, m: nat, n: nat, id: Id)
    requires Trace(registries, ops) && m <= n < |registries|
    requires id in registries[m].entries && registries[m].entries[id].resolution.Some?
    requires id in registries[n].entries
    ensures registries[n].entries[id].resolution == registries[m].entries[id].resolution
    decreases n - m
  {
    if m < n {
      StaysUsed(registries, ops, m, n - 1, id);
      NoNewEntry(registries[n - 1], ops[n - 1], id);
      ResolutionNeverChanges(registries, ops, m, n - 1, id);
      ResolutionStays(registries[n - 1], ops[n - 1], id);
    }
  }

  lemma StaysUsed(registries: seq<Registry>, ops: seq<Op>, m: nat, n: nat, id: Id)
    requires Trace(registries, ops) && m <= n < |registries| && id in registries[m].entries
    ensures !Unused(registries[n], id)
  {
    ReachableInv(registries, ops, m);
    assert EntryOk(registries[m], id);
    var a :| RegisteredAt(registries[m], a, registries[m].entries[id].request);
    HistoryPrefix(registries, ops, m, n);
    assert registries[n].history[a] == registries[m].history[a];
  }

  // Only a registration makes an entry, and only for an identifier never used before.
  lemma NoNewEntry(registry: Registry, op: Op, id: Id)
    requires Admissible(registry, op) && !Unused(registry, id) && id in Apply(registry, op).entries
    ensures id in registry.entries
  {
  }

  lemma ResolutionStays(registry: Registry, op: Op, id: Id)
    requires id in registry.entries && registry.entries[id].resolution.Some? && id in Apply(registry, op).entries
    requires Admissible(registry, op) && !Unused(registry, id)
    ensures Apply(registry, op).entries[id].resolution == registry.entries[id].resolution
  {
  }

  // Nothing registered before its run was invalidated is consumed afterwards, each
  // identifier is consumed at most once, and only after its own approval.
  lemma ConsumptionSafety(registries: seq<Registry>, ops: seq<Op>, n: nat, i: int)
    requires Trace(registries, ops) && n < |registries|
    requires 0 <= i < |registries[n].history| && registries[n].history[i].Consumed?
    ensures var history := registries[n].history;
            var request := history[i].request;
            && (exists a, b :: 0 <= a < i && 0 <= b < i
                  && history[a] == Registered(request) && history[b] == Decided(request.approval, true)
                  && forall e :: 0 <= e < i && history[e] == Ended(request.run) ==> e < a)
            && (forall j :: 0 <= j < |history| && j != i && history[j].Consumed? ==>
                  history[j].request.approval != request.approval)
  {
    ReachableInv(registries, ops, n);
    var registry := registries[n];
    assert Justified(registry, i);
    var request := registry.history[i].request;
    var a :| 0 <= a < i && registry.history[a] == Registered(request) && !EndedBetween(registry, request.run, a, i);
    var b :| 0 <= b < i && registry.history[b] == Decided(request.approval, true);
    forall e | 0 <= e < i && registry.history[e] == Ended(request.run) ensures e < a {
      assert e > a ==> EndedBetween(registry, request.run, a, i);
    }
    forall j | 0 <= j < |registry.history| && j != i && registry.history[j].Consumed?
      ensures registry.history[j].request.approval != request.approval
    {
      if i < j { assert !SameKind(registry.history[i], registry.history[j]); }
      else { assert !SameKind(registry.history[j], registry.history[i]); }
    }
  }
}

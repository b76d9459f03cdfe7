/**
 What every history reachable through the store's transactions satisfies, for
 any mix of new turns, model and tool-result appends, compactions, runs that
 simply stop (a crash or a cancellation between transactions) and retries.
 */
module ConversationHistory {
  import opened Wrappers
  import opened Messages
  import opened ContextWindow
  import opened ConversationStore

  // ---------------------------------------------------------------- the invariant

  function Ids(runs: seq<Run>): (ids: seq<RunId>)
    ensures |ids| == |runs|
    ensures forall i :: 0 <= i < |runs| ==> ids[i] == runs[i].id
  {
    seq(|runs|, i requires 0 <= i < |runs| => runs[i].id)
  }

  // The start order of a run.
  function Position(ids: seq<RunId>, id: RunId): nat {
    if ids == [] then 0 else if ids[0] == id then 0 else 1 + Position(ids[1..], id)
  }

  predicate OrderedByRun(ids: seq<RunId>, messages: seq<Record>) {
    && (forall i :: 0 <= i < |messages| ==> Position(ids, messages[i].run) < |ids|)
    && (forall i, j :: 0 <= i < j < |messages| ==>
          Position(ids, messages[i].run) <= Position(ids, messages[j].run))
  }

  predicate SourcesOrdered(ids: seq<RunId>, summaries: seq<Summary>) {
    && (forall i :: 0 <= i < |summaries| ==> Position(ids, summaries[i].source) < |ids|)
    && (forall i, j :: 0 <= i < j < |summaries| ==>
          Position(ids, summaries[i].source) <= Position(ids, summaries[j].source))
  }

  // Nothing is open, or only the calls of the very last message.
  predicate TailOk(messages: seq<Record>) {
    && Scan(START, messages).Some?
    && (Scan(START, messages).value.pending != {} ==>
          messages != [] && messages[|messages| - 1].message.AI?)
  }

  // The end of the history, and every place where a new run takes over.
  predicate Seam(messages: seq<Record>, k: nat) {
    k <= |messages| && (k == 0 || k == |messages| || messages[k - 1].run != messages[k].run)
  }

  predicate SeamsOk(messages: seq<Record>) {
    forall k :: 0 <= k <= |messages| && Seam(messages, k) ==> TailOk(messages[..k])
  }

  predicate OneUserPerRun(messages: seq<Record>) {
    forall i, j :: 0 <= i < j < |messages| && messages[i].message.Human? && messages[j].message.Human? ==>
      messages[i].run != messages[j].run
  }

  predicate Inv(store: Store) {
    var ids := Ids(store.runs);
    && Distinct(ids)
    && Numbered(store.messages)
    && OrderedByRun(ids, store.messages)
    && SeamsOk(store.messages)
    && OneUserPerRun(store.messages)
    && ChainOk(store)
    && SourcesOrdered(ids, store.summaries)
  }

  // ---------------------------------------------------------------- steps

  datatype Op =
    | Begin(id: RunId)
    | Retry(id: RunId, run: Run, text: string, attachments: seq<nat>)
    | Turn(text: string, attachments: seq<nat>)
    | Assistant(text: string, calls: seq<CallId>)
    | Results(outputs: seq<string>)
    | Compact(percent: int, text: string)
    | Iterate
    | End(status: Status)

  function Current(store: Store): RunId
    requires store.runs != []
  {
    store.runs[|store.runs| - 1].id
  }

  predicate NoMessagesOf(messages: seq<Record>, run: RunId) {
    forall i :: 0 <= i < |messages| ==> messages[i].run != run
  }

  function OpenCalls(messages: seq<Record>): seq<CallId> {
    if messages != [] && messages[|messages| - 1].message.AI? then messages[|messages| - 1].message.calls else []
  }

  // The last message is one the current run stored.
  predicate InTurn(store: Store) {
    && store.runs != [] && store.messages != []
    && store.messages[|store.messages| - 1].run == Current(store)
  }

  predicate JustLoaded(store: Store) {
    InTurn(store) && store.messages[|store.messages| - 1].message.Human?
  }

  function CallResults(calls: seq<CallId>, outputs: seq<string>): seq<Message>
    requires |calls| == |outputs|
  {
    seq(|calls|, k requires 0 <= k < |calls| => Tool(calls[k], outputs[k]))
  }

  // When the service and the graph perform an operation: at most one run acts at a time,
  // the one started last; it loads its turn once, calls the model only on a closed
  // history, answers all open calls in one batch, and compacts right after loading.
  predicate Protocol(store: Store, op: Op) {
    match op
    case Begin(id) => id !in Ids(store.runs)
    case Retry(id, _, _, _) => id !in Ids(store.runs)
    case Turn(_, _) => store.runs != [] && NoMessagesOf(store.messages, Current(store))
    case Assistant(_, _) => InTurn(store) && !store.messages[|store.messages| - 1].message.AI?
    case Results(outputs) => InTurn(store) && OpenCalls(store.messages) != [] && |outputs| == |OpenCalls(store.messages)|
    case Compact(percent, _) => JustLoaded(store) && 1 <= percent <= 99
    case Iterate => store.runs != []
    case End(status) => store.runs != [] && status != Running
  }

  // Model calls carry pairwise distinct, non-empty tool-call identifiers.
  predicate WellFormed(op: Op) {
    op.Assistant? ==> ValidCalls(op.calls)
  }

  function CompactOnce(store: Store, percent: int, text: string): Result<Store, StoreError>
    requires store.runs != []
  {
    match Load(store)
    case Err(error) => Err(error)
    case Ok(summaries) =>
      match CompactablePrefix(After(store.messages, Covered(summaries)), percent)
      case Err(_) => Err(SummaryInvalid)
      case Ok(prefix) =>
        if prefix == [] then Ok(store)
        else Commit(store, Revision(summaries), prefix[|prefix| - 1].sequence, text, Current(store))
  }

  function Apply(store: Store, op: Op): Result<Store, StoreError>
    requires Protocol(store, op)
  {
    match op
    case Begin(id) => Ok(store.(runs := store.runs + [Run(id, Running, 0)]))
    case Retry(id, run, text, attachments) => (
      match RemoveTurn(store, run, text, attachments)
      case Err(error) => Err(error)
      case Ok(after) => Ok(after.(runs := after.runs + [Run(id, Running, 0)])))
    case Turn(text, attachments) => Ok(store.(messages := LoadTurn(store.messages, Current(store), text, attachments)))
    case Assistant(text, calls) => Ok(store.(messages := Append(store.messages, Current(store), [AI(text, calls)])))
    case Results(outputs) =>
      Ok(store.(messages := Append(store.messages, Current(store), CallResults(OpenCalls(store.messages), outputs))))
    case Compact(percent, text) => CompactOnce(store, percent, text)
    case Iterate => (
      match Increment(store.runs, Current(store))
      case Err(error) => Err(error)
      case Ok(runs) => Ok(store.(runs := runs)))
    case End(status) =>
      match Finish(store.runs, Current(store), status)
      case Err(error) => Err(error)
      case Ok(runs) => Ok(store.(runs := runs))
  }

  // A refused transaction is rolled back.
  function Next(store: Store, op: Op): Store
    requires Protocol(store, op)
  {
    match Apply(store, op)
    case Ok(after) => after
    case Err(_) => store
  }

  // A run of the system: the stores it passes through, one per operation.
  ghost predicate Trace(stores: seq<Store>, ops: seq<Op>) {
    && |stores| == |ops| + 1
    && stores[0] == EMPTY
    && forall i :: 0 <= i < |ops| ==>
         && WellFormed(ops[i])
         && Protocol(stores[i], ops[i])
         && stores[i + 1] == Next(stores[i], ops[i])
  }

  // ---------------------------------------------------------------- run order

  lemma {:induction false} PositionBound(ids: seq<RunId>, id: RunId)
    ensures Position(ids, id) <= |ids|
    ensures Position(ids, id) < |ids| <==> id in ids
    ensures Position(ids, id) < |ids| ==> ids[Position(ids, id)] == id
  {
    if ids != [] {
      PositionBound(ids[1..], id);
    }
  }

  lemma {:induction false} PositionAppend(ids: seq<RunId>, more: RunId, id: RunId)
    requires id in ids
    ensures Position(ids + [more], id) == Position(ids, id)
  {
    if ids[0] != id {
      PositionAppend(ids[1..], more, id);
      assert (ids + [more])[1..] == ids[1..] + [more];
    }
  }

  lemma PositionLast(ids: seq<RunId>, id: RunId)
    requires ids != [] && Distinct(ids)
    ensures Position(ids, id) == |ids| - 1 <==> id == ids[|ids| - 1]
  {
    PositionBound(ids, id);
    PositionBound(ids, ids[|ids| - 1]);
  }

  // ---------------------------------------------------------------- appending keeps the rest

  lemma {:induction false} NumberedMax(messages: seq<Record>)
    requires Numbered(messages)
    ensures MaxSequence(messages) == |messages|
  {
    if messages != [] {
      NumberedMax(messages[..|messages| - 1]);
    }
  }

  lemma {:induction false} FirstAtNumbered(messages: seq<Record>, offset: nat, sequence: int)
    requires forall i :: 0 <= i < |messages| ==> messages[i].sequence == offset + i + 1
    requires offset < sequence
    ensures FirstAt(messages, sequence) ==
            if sequence <= offset + |messages| then sequence - offset - 1 else |messages|
  {
    if messages != [] && messages[0].sequence != sequence {
      FirstAtNumbered(messages[1..], offset + 1, sequence);
    }
  }

  lemma {:induction false} FirstAtAbsent(messages: seq<Record>, sequence: int)
    requires Numbered(messages) && sequence <= 0
    ensures FirstAt(messages, sequence) == |messages|
  {
    FirstAtNone(messages, sequence);
  }

  lemma {:induction false} FirstAtNone(messages: seq<Record>, sequence: int)
    requires forall i :: 0 <= i < |messages| ==> messages[i].sequence != sequence
    ensures FirstAt(messages, sequence) == |messages|
  {
    if messages != [] {
      FirstAtNone(messages[1..], sequence);
    }
  }

  lemma {:induction false} UsersAppend(a: seq<Record>, b: seq<Record>, run: RunId)
    ensures UsersOf(a + b, run) == UsersOf(a, run) + UsersOf(b, run)
    decreases |b|
  {
    if b == [] {
      assert a + b == a;
    } else {
      UsersAppend(a, b[..|b| - 1], run);
      assert (a + b)[..|a + b| - 1] == a + b[..|b| - 1];
    }
  }

  lemma {:induction false} UsersNone(messages: seq<Record>, run: RunId)
    requires forall i :: 0 <= i < |messages| ==> messages[i].run != run || !messages[i].message.Human?
    ensures UsersOf(messages, run) == []
  {
    if messages != [] {
      UsersNone(messages[..|messages| - 1], run);
    }
  }

  lemma {:induction false} UsersWithin(messages: seq<Record>, run: RunId)
    ensures forall u :: u in UsersOf(messages, run) ==> u in messages && u.run == run && u.message.Human?
  {
    if messages != [] {
      UsersWithin(messages[..|messages| - 1], run);
    }
  }

  // On a numbered history the boundary test only looks at the covered prefix and
  // the source's own user message.
  lemma BoundaryNumbered(store: Store, sequence: int, source: RunId)
    requires Numbered(store.messages)
    ensures BoundaryOk(store, sequence, source) <==>
            && 0 < sequence <= |store.messages|
            && HasRun(store.runs, source)
            && |UsersOf(store.messages, source)| == 1
            && sequence < UsersOf(store.messages, source)[0].sequence
            && !store.messages[sequence - 1].message.System?
            && Units(store.messages[..sequence]).Some?
  {
    if sequence > 0 {
      FirstAtNumbered(store.messages, 0, sequence);
    } else {
      FirstAtAbsent(store.messages, sequence);
    }
  }

  // ---------------------------------------------------------------- what an append keeps

  lemma LastCalls(messages: seq<Record>)
    requires messages != [] && messages[|messages| - 1].message.AI? && Scan(START, messages).Some?
    ensures var calls := messages[|messages| - 1].message.calls;
            && ValidCalls(calls)
            && Scan(START, messages).value.pending == Elements(calls)
            && Scan(START, messages).value.units != []
  {
  }

  // The rows answer exactly the calls, in their order.
  predicate AnswerRows(calls: seq<CallId>, rows: seq<Record>) {
    |rows| == |calls| && forall k :: 0 <= k < |rows| ==> rows[k].message.Tool? && rows[k].message.callId == calls[k]
  }

  lemma AnswerRowsIds(calls: seq<CallId>, rows: seq<Record>)
    requires AnswerRows(calls, rows)
    ensures StartsWithTools(rows, |calls|) && LeadingIds(rows, |calls|) == Elements(calls)
  {
    LeadingLength(rows, |calls|);
    LeadingIdsAre(rows, |calls|);
    forall id | id in Elements(calls) ensures id in (set k | 0 <= k < |calls| :: rows[k].message.callId) {
      var k :| 0 <= k < |calls| && calls[k] == id;
      assert rows[k].message.callId == id;
    }
  }

  // One result for each call of the last assistant message closes the history.
  lemma ResultsClose(messages: seq<Record>, rows: seq<Record>)
    requires messages != [] && messages[|messages| - 1].message.AI? && Scan(START, messages).Some?
    requires AnswerRows(messages[|messages| - 1].message.calls, rows)
    ensures Units(messages + rows).Some?
  {
    LastCalls(messages);
    var calls := messages[|messages| - 1].message.calls;
    var cut := Scan(START, messages).value;
    ScanAppend(START, messages, rows);
    DistinctCount(calls);
    AnswerRowsIds(calls, rows);
    Drain(cut.units, cut.pending, rows);
    assert rows[|calls|..] == [];
  }

  lemma SeamsGrow(messages: seq<Record>, rows: seq<Record>)
    requires rows != [] && SeamsOk(messages) && TailOk(messages + rows)
    requires forall i :: 0 <= i < |rows| ==> rows[i].run == rows[0].run
    ensures SeamsOk(messages + rows)
  {
    var grown := messages + rows;
    assert forall i :: |messages| <= i < |grown| ==> grown[i].run == rows[0].run;
    forall k | 0 <= k <= |grown| && Seam(grown, k) ensures TailOk(grown[..k]) {
      if k == |grown| {
        assert grown[..k] == grown;
      } else {
        assert k <= |messages| && Seam(messages, k);
        assert grown[..k] == messages[..k];
      }
    }
  }

  lemma ChainGrows(store: Store, rows: seq<Record>)
    requires Numbered(store.messages) && Numbered(store.messages + rows) && ChainOk(store)
    requires forall k :: 0 <= k < |store.summaries| ==> UsersOf(rows, store.summaries[k].source) == []
    ensures ChainOk(store.(messages := store.messages + rows))
  {
    var grown := store.(messages := store.messages + rows);
    forall k | 0 <= k < |grown.summaries| ensures LinkOk(grown, k) {
      assert LinkOk(store, k);
      var summary := store.summaries[k];
      BoundaryNumbered(store, summary.covered, summary.source);
      BoundaryNumbered(grown, summary.covered, summary.source);
      UsersAppend(store.messages, rows, summary.source);
      assert grown.messages[..summary.covered] == store.messages[..summary.covered];
    }
  }

  lemma OrderGrows(ids: seq<RunId>, messages: seq<Record>, rows: seq<Record>)
    requires ids != [] && Distinct(ids) && OrderedByRun(ids, messages)
    requires forall i :: 0 <= i < |rows| ==> rows[i].run == ids[|ids| - 1]
    ensures OrderedByRun(ids, messages + rows)
  {
    PositionLast(ids, ids[|ids| - 1]);
  }

  // A batch brings at most one user message, as its last row, and only to a new run.
  predicate OpensTurn(messages: seq<Record>, rows: seq<Record>) {
    forall i :: 0 <= i < |rows| && rows[i].message.Human? ==>
      i == |rows| - 1 && NoMessagesOf(messages, rows[i].run)
  }

  lemma OneUserGrows(messages: seq<Record>, rows: seq<Record>)
    requires OneUserPerRun(messages) && OpensTurn(messages, rows)
    ensures OneUserPerRun(messages + rows)
  {
  }

  lemma SourcesKeepUsers(store: Store, rows: seq<Record>, k: nat)
    requires ChainOk(store) && k < |store.summaries| && OpensTurn(store.messages, rows)
    ensures UsersOf(rows, store.summaries[k].source) == []
  {
    assert LinkOk(store, k);
    var source := store.summaries[k].source;
    UsersWithin(store.messages, source);
    assert UsersOf(store.messages, source)[0] in store.messages;
    UsersNone(rows, source);
  }

  // Every append of the current run keeps the invariant exactly when it leaves the
  // tail in order; a user message must be the run's first.
  lemma GrowthKeepsInv(store: Store, batch: seq<Message>)
    requires Inv(store) && store.runs != [] && batch != []
    requires TailOk(Append(store.messages, Current(store), batch))
    requires OpensTurn(store.messages, Rows(MaxSequence(store.messages) + 1, Current(store), batch))
    ensures Inv(store.(messages := Append(store.messages, Current(store), batch)))
  {
    NumberedMax(store.messages);
    var rows := Rows(|store.messages| + 1, Current(store), batch);
    RowsKeepInv(store, rows);
  }

  lemma RowsKeepInv(store: Store, rows: seq<Record>)
    requires Inv(store) && store.runs != [] && rows != []
    requires forall i :: 0 <= i < |rows| ==>
               rows[i].run == Current(store) && rows[i].sequence == |store.messages| + 1 + i
    requires TailOk(store.messages + rows) && OpensTurn(store.messages, rows)
    ensures Inv(store.(messages := store.messages + rows))
  {
    assert Numbered(store.messages + rows);
    OrderGrows(Ids(store.runs), store.messages, rows);
    SeamsGrow(store.messages, rows);
    forall k | 0 <= k < |store.summaries| ensures UsersOf(rows, store.summaries[k].source) == [] {
      SourcesKeepUsers(store, rows, k);
    }
    ChainGrows(store, rows);
    OneUserGrows(store.messages, rows);
  }

  lemma TailOfWhole(messages: seq<Record>)
    requires SeamsOk(messages)
    ensures TailOk(messages)
  {
    assert Seam(messages, |messages|);
    assert messages[..|messages|] == messages;
  }

  lemma ClosedIfNotAI(messages: seq<Record>)
    requires TailOk(messages)
    requires messages != [] ==> !messages[|messages| - 1].message.AI?
    ensures Units(messages).Some?
  {
  }

  lemma UserStaysClosed(messages: seq<Record>, row: Record)
    requires Units(messages).Some? && row.message.Human?
    ensures Units(messages + [row]).Some?
  {
    assert (messages + [row])[..|messages|] == messages;
  }

  lemma RepairsClose(messages: seq<Record>, first: int, run: RunId)
    requires TailOk(messages)
    ensures Units(messages + Rows(first, run, Repairs(messages))).Some?
  {
    var fixes := Rows(first, run, Repairs(messages));
    if Repairs(messages) != [] {
      ResultsClose(messages, fixes);
    } else {
      assert messages + fixes == messages;
      if messages != [] && messages[|messages| - 1].message.AI? { LastCalls(messages); }
    }
  }

  // Loading a turn closes whatever the previous run left open and then adds the user.
  lemma TurnCloses(messages: seq<Record>, run: RunId, text: string, attachments: seq<nat>)
    requires TailOk(messages)
    ensures Units(LoadTurn(messages, run, text, attachments)).Some?
  {
    var first, repairs := MaxSequence(messages) + 1, Repairs(messages);
    var fixes := Rows(first, run, repairs);
    var last := Record(first + |repairs|, run, Human(text, attachments));
    TurnRows(messages, run, text, attachments);
    hide Units, Repairs;
    RepairsClose(messages, first, run);
    UserStaysClosed(messages + fixes, last);
  }

  lemma TurnRows(messages: seq<Record>, run: RunId, text: string, attachments: seq<nat>)
    ensures var first, repairs := MaxSequence(messages) + 1, Repairs(messages);
            LoadTurn(messages, run, text, attachments) ==
            messages + Rows(first, run, repairs) + [Record(first + |repairs|, run, Human(text, attachments))]
  {
    hide Repairs;
  }

  lemma TurnOpens(messages: seq<Record>, first: int, run: RunId, text: string, attachments: seq<nat>)
    requires NoMessagesOf(messages, run)
    ensures OpensTurn(messages, Rows(first, run, Repairs(messages) + [Human(text, attachments)]))
  {
  }

  lemma TurnIsLast(store: Store, text: string, attachments: seq<nat>)
    requires store.runs != []
    ensures JustLoaded(store.(messages := LoadTurn(store.messages, Current(store), text, attachments)))
  {
    hide Repairs;
  }

  lemma TurnKeepsInv(store: Store, text: string, attachments: seq<nat>)
    requires Inv(store) && Protocol(store, Turn(text, attachments))
    ensures Inv(Next(store, Turn(text, attachments)))
    ensures JustLoaded(Next(store, Turn(text, attachments)))
    ensures Units(Next(store, Turn(text, attachments)).messages).Some?
  {
    TailOfWhole(store.messages);
    TurnCloses(store.messages, Current(store), text, attachments);
    ClosedTail(LoadTurn(store.messages, Current(store), text, attachments));
    TurnOpens(store.messages, MaxSequence(store.messages) + 1, Current(store), text, attachments);
    TurnIsLast(store, text, attachments);
    hide Units, TailOk, SeamsOk, ChainOk, OpensTurn, Repairs;
    GrowthKeepsInv(store, Repairs(store.messages) + [Human(text, attachments)]);
  }

  lemma ClosedTail(messages: seq<Record>)
    requires Units(messages).Some?
    ensures TailOk(messages)
  {
  }

  lemma AnswerAppended(messages: seq<Record>, run: RunId, text: string, calls: seq<CallId>)
    requires TailOk(messages) && (messages != [] ==> !messages[|messages| - 1].message.AI?)
    ensures TailOk(Append(messages, run, [AI(text, calls)])) <==> ValidCalls(calls)
  {
    ClosedIfNotAI(messages);
    var grown := Append(messages, run, [AI(text, calls)]);
    assert grown[..|grown| - 1] == messages;
  }

  // A model answer may be stored exactly when its call identifiers are usable:
  // an empty or repeated identifier makes every later history invalid.
  lemma AssistantKeepsInvIff(store: Store, text: string, calls: seq<CallId>)
    requires Inv(store) && Protocol(store, Assistant(text, calls))
    ensures Inv(Next(store, Assistant(text, calls))) <==> ValidCalls(calls)
  {
    TailOfWhole(store.messages);
    AnswerAppended(store.messages, Current(store), text, calls);
    hide TailOk;
    if ValidCalls(calls) {
      GrowthKeepsInv(store, [AI(text, calls)]);
    } else if SeamsOk(Append(store.messages, Current(store), [AI(text, calls)])) {
      TailOfWhole(Append(store.messages, Current(store), [AI(text, calls)]));
    }
  }

  // Once such an answer is stored, no history that still contains it can be cut,
  // so neither compaction nor any summary reaching beyond it is possible again.
  lemma BadCallsPoison(messages: seq<Record>, i: nat, more: seq<Record>)
    requires i < |messages| && messages[i].message.AI? && !ValidCalls(messages[i].message.calls)
    ensures Units(messages + more).None?
    ensures forall percent :: CompactablePrefix(messages + more, percent).Err?
  {
    UnitsIffPaired(messages + more);
    assert Contents(messages + more)[i] == messages[i].message;
    assert !Answered(Contents(messages + more), i);
  }

  // It happens: the first answer of the first turn calls the same identifier twice.
  lemma RepeatedCallHappens() returns (stores: seq<Store>, ops: seq<Op>)
    ensures |stores| == |ops| + 1 == 4 && stores[0] == EMPTY
    ensures forall i :: 0 <= i < 3 ==> Protocol(stores[i], ops[i]) && stores[i + 1] == Next(stores[i], ops[i])
    ensures WellFormed(ops[0]) && WellFormed(ops[1]) && ops[2] == Assistant("", ["c", "c"])
    ensures Inv(stores[2]) && !Inv(stores[3]) && Units(stores[3].messages).None?
  {
    hide Inv, Units, Apply;
    ops := [Begin(0), Turn("", []), Assistant("", ["c", "c"])];
    var first, second := FirstTurn();
    var third := Next(second, ops[2]);
    stores := [EMPTY, first, second, third];
    RepeatedCalls();
    AssistantKeepsInvIff(second, "", ["c", "c"]);
    AnswerStored(second, "", ["c", "c"]);
    BadCallsPoison(third.messages, |third.messages| - 1, []);
    assert third.messages + [] == third.messages;
  }

  lemma FirstTurn() returns (first: Store, second: Store)
    ensures Protocol(EMPTY, Begin(0)) && first == Next(EMPTY, Begin(0))
    ensures Protocol(first, Turn("", [])) && second == Next(first, Turn("", []))
    ensures Inv(second) && InTurn(second) && !second.messages[|second.messages| - 1].message.AI?
  {
    hide Inv;
    first := Next(EMPTY, Begin(0));
    assert NoMessagesOf(first.messages, Current(first));
    second := Next(first, Turn("", []));
    var ops := [Begin(0), Turn("", [])];
    ReachableInv([EMPTY, first, second], ops, 2);
  }

  lemma AnswerStored(store: Store, text: string, calls: seq<CallId>)
    requires Protocol(store, Assistant(text, calls))
    ensures var messages := Next(store, Assistant(text, calls)).messages;
            messages != [] && messages[|messages| - 1].message == AI(text, calls)
  {
  }

  lemma RepeatedCalls()
    ensures !ValidCalls(["c", "c"])
  {
    assert ["c", "c"][0] == ["c", "c"][1];
  }

  lemma ResultsKeepInv(store: Store, outputs: seq<string>)
    requires Inv(store) && Protocol(store, Results(outputs))
    ensures Inv(Next(store, Results(outputs)))
    ensures Units(Next(store, Results(outputs)).messages).Some?
  {
    TailOfWhole(store.messages);
    var batch := CallResults(OpenCalls(store.messages), outputs);
    var rows := Rows(MaxSequence(store.messages) + 1, Current(store), batch);
    ResultsClose(store.messages, rows);
    assert batch[0].Tool?;
    GrowthKeepsInv(store, batch);
  }

  // ---------------------------------------------------------------- removing the last turn

  lemma {:induction false} WithoutNone(messages: seq<Record>, run: RunId)
    requires NoMessagesOf(messages, run)
    ensures WithoutRun(messages, run) == messages
  {
    if messages != [] {
      WithoutNone(messages[..|messages| - 1], run);
    }
  }

  lemma OthersBeforeLast(ids: seq<RunId>, messages: seq<Record>)
    requires ids != [] && Distinct(ids) && OrderedByRun(ids, messages)
    requires messages != [] && messages[|messages| - 1].run != ids[|ids| - 1]
    ensures NoMessagesOf(messages, ids[|ids| - 1])
  {
    forall i | 0 <= i < |messages| ensures messages[i].run != ids[|ids| - 1] {
      PositionBound(ids, messages[i].run);
      PositionLast(ids, messages[i].run);
      PositionLast(ids, messages[|messages| - 1].run);
    }
  }

  // The rows of the run started last are exactly a suffix of the history.
  lemma {:induction false} RemovedIsSuffix(ids: seq<RunId>, messages: seq<Record>) returns (k: nat)
    requires ids != [] && Distinct(ids) && OrderedByRun(ids, messages)
    ensures k <= |messages| && WithoutRun(messages, ids[|ids| - 1]) == messages[..k]
    ensures forall i :: 0 <= i < |messages| ==> (messages[i].run == ids[|ids| - 1] <==> k <= i)
    ensures Seam(messages, k)
  {
    if messages == [] {
      k := 0;
    } else if messages[|messages| - 1].run == ids[|ids| - 1] {
      k := RemovedIsSuffix(ids, messages[..|messages| - 1]);
    } else {
      k := |messages|;
      OthersBeforeLast(ids, messages);
      WithoutNone(messages, ids[|ids| - 1]);
    }
  }

  lemma {:induction false} WithoutSourceNone(summaries: seq<Summary>, run: RunId)
    requires forall i :: 0 <= i < |summaries| ==> summaries[i].source != run
    ensures WithoutSource(summaries, run) == summaries
  {
    if summaries != [] {
      WithoutSourceNone(summaries[..|summaries| - 1], run);
    }
  }

  lemma {:induction false} RemovedSummaries(ids: seq<RunId>, summaries: seq<Summary>) returns (k: nat)
    requires ids != [] && Distinct(ids) && SourcesOrdered(ids, summaries)
    ensures k <= |summaries| && WithoutSource(summaries, ids[|ids| - 1]) == summaries[..k]
    ensures forall i :: 0 <= i < |summaries| ==> (summaries[i].source == ids[|ids| - 1] <==> k <= i)
  {
    var id := ids[|ids| - 1];
    if summaries == [] {
      k := 0;
    } else if summaries[|summaries| - 1].source == id {
      k := RemovedSummaries(ids, summaries[..|summaries| - 1]);
    } else {
      k := |summaries|;
      forall i | 0 <= i < |summaries| ensures summaries[i].source != id {
        PositionBound(ids, summaries[i].source);
        PositionLast(ids, summaries[i].source);
        PositionLast(ids, summaries[|summaries| - 1].source);
      }
      WithoutSourceNone(summaries, id);
    }
  }

  lemma SeamsShrink(messages: seq<Record>, k: nat)
    requires SeamsOk(messages) && k <= |messages| && Seam(messages, k)
    ensures SeamsOk(messages[..k])
  {
    var kept := messages[..k];
    forall j | 0 <= j <= |kept| && Seam(kept, j) ensures TailOk(kept[..j]) {
      assert Seam(messages, j);
      assert kept[..j] == messages[..j];
    }
  }

  lemma PrefixKeepsInv(store: Store, k: nat, s: nat)
    requires Inv(store) && k <= |store.messages| && s <= |store.summaries| && Seam(store.messages, k)
    requires ChainOk(Store(store.runs, store.messages[..k], store.summaries[..s]))
    ensures Inv(Store(store.runs, store.messages[..k], store.summaries[..s]))
  {
    SeamsShrink(store.messages, k);
    hide ChainOk, SeamsOk;
  }

  lemma RemoveKeepsInv(store: Store, run: Run, text: string, attachments: seq<nat>)
    requires Inv(store) && RemoveTurn(store, run, text, attachments).Ok?
    ensures Inv(RemoveTurn(store, run, text, attachments).value)
  {
    var ids := Ids(store.runs);
    var after := RemoveTurn(store, run, text, attachments).value;
    var k := RemovedIsSuffix(ids, store.messages);
    var s := RemovedSummaries(ids, store.summaries);
    hide SeamsOk, ChainOk;
    ChainShrinks(store, k, s);
    PrefixKeepsInv(store, k, s);
    assert after == Store(store.runs, store.messages[..k], store.summaries[..s]);
  }

  lemma ChainShrinks(store: Store, k: nat, s: nat)
    requires Numbered(store.messages) && ChainOk(store)
    requires k <= |store.messages| && s <= |store.summaries|
    requires forall i, j :: 0 <= i < s && k <= j < |store.messages| ==> store.messages[j].run != store.summaries[i].source
    ensures ChainOk(Store(store.runs, store.messages[..k], store.summaries[..s]))
  {
    var after := Store(store.runs, store.messages[..k], store.summaries[..s]);
    forall i | 0 <= i < s ensures LinkOk(after, i) {
      assert LinkOk(store, i);
      assert forall j :: k <= j < |store.messages| ==> store.messages[j].run != store.summaries[i].source;
      BoundaryShrinks(store, k, store.summaries[..s], store.summaries[i].covered, store.summaries[i].source);
    }
  }

  lemma UsersShrink(messages: seq<Record>, k: nat, source: RunId)
    requires k <= |messages| && forall j :: k <= j < |messages| ==> messages[j].run != source
    ensures UsersOf(messages[..k], source) == UsersOf(messages, source)
    ensures forall u :: u in UsersOf(messages, source) ==> u in messages[..k]
  {
    assert messages[..k] + messages[k..] == messages;
    UsersAppend(messages[..k], messages[k..], source);
    UsersNone(messages[k..], source);
    UsersWithin(messages[..k], source);
  }

  // A boundary survives the removal of rows that are not its source's.
  lemma BoundaryShrinks(store: Store, k: nat, summaries: seq<Summary>, covered: int, source: RunId)
    requires Numbered(store.messages) && k <= |store.messages| && BoundaryOk(store, covered, source)
    requires forall j :: k <= j < |store.messages| ==> store.messages[j].run != source
    ensures BoundaryOk(Store(store.runs, store.messages[..k], summaries), covered, source)
  {
    var kept := store.messages[..k];
    BoundaryNumbered(store, covered, source);
    UsersShrink(store.messages, k, source);
    assert UsersOf(kept, source)[0] in kept;
    BoundaryNumbered(Store(store.runs, kept, summaries), covered, source);
    assert kept[..covered] == store.messages[..covered];
  }

  lemma BeginKeepsInv(store: Store, id: RunId)
    requires Inv(store) && id !in Ids(store.runs)
    ensures Inv(store.(runs := store.runs + [Run(id, Running, 0)]))
  {
    var ids := Ids(store.runs);
    var after := store.(runs := store.runs + [Run(id, Running, 0)]);
    assert Ids(after.runs) == ids + [id];
    OrderOfBegun(ids, id, store.messages, store.summaries);
    forall k | 0 <= k < |after.summaries| ensures LinkOk(after, k) {
      assert LinkOk(store, k);
      var i :| 0 <= i < |store.runs| && store.runs[i].id == store.summaries[k].source;
      assert after.runs[i].id == store.summaries[k].source;
    }
  }

  lemma OrderOfBegun(ids: seq<RunId>, id: RunId, messages: seq<Record>, summaries: seq<Summary>)
    requires OrderedByRun(ids, messages) && SourcesOrdered(ids, summaries)
    ensures OrderedByRun(ids + [id], messages) && SourcesOrdered(ids + [id], summaries)
  {
    forall other | Position(ids, other) < |ids|
      ensures Position(ids + [id], other) == Position(ids, other)
    {
      PositionBound(ids, other);
      PositionAppend(ids, id, other);
    }
  }

  lemma StatusKeepsInv(store: Store, runs: seq<Run>)
    requires Inv(store) && Ids(runs) == Ids(store.runs)
    ensures Inv(store.(runs := runs))
  {
    var after := store.(runs := runs);
    forall k | 0 <= k < |after.summaries| ensures LinkOk(after, k) {
      assert LinkOk(store, k);
      var i :| 0 <= i < |store.runs| && store.runs[i].id == store.summaries[k].source;
      assert Ids(runs)[i] == runs[i].id;
    }
  }

  // ---------------------------------------------------------------- compaction

  lemma CoveredWithin(store: Store)
    requires Inv(store)
    ensures 0 <= Covered(store.summaries) <= |store.messages|
    ensures Units(store.messages[..Covered(store.summaries)]).Some?
    ensures Increasing(store.summaries)
  {
    forall k | 0 <= k < |store.summaries|
      ensures 0 < store.summaries[k].covered <= |store.messages|
      ensures Units(store.messages[..store.summaries[k].covered]).Some?
      ensures k > 0 ==> store.summaries[k - 1].covered < store.summaries[k].covered
    {
      assert LinkOk(store, k);
      BoundaryNumbered(store, store.summaries[k].covered, store.summaries[k].source);
    }
    ChainIncreases(store.summaries);
  }

  lemma {:induction false} ChainIncreases(summaries: seq<Summary>)
    requires forall k :: 0 <= k < |summaries| ==>
               0 < summaries[k].covered && (k > 0 ==> summaries[k - 1].covered < summaries[k].covered)
    ensures Increasing(summaries)
  {
    if summaries != [] {
      var init := summaries[..|summaries| - 1];
      ChainIncreases(init);
      assert forall i :: 0 <= i < |init| ==> summaries[i].covered <= init[|init| - 1].covered;
    }
  }

  // Right after loading a turn, the prefix chosen for any percentage is one that the
  // store accepts: it ends a complete unit after everything already covered and before
  // the current user message.
  lemma CompactionAccepted(store: Store, percent: int, text: string)
    requires Inv(store) && JustLoaded(store) && 1 <= percent <= 99
    ensures var window := CompactablePrefix(After(store.messages, Covered(store.summaries)), percent);
            && window.Ok?
            && (window.value != [] ==>
                  var last := window.value[|window.value| - 1];
                  && Covered(store.summaries) < last.sequence < |store.messages|
                  && BoundaryOk(store, last.sequence, Current(store))
                  && (Commit(store, Revision(store.summaries), last.sequence, text, Current(store)).Ok?
                      <==> !Blank(text)))
  {
    TailOfWhole(store.messages);
    ClosedIfNotAI(store.messages);
    CoveredWithin(store);
    var c, n := ChosenBoundary(store.messages, Covered(store.summaries), percent);
    if n > 0 {
      BoundaryBeforeUser(store, c + n);
    }
  }

  lemma BoundaryBeforeUser(store: Store, sequence: int)
    requires Inv(store) && JustLoaded(store)
    requires 0 < sequence < |store.messages| && !store.messages[sequence - 1].message.System?
    requires Units(store.messages[..sequence]).Some?
    ensures BoundaryOk(store, sequence, Current(store))
  {
    OnlyUser(store);
    assert HasRun(store.runs, Current(store)) by {
      assert store.runs[|store.runs| - 1].id == Current(store);
    }
    BoundaryNumbered(store, sequence, Current(store));
  }

  // The chosen prefix of the uncovered records, located in the whole history.
  lemma ChosenBoundary(messages: seq<Record>, covered: nat, percent: int) returns (c: nat, n: nat)
    requires Numbered(messages) && Units(messages).Some? && 1 <= percent <= 99
    requires covered <= |messages| && Units(messages[..covered]).Some?
    requires messages != [] && messages[|messages| - 1].message.Human?
    ensures CompactablePrefix(After(messages, covered), percent).Ok?
    ensures var prefix := CompactablePrefix(After(messages, covered), percent).value;
            && c == covered
            && (prefix == [] <==> n == 0)
            && (n > 0 ==> c + n < |messages| && prefix[|prefix| - 1] == messages[c + n - 1]
                          && !messages[c + n - 1].message.System? && Units(messages[..c + n]).Some?)
  {
    c := covered;
    AfterIsSuffix(messages, c);
    var before, rest := messages[..c], messages[c..];
    assert before + rest == messages;
    UnitsSplit(before, rest);
    n := PrefixBoundary(rest, percent);
    if n > 0 {
      assert rest != [] && rest[|rest| - 1] == messages[|messages| - 1];
      UnitsAppend(before, rest[..n]);
      assert before + rest[..n] == messages[..c + n];
      UnitEndNotSystem(rest, percent);
      assert rest[n - 1] == messages[c + n - 1];
    }
  }

  lemma UnitEndNotSystem(records: seq<Record>, percent: int)
    requires 1 <= percent <= 99 && Units(records).Some?
    ensures var prefix := CompactablePrefix(records, percent).value;
            prefix != [] ==> !prefix[|prefix| - 1].message.System?
  {
    var n := PrefixBoundary(records, percent);
    StripHasNoSystem(records[..n]);
  }

  lemma {:induction false} StripHasNoSystem(records: seq<Record>)
    ensures forall i :: 0 <= i < |Strip(records)| ==> !Strip(records)[i].message.System?
  {
    if records != [] {
      StripHasNoSystem(records[..|records| - 1]);
    }
  }

  lemma OnlyUser(store: Store)
    requires Inv(store) && JustLoaded(store)
    ensures UsersOf(store.messages, Current(store)) == [store.messages[|store.messages| - 1]]
  {
    UsersNone(store.messages[..|store.messages| - 1], Current(store));
  }

  // Whether a row of the chain is valid depends on nothing after it.
  lemma LinkIsLocal(store: Store, other: Store, k: nat)
    requires store.runs == other.runs && store.messages == other.messages
    requires k < |store.summaries| && k < |other.summaries|
    requires store.summaries[k] == other.summaries[k]
    requires k > 0 ==> store.summaries[k - 1] == other.summaries[k - 1]
    ensures LinkOk(store, k) == LinkOk(other, k)
  {
    var summary := store.summaries[k];
    assert BoundaryOk(store, summary.covered, summary.source) == BoundaryOk(other, summary.covered, summary.source);
  }

  lemma CommitKeepsChain(store: Store, covered: int, text: string, source: RunId)
    requires Commit(store, Revision(store.summaries), covered, text, source).Ok?
    ensures ChainOk(Commit(store, Revision(store.summaries), covered, text, source).value)
  {
    var after := Commit(store, Revision(store.summaries), covered, text, source).value;
    var n := |store.summaries|;
    forall k | 0 <= k < |after.summaries| ensures LinkOk(after, k) {
      if k < n {
        assert LinkOk(store, k);
        LinkIsLocal(store, after, k);
      } else {
        assert BoundaryOk(after, covered, source) == BoundaryOk(store, covered, source);
        if k > 0 { assert LinkOk(store, k - 1); }
      }
    }
  }

  lemma CommitKeepsInv(store: Store, covered: int, text: string)
    requires Inv(store) && store.runs != []
    requires Commit(store, Revision(store.summaries), covered, text, Current(store)).Ok?
    ensures Inv(Commit(store, Revision(store.summaries), covered, text, Current(store)).value)
  {
    CommitKeepsChain(store, covered, text, Current(store));
    PositionLast(Ids(store.runs), Current(store));
  }

  // ---------------------------------------------------------------- every run

  lemma StepKeepsInv(store: Store, op: Op)
    requires Inv(store) && WellFormed(op) && Protocol(store, op)
    ensures Inv(Next(store, op))
  {
    match op
    case Begin(id) => BeginKeepsInv(store, id);
    case Retry(id, run, text, attachments) =>
      if RemoveTurn(store, run, text, attachments).Ok? {
        RemoveKeepsInv(store, run, text, attachments);
        BeginKeepsInv(RemoveTurn(store, run, text, attachments).value, id);
      }
    case Turn(text, attachments) => TurnKeepsInv(store, text, attachments);
    case Assistant(text, calls) => AssistantKeepsInvIff(store, text, calls);
    case Results(outputs) => ResultsKeepInv(store, outputs);
    case Compact(percent, text) => CompactKeepsInv(store, percent, text);
    case Iterate => StatusStepKeepsInv(store, op);
    case End(status) => StatusStepKeepsInv(store, op);
  }

  lemma CompactKeepsInv(store: Store, percent: int, text: string)
    requires Inv(store) && Protocol(store, Compact(percent, text))
    ensures Inv(Next(store, Compact(percent, text)))
  {
    var after := Next(store, Compact(percent, text));
    if after != store {
      var covered := CompactStep(store, percent, text);
      CommitKeepsInv(store, covered, text);
    }
  }

  // A compaction changes nothing unless it commits the boundary it chose.
  lemma CompactStep(store: Store, percent: int, text: string) returns (covered: int)
    requires ChainOk(store) && Protocol(store, Compact(percent, text))
    requires Next(store, Compact(percent, text)) != store
    ensures Commit(store, Revision(store.summaries), covered, text, Current(store))
         == Ok(Next(store, Compact(percent, text)))
  {
    var window := CompactablePrefix(After(store.messages, Covered(store.summaries)), percent);
    covered := window.value[|window.value| - 1].sequence;
  }

  lemma StatusStepKeepsInv(store: Store, op: Op)
    requires Inv(store) && Protocol(store, op) && (op.Iterate? || op.End?)
    ensures Inv(Next(store, op))
  {
    RunAtBound(store.runs, Current(store));
    assert Ids(Next(store, op).runs) == Ids(store.runs);
    StatusKeepsInv(store, Next(store, op).runs);
  }

  lemma {:induction false} ReachableInv(stores: seq<Store>, ops: seq<Op>, n: nat)
    requires Trace(stores, ops) && n < |stores|
    ensures Inv(stores[n])
  {
    if n > 0 {
      ReachableInv(stores, ops, n - 1);
      StepKeepsInv(stores[n - 1], ops[n - 1]);
    }
  }

  // In every reachable history the numbers are 1..n, runs follow each other in start
  // order, only the last message can have open calls, and the summaries always load.
  lemma ReachableHistories(stores: seq<Store>, ops: seq<Op>, n: nat)
    requires Trace(stores, ops) && n < |stores|
    ensures var store := stores[n];
            && Numbered(store.messages)
            && OrderedByRun(Ids(store.runs), store.messages)
            && TailOk(store.messages)
            && (forall i :: 0 <= i < |store.messages| - 1 && store.messages[i].message.AI? ==>
                  Answered(Contents(store.messages), i))
            && Load(store) == Ok(store.summaries)
  {
    ReachableInv(stores, ops, n);
    var store := stores[n];
    TailOfWhole(store.messages);
    OnlyTailOpen(store.messages);
  }

  lemma OnlyTailOpen(messages: seq<Record>)
    requires TailOk(messages)
    ensures forall i :: 0 <= i < |messages| - 1 && messages[i].message.AI? ==> Answered(Contents(messages), i)
  {
    if messages != [] {
      var last := messages[|messages| - 1];
      var init := messages[..|messages| - 1];
      if Units(messages).Some? {
        UnitsIffPaired(messages);
        forall i | 0 <= i < |messages| - 1 && messages[i].message.AI? ensures Answered(Contents(messages), i) {
          assert Contents(messages)[i].AI?;
        }
      } else {
        UnitsIffPaired(init);
        forall i | 0 <= i < |init| && messages[i].message.AI? ensures Answered(Contents(messages), i) {
          assert Contents(init)[i].AI?;
          assert Answered(Contents(init), i);
          assert forall k :: 0 <= k < |init| ==> Contents(messages)[k] == Contents(init)[k];
          assert (set k | i < k <= i + |messages[i].message.calls| :: Contents(messages)[k].callId)
              == (set k | i < k <= i + |messages[i].message.calls| :: Contents(init)[k].callId);
        }
      }
    }
  }

  // Whenever the history is closed - the only time the model is called - the view built
  // from it pairs every call with its results and shows or summarises each record once.
  lemma ReachableViews(stores: seq<Store>, ops: seq<Op>, n: nat)
    requires Trace(stores, ops) && n < |stores|
    requires stores[n].messages != [] && !stores[n].messages[|stores[n].messages| - 1].message.AI?
    ensures var store := stores[n];
            && 0 <= Covered(store.summaries) <= |store.messages|
            && Paired(Project(store.messages, store.summaries))
            && Project(store.messages, store.summaries)[1 + |store.summaries|..]
               == Contents(Strip(store.messages[Covered(store.summaries)..]))
            && forall i :: 0 <= i < |store.messages| ==>
                 (Summarised(store.summaries, store.messages[i].sequence) <==> i < Covered(store.summaries))
  {
    ReachableInv(stores, ops, n);
    var store := stores[n];
    TailOfWhole(store.messages);
    ClosedIfNotAI(store.messages);
    CoveredWithin(store);
    ProjectionPaired(store.messages, store.summaries);
    CoverageIsPartition(store.messages, store.summaries);
  }

  // ---------------------------------------------------------------- retry undoes a turn

  lemma {:induction false} WithoutRunAppend(a: seq<Record>, b: seq<Record>, run: RunId)
    ensures WithoutRun(a + b, run) == WithoutRun(a, run) + WithoutRun(b, run)
    decreases |b|
  {
    if b == [] {
      assert a + b == a;
    } else {
      WithoutRunAppend(a, b[..|b| - 1], run);
      assert (a + b)[..|a + b| - 1] == a + b[..|b| - 1];
    }
  }

  lemma {:induction false} WithoutRunAll(rows: seq<Record>, run: RunId)
    requires forall i :: 0 <= i < |rows| ==> rows[i].run == run
    ensures WithoutRun(rows, run) == []
  {
    if rows != [] {
      WithoutRunAll(rows[..|rows| - 1], run);
    }
  }

  lemma TurnStepIsOwn(store: Store, op: Op)
    requires store.runs != [] && Protocol(store, op) && !op.Begin? && !op.Retry?
    ensures var after := Next(store, op);
            && Ids(after.runs) == Ids(store.runs)
            && WithoutRun(after.messages, Current(store)) == WithoutRun(store.messages, Current(store))
            && WithoutSource(after.summaries, Current(store)) == WithoutSource(store.summaries, Current(store))
  {
    RunAtBound(store.runs, Current(store));
    match op
    case Turn(text, attachments) =>
      AppendIsOwn(store.messages, Current(store), Repairs(store.messages) + [Human(text, attachments)]);
    case Assistant(text, calls) => AppendIsOwn(store.messages, Current(store), [AI(text, calls)]);
    case Results(outputs) =>
      AppendIsOwn(store.messages, Current(store), CallResults(OpenCalls(store.messages), outputs));
    case Compact(percent, text) =>
      var after := Next(store, op);
      if after.summaries != store.summaries {
        assert after.summaries[..|after.summaries| - 1] == store.summaries;
      }
    case Iterate =>
    case End(_) =>
  }

  lemma AppendIsOwn(messages: seq<Record>, run: RunId, batch: seq<Message>)
    ensures WithoutRun(Append(messages, run, batch), run) == WithoutRun(messages, run)
  {
    var rows := Rows(MaxSequence(messages) + 1, run, batch);
    WithoutRunAppend(messages, rows, run);
    WithoutRunAll(rows, run);
  }

  // From the start of a run to any point inside it, taking its rows away again gives
  // exactly the tables before the run, whatever was stored, compacted or left open.
  lemma {:induction false} TurnIsOwn(stores: seq<Store>, ops: seq<Op>, id: RunId)
    requires |stores| == |ops| + 1 && ops != [] && ops[0] == Begin(id)
    requires Inv(stores[0]) && id !in Ids(stores[0].runs)
    requires forall i :: 0 <= i < |ops| ==> Protocol(stores[i], ops[i]) && stores[i + 1] == Next(stores[i], ops[i])
    requires forall i :: 0 < i < |ops| ==> !ops[i].Begin? && !ops[i].Retry?
    ensures var last := stores[|ops|];
            && last.runs != [] && Current(last) == id
            && WithoutRun(last.messages, id) == stores[0].messages
            && WithoutSource(last.summaries, id) == stores[0].summaries
  {
    var n := |ops|;
    if n == 1 {
      var ids := Ids(stores[0].runs);
      forall i | 0 <= i < |stores[0].messages| ensures stores[0].messages[i].run != id {
        PositionBound(ids, stores[0].messages[i].run);
      }
      WithoutNone(stores[0].messages, id);
      forall i | 0 <= i < |stores[0].summaries| ensures stores[0].summaries[i].source != id {
        PositionBound(ids, stores[0].summaries[i].source);
      }
      WithoutSourceNone(stores[0].summaries, id);
    } else {
      TurnIsOwn(stores[..n], ops[..n - 1], id);
      TurnStepIsOwn(stores[n - 1], ops[n - 1]);
      assert Ids(stores[n].runs)[|stores[n].runs| - 1] == Ids(stores[n - 1].runs)[|stores[n - 1].runs| - 1];
    }
  }

  lemma RetryUndoesTurn(stores: seq<Store>, ops: seq<Op>, run: Run, text: string, attachments: seq<nat>)
    requires |stores| == |ops| + 1 && ops != [] && ops[0] == Begin(run.id)
    requires Inv(stores[0]) && run.id !in Ids(stores[0].runs)
    requires forall i :: 0 <= i < |ops| ==> Protocol(stores[i], ops[i]) && stores[i + 1] == Next(stores[i], ops[i])
    requires forall i :: 0 < i < |ops| ==> !ops[i].Begin? && !ops[i].Retry?
    ensures match RemoveTurn(stores[|ops|], run, text, attachments)
            case Err(_) => true
            case Ok(after) => after.messages == stores[0].messages && after.summaries == stores[0].summaries
    ensures RemoveTurn(stores[|ops|], run, text, attachments).Ok? <==>
            && run.status != Running
            && (UsersOf(stores[|ops|].messages, run.id) == []
                || exists u :: UsersOf(stores[|ops|].messages, run.id) == [u] && u.message == Human(text, attachments))
  {
    TurnIsOwn(stores, ops, run.id);
    var users := UsersOf(stores[|ops|].messages, run.id);
    if |users| == 1 {
      assert users == [users[0]];
    }
  }
}

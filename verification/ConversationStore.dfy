/**
 The stored tables of one conversation - runs in start order, messages in
 sequence order, summaries in revision order - and the transactions on them.
 Every transaction is specified by a function on the value of the tables; the
 class performs it on the tables themselves.
 */
module ConversationStore {
  import opened Wrappers
  import opened Messages
  import opened ContextWindow

  datatype Status = Running | Completed | Failed | LimitReached | Cancelled

  datatype Run = Run(id: RunId, status: Status, iteration: nat)

  datatype Store = Store(runs: seq<Run>, messages: seq<Record>, summaries: seq<Summary>)

  datatype StoreError = RetryConflict | SummaryInvalid | RunNotRunning | IterationLimit | StatusInvalid

  const EMPTY := Store([], [], [])
  const MAX_ITERATIONS := 128
  const INTERRUPTED := "PREVIOUS_TOOL_CALL_INTERRUPTED"

  // ---------------------------------------------------------------- appending

  function MaxSequence(messages: seq<Record>): int {
    if messages == [] then 0
    else
      var before := MaxSequence(messages[..|messages| - 1]);
      var last := messages[|messages| - 1].sequence;
      if last > before then last else before
  }

  function Rows(first: int, run: RunId, batch: seq<Message>): (rows: seq<Record>)
    ensures |rows| == |batch|
    ensures forall k :: 0 <= k < |batch| ==> rows[k] == Record(first + k, run, batch[k])
  {
    seq(|batch|, k requires 0 <= k < |batch| => Record(first + k, run, batch[k]))
  }

  function Append(messages: seq<Record>, run: RunId, batch: seq<Message>): seq<Record> {
    messages + Rows(MaxSequence(messages) + 1, run, batch)
  }

  // Results for the calls a previous run left open at the end of the history.
  function Repairs(messages: seq<Record>): (batch: seq<Message>) {
    if messages == [] || !messages[|messages| - 1].message.AI? then []
    else
      var calls := messages[|messages| - 1].message.calls;
      seq(|calls|, k requires 0 <= k < |calls| => Tool(calls[k], INTERRUPTED))
  }

  function LoadTurn(messages: seq<Record>, run: RunId, text: string, attachments: seq<nat>): seq<Record> {
    Append(messages, run, Repairs(messages) + [Human(text, attachments)])
  }

  // ---------------------------------------------------------------- replacing the last turn

  function WithoutRun(messages: seq<Record>, run: RunId): seq<Record> {
    if messages == [] then []
    else
      var last := messages[|messages| - 1];
      WithoutRun(messages[..|messages| - 1], run) + if last.run == run then [] else [last]
  }

  function WithoutSource(summaries: seq<Summary>, run: RunId): seq<Summary> {
    if summaries == [] then []
    else
      var last := summaries[|summaries| - 1];
      WithoutSource(summaries[..|summaries| - 1], run) + if last.source == run then [] else [last]
  }

  // The stored user messages of one run, in order.
  function UsersOf(messages: seq<Record>, run: RunId): seq<Record> {
    if messages == [] then []
    else
      var last := messages[|messages| - 1];
      UsersOf(messages[..|messages| - 1], run) + if last.run == run && last.message.Human? then [last] else []
  }

  // `run` is the snapshot the caller read before it held the conversation lock.
  function RemoveTurn(store: Store, run: Run, text: string, attachments: seq<nat>): Result<Store, StoreError> {
    var users := UsersOf(store.messages, run.id);
    if store.runs == [] || store.runs[|store.runs| - 1].id != run.id || run.status == Running then Err(RetryConflict)
    else if |users| > 1 || (users != [] && users[0].message != Human(text, attachments)) then Err(RetryConflict)
    else Ok(Store(store.runs, WithoutRun(store.messages, run.id), WithoutSource(store.summaries, run.id)))
  }

  // ---------------------------------------------------------------- summaries

  predicate Space(c: char) {
    || '\t' <= c <= '\r' || '\U{1C}' <= c <= ' ' || c == '\U{85}' || c == '\U{A0}' || c == '\U{1680}'
    || '\U{2000}' <= c <= '\U{200A}' || c == '\U{2028}' || c == '\U{2029}' || c == '\U{202F}'
    || c == '\U{205F}' || c == '\U{3000}'
  }

  predicate Blank(text: string) {
    forall i :: 0 <= i < |text| ==> Space(text[i])
  }

  predicate HasRun(runs: seq<Run>, id: RunId) {
    exists i :: 0 <= i < |runs| && runs[i].id == id
  }

  function FirstAt(messages: seq<Record>, sequence: int): nat {
    if messages == [] then 0
    else if messages[0].sequence == sequence then 0
    else 1 + FirstAt(messages[1..], sequence)
  }

  // A summary may end at a stored record that closes a unit before its own user message.
  predicate BoundaryOk(store: Store, sequence: int, source: RunId) {
    var i := FirstAt(store.messages, sequence);
    var users := UsersOf(store.messages, source);
    && i < |store.messages|
    && HasRun(store.runs, source)
    && |users| == 1 && sequence < users[0].sequence
    && !store.messages[i].message.System?
    && Units(store.messages[..i + 1]).Some?
  }

  predicate LinkOk(store: Store, k: nat)
    requires k < |store.summaries|
  {
    var summary := store.summaries[k];
    && summary.revision > 0
    && !Blank(summary.text)
    && (k > 0 ==> summary.revision == store.summaries[k - 1].revision + 1
                  && summary.covered > store.summaries[k - 1].covered)
    && BoundaryOk(store, summary.covered, summary.source)
  }

  predicate ChainOk(store: Store) {
    forall k :: 0 <= k < |store.summaries| ==> LinkOk(store, k)
  }

  function Load(store: Store): Result<seq<Summary>, StoreError> {
    if ChainOk(store) then Ok(store.summaries) else Err(SummaryInvalid)
  }

  function Revision(summaries: seq<Summary>): int {
    if summaries == [] then 0 else summaries[|summaries| - 1].revision
  }

  function Commit(store: Store, expected: int, covered: int, text: string, source: RunId): Result<Store, StoreError> {
    if !ChainOk(store) then Err(SummaryInvalid)
    else if || Revision(store.summaries) != expected || Blank(text)
            || (store.summaries != [] && covered <= Covered(store.summaries)) then Err(SummaryInvalid)
    else if !BoundaryOk(store, covered, source) then Err(SummaryInvalid)
    else Ok(store.(summaries := store.summaries + [Summary(expected + 1, covered, text, source)]))
  }

  // ---------------------------------------------------------------- runs

  function RunAt(runs: seq<Run>, id: RunId): nat {
    if runs == [] then 0 else if runs[0].id == id then 0 else 1 + RunAt(runs[1..], id)
  }

  function Increment(runs: seq<Run>, id: RunId): Result<seq<Run>, StoreError> {
    var i := RunAt(runs, id);
    if i < |runs| && runs[i].status == Running && runs[i].iteration < MAX_ITERATIONS then
      Ok(runs[i := runs[i].(iteration := runs[i].iteration + 1)])
    else if i < |runs| && runs[i].iteration >= MAX_ITERATIONS then Err(IterationLimit)
    else Err(RunNotRunning)
  }

  function Finish(runs: seq<Run>, id: RunId, status: Status): Result<seq<Run>, StoreError> {
    var i := RunAt(runs, id);
    if status == Running then Err(StatusInvalid)
    else if i < |runs| && runs[i].status == Running then Ok(runs[i := runs[i].(status := status)])
    else Err(RunNotRunning)
  }

  // ---------------------------------------------------------------- the tables

  class ConversationTables {
    var runs: seq<Run>
    var messages: seq<Record>
    var summaries: seq<Summary>

    function Value(): Store
      reads this
    {
      Store(runs, messages, summaries)
    }

    constructor ()
      ensures Value() == EMPTY
    {
      runs, messages, summaries := [], [], [];
    }

    method StartRun(id: RunId)
      modifies this
      ensures Value() == old(Value()).(runs := old(runs) + [Run(id, Running, 0)])
    {
      runs := runs + [Run(id, Running, 0)];
    }

    method AppendMessagesAtomic(run: RunId, batch: seq<Message>) returns (sequences: seq<int>)
      modifies this`messages
      ensures messages == Append(old(messages), run, batch)
      ensures sequences == seq(|batch|, k => MaxSequence(old(messages)) + 1 + k)
    {
      sequences := [];
      if batch == [] {
        return;
      }
      var last := MaxSequence(messages);
      var added: seq<Record> := [];
      for offset := 0 to |batch|
        invariant |added| == |sequences| == offset
        invariant forall k :: 0 <= k < offset ==> added[k] == Record(last + 1 + k, run, batch[k])
        invariant forall k :: 0 <= k < offset ==> sequences[k] == last + 1 + k
      {
        var sequence := last + 1 + offset;
        added := added + [Record(sequence, run, batch[offset])];
        sequences := sequences + [sequence];
      }
      messages := messages + added;
    }

    method LoadNewTurn(run: RunId, text: string, attachments: seq<nat>)
      modifies this`messages
      ensures messages == LoadTurn(old(messages), run, text, attachments)
    {
      var additions: seq<Message> := [];
      if messages != [] && messages[|messages| - 1].message.AI? {
        var calls := messages[|messages| - 1].message.calls;
        for k := 0 to |calls|
          invariant |additions| == k
          invariant forall i :: 0 <= i < k ==> additions[i] == Tool(calls[i], INTERRUPTED)
        {
          additions := additions + [Tool(calls[k], INTERRUPTED)];
        }
      }
      assert additions == Repairs(messages);
      var _ := AppendMessagesAtomic(run, additions + [Human(text, attachments)]);
    }

    method RemoveLastTurn(run: Run, text: string, attachments: seq<nat>) returns (outcome: Result<(), StoreError>)
      modifies this`messages, this`summaries
      ensures match RemoveTurn(old(Value()), run, text, attachments)
              case Ok(after) => outcome == Ok(()) && Value() == after
              case Err(error) => outcome == Err(error) && Value() == old(Value())
    {
      if runs == [] || runs[|runs| - 1].id != run.id || run.status == Running {
        return Err(RetryConflict);
      }
      var users := UsersOf(messages, run.id);
      if |users| > 1 || (users != [] && users[0].message != Human(text, attachments)) {
        return Err(RetryConflict);
      }
      var kept: seq<Summary> := [];
      for i := 0 to |summaries|
        invariant kept == WithoutSource(summaries[..i], run.id)
      {
        assert summaries[..i + 1][..i] == summaries[..i];
        if summaries[i].source != run.id {
          kept := kept + [summaries[i]];
        }
      }
      assert summaries[..|summaries|] == summaries;
      var rows: seq<Record> := [];
      for i := 0 to |messages|
        invariant rows == WithoutRun(messages[..i], run.id)
      {
        assert messages[..i + 1][..i] == messages[..i];
        if messages[i].run != run.id {
          rows := rows + [messages[i]];
        }
      }
      assert messages[..|messages|] == messages;
      summaries, messages := kept, rows;
      outcome := Ok(());
    }

    method ValidateBoundary(sequence: int, source: RunId) returns (ok: bool)
      ensures ok == BoundaryOk(Value(), sequence, source)
    {
      var index := FirstAt(messages, sequence);
      if index >= |messages| || !HasRun(runs, source) {
        return false;
      }
      var users := UsersOf(messages, source);
      if |users| != 1 || sequence >= users[0].sequence {
        return false;
      }
      if messages[index].message.System? {
        return false;
      }
      var units := MessageUnits(messages[..index + 1]);
      ok := units.Some?;
    }

    method LoadSummaries() returns (outcome: Result<seq<Summary>, StoreError>)
      ensures outcome == Load(Value())
    {
      var loaded: seq<Summary> := [];
      for k := 0 to |summaries|
        invariant loaded == summaries[..k]
        invariant forall i :: 0 <= i < k ==> LinkOk(Value(), i)
      {
        var row := summaries[k];
        if row.revision <= 0 || Blank(row.text) {
          assert !LinkOk(Value(), k);
          return Err(SummaryInvalid);
        }
        if loaded != [] && (row.revision != loaded[|loaded| - 1].revision + 1
                            || row.covered <= loaded[|loaded| - 1].covered) {
          assert !LinkOk(Value(), k);
          return Err(SummaryInvalid);
        }
        var ok := ValidateBoundary(row.covered, row.source);
        if !ok {
          assert !LinkOk(Value(), k);
          return Err(SummaryInvalid);
        }
        loaded := loaded + [row];
      }
      assert summaries[..|summaries|] == summaries;
      outcome := Ok(loaded);
    }

    method CommitCandidate(expected: int, covered: int, text: string, source: RunId)
      returns (outcome: Result<(), StoreError>)
      modifies this`summaries
      ensures match Commit(old(Value()), expected, covered, text, source)
              case Ok(after) => outcome == Ok(()) && Value() == after
              case Err(error) => outcome == Err(error) && Value() == old(Value())
    {
      var loaded := LoadSummaries();
      if loaded.Err? {
        return Err(loaded.error);
      }
      var rows := loaded.value;
      if || Revision(rows) != expected || Blank(text)
         || (rows != [] && covered <= rows[|rows| - 1].covered) {
        return Err(SummaryInvalid);
      }
      var ok := ValidateBoundary(covered, source);
      if !ok {
        return Err(SummaryInvalid);
      }
      summaries := summaries + [Summary(expected + 1, covered, text, source)];
      outcome := Ok(());
    }

    method IncrementIteration(id: RunId) returns (outcome: Result<Run, StoreError>)
      modifies this`runs
      ensures match Increment(old(runs), id)
              case Ok(after) => runs == after && outcome == Ok(after[RunAt(old(runs), id)])
              case Err(error) => runs == old(runs) && outcome == Err(error)
    {
      RunAtBound(runs, id);
      var i := RunAt(runs, id);
      if i < |runs| && runs[i].status == Running && runs[i].iteration < MAX_ITERATIONS {
        runs := runs[i := runs[i].(iteration := runs[i].iteration + 1)];
        outcome := Ok(runs[i]);
      } else if i < |runs| && runs[i].iteration >= MAX_ITERATIONS {
        outcome := Err(IterationLimit);
      } else {
        outcome := Err(RunNotRunning);
      }
    }

    method FinishRun(id: RunId, status: Status) returns (outcome: Result<(), StoreError>)
      modifies this`runs
      ensures match Finish(old(runs), id, status)
              case Ok(after) => runs == after && outcome == Ok(())
              case Err(error) => runs == old(runs) && outcome == Err(error)
    {
      if status == Running {
        return Err(StatusInvalid);
      }
      var i := RunAt(runs, id);
      if i < |runs| && runs[i].status == Running {
        runs := runs[i := runs[i].(status := status)];
        outcome := Ok(());
      } else {
        outcome := Err(RunNotRunning);
      }
    }
  }

  lemma {:induction false} RunAtBound(runs: seq<Run>, id: RunId)
    ensures RunAt(runs, id) <= |runs|
    ensures RunAt(runs, id) < |runs| ==> runs[RunAt(runs, id)].id == id
  {
    if runs != [] {
      RunAtBound(runs[1..], id);
    }
  }
}

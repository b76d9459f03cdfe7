/**
 Stored conversation messages and the automaton that cuts a history into
 complete units: a user message, a plain assistant message, or an assistant
 message together with the results of every tool call it makes.
 */
module Messages {
  import opened Wrappers

  type RunId = nat
  type CallId = string

  datatype Message =
    | System(text: string)
    | Human(text: string, attachments: seq<nat>)
    | AI(text: string, calls: seq<CallId>)
    | Tool(callId: CallId, text: string)

  // A stored row: its number in the conversation, the run that appended it, its content.
  datatype Record = Record(sequence: int, run: RunId, message: Message)

  function Elements<T>(s: seq<T>): set<T> {
    set x | x in s
  }

  predicate Distinct<T(==)>(s: seq<T>) {
    forall i, j :: 0 <= i < j < |s| ==> s[i] != s[j]
  }

  predicate ValidCalls(calls: seq<CallId>) {
    "" !in calls && Distinct(calls)
  }

  // ---------------------------------------------------------------- the automaton

  // Units closed or opened so far, and the calls of the last unit still without a result.
  datatype Cut = Cut(units: seq<seq<Record>>, pending: set<CallId>)

  const START := Cut([], {})

  function Advance(cut: Cut, record: Record): Option<Cut> {
    var message := record.message;
    if cut.pending != {} then
      if message.Tool? && message.callId in cut.pending && cut.units != [] then
        var last := |cut.units| - 1;
        Some(Cut(cut.units[last := cut.units[last] + [record]], cut.pending - {message.callId}))
      else None
    else if message.System? then Some(cut)
    else if message.Tool? then None
    else if message.AI? && !ValidCalls(message.calls) then None
    else Some(Cut(cut.units + [[record]], if message.AI? then Elements(message.calls) else {}))
  }

  function Scan(cut: Cut, records: seq<Record>): Option<Cut> {
    if records == [] then Some(cut)
    else
      match Scan(cut, records[..|records| - 1])
      case None => None
      case Some(before) => Advance(before, records[|records| - 1])
  }

  function Units(records: seq<Record>): Option<seq<seq<Record>>> {
    match Scan(START, records)
    case Some(Cut(units, pending)) => if pending == {} then Some(units) else None
    case None => None
  }

  // The loop over the records, with its two variables, against the specification above.
  method MessageUnits(records: seq<Record>) returns (result: Option<seq<seq<Record>>>)
    ensures result == Units(records)
  {
    var units: seq<seq<Record>> := [];
    var pending: set<CallId> := {};
    for i := 0 to |records|
      invariant Scan(START, records[..i]) == Some(Cut(units, pending))
      invariant pending != {} ==> units != []
    {
      var record := records[i];
      var message := record.message;
      var before := Cut(units, pending);
      ScanFails(START, records, i + 1);
      assert records[..i + 1][..i] == records[..i];
      if pending != {} {
        if !message.Tool? || message.callId !in pending {
          return None;
        }
        var last := |units| - 1;
        units := units[last := units[last] + [record]];
        pending := pending - {message.callId};
        continue;
      }
      if message.System? {
        continue;
      }
      if !message.Human? && !message.AI? {
        return None;
      }
      units := units + [[record]];
      if message.AI? {
        if "" in message.calls || !Distinct(message.calls) {
          return None;
        }
        pending := Elements(message.calls);
      }
    }
    assert records[..|records|] == records;
    return if pending == {} then Some(units) else None;
  }

  // ---------------------------------------------------------------- composition

  lemma {:induction false} ScanAppend(cut: Cut, a: seq<Record>, b: seq<Record>)
    ensures Scan(cut, a + b) ==
            match Scan(cut, a) { case None => None case Some(middle) => Scan(middle, b) }
    decreases |b|
  {
    if b == [] {
      assert a + b == a;
    } else {
      ScanAppend(cut, a, b[..|b| - 1]);
      assert (a + b)[..|a + b| - 1] == a + b[..|b| - 1];
    }
  }

  lemma {:induction false} ScanFails(cut: Cut, records: seq<Record>, n: nat)
    requires n <= |records|
    ensures Scan(cut, records[..n]).None? ==> Scan(cut, records).None?
  {
    ScanAppend(cut, records[..n], records[n..]);
    assert records[..n] + records[n..] == records;
  }

  lemma {:induction false} ScanShape(records: seq<Record>)
    ensures Scan(START, records).Some? ==>
              var cut := Scan(START, records).value;
              && (cut.pending != {} ==> cut.units != [])
              && (forall k :: 0 <= k < |cut.units| ==> cut.units[k] != [])
  {
    if records != [] {
      ScanShape(records[..|records| - 1]);
    }
  }

  // Units already cut do not influence how the rest is cut.
  lemma {:induction false} ScanPrefix(units: seq<seq<Record>>, records: seq<Record>)
    ensures Scan(Cut(units, {}), records) ==
            match Scan(START, records) {
              case None => None
              case Some(cut) => Some(Cut(units + cut.units, cut.pending))
            }
  {
    if records == [] {
      assert units + [] == units;
    } else {
      var init := records[..|records| - 1];
      ScanPrefix(units, init);
      ScanShape(init);
      if Scan(START, init).Some? {
        var cut := Scan(START, init).value;
        var record := records[|records| - 1];
        if cut.pending != {} && record.message.Tool? && record.message.callId in cut.pending {
          var last := |cut.units| - 1;
          assert (units + cut.units)[|units| + last := cut.units[last] + [record]]
              == units + cut.units[last := cut.units[last] + [record]];
        } else {
          assert (units + cut.units) + [[record]] == units + (cut.units + [[record]]);
        }
      }
    }
  }

  lemma {:induction false} UnitsAppend(a: seq<Record>, b: seq<Record>)
    requires Units(a).Some?
    ensures Units(a + b) ==
            match Units(b) { case None => None case Some(units) => Some(Units(a).value + units) }
  {
    ScanAppend(START, a, b);
    ScanPrefix(Units(a).value, b);
  }

  lemma {:induction false} UnitsSplit(a: seq<Record>, b: seq<Record>)
    requires Units(a).Some? && Units(a + b).Some?
    ensures Units(b).Some? && Units(a + b).value == Units(a).value + Units(b).value
  {
    UnitsAppend(a, b);
  }

  // The first k complete units end at a record of the history, and the records
  // up to there are themselves a complete history with exactly those units.
  lemma {:induction false} UnitEnd(records: seq<Record>, k: nat) returns (n: nat)
    requires Scan(START, records).Some?
    requires var cut := Scan(START, records).value;
             0 < k <= |cut.units| && (k == |cut.units| ==> cut.pending == {})
    ensures 0 < n <= |records|
    ensures var units := Scan(START, records).value.units;
            && Units(records[..n]) == Some(units[..k])
            && units[k - 1] != []
            && records[n - 1] == units[k - 1][|units[k - 1]| - 1]
    ensures !records[n - 1].message.System?
  {
    var cut := Scan(START, records).value;
    var init := records[..|records| - 1];
    var record := records[|records| - 1];
    var before := Scan(START, init).value;
    ScanShape(records);
    if !record.message.System? && k == |cut.units| {
      n := |records|;
      assert records[..n] == records && cut.units[..k] == cut.units;
    } else {
      if before.pending != {} {
        assert cut.units[..k] == before.units[..k];
      } else {
        assert cut.units[..k] == before.units[..k];
      }
      n := UnitEnd(init, k);
      assert init[..n] == records[..n];
    }
  }

  // ---------------------------------------------------------------- an independent reading

  // The results directly after an assistant message answer each of its calls exactly once.
  predicate Answered(messages: seq<Message>, i: nat)
    requires i < |messages| && messages[i].AI?
  {
    var calls := messages[i].calls;
    && ValidCalls(calls)
    && i + |calls| < |messages|
    && (forall k :: i < k <= i + |calls| ==> messages[k].Tool?)
    && (set k | i < k <= i + |calls| :: messages[k].callId) == Elements(calls)
  }

  predicate Owned(messages: seq<Message>, i: nat)
    requires i < |messages|
  {
    exists j :: 0 <= j < i && messages[j].AI? && i <= j + |messages[j].calls|
  }

  predicate Paired(messages: seq<Message>) {
    && (forall i :: 0 <= i < |messages| && messages[i].AI? ==> Answered(messages, i))
    && (forall i :: 0 <= i < |messages| && messages[i].Tool? ==> Owned(messages, i))
  }

  function Contents(records: seq<Record>): (messages: seq<Message>)
    ensures |messages| == |records|
    ensures forall i :: 0 <= i < |records| ==> messages[i] == records[i].message
  {
    seq(|records|, i requires 0 <= i < |records| => records[i].message)
  }

  // ---------------------------------------------------------------- both readings agree

  predicate Closes(cut: Cut, records: seq<Record>) {
    Scan(cut, records).Some? && Scan(cut, records).value.pending == {}
  }

  lemma {:induction false} ScanHead(cut: Cut, records: seq<Record>)
    requires records != []
    ensures Scan(cut, records) ==
            match Advance(cut, records[0]) { case None => None case Some(next) => Scan(next, records[1..]) }
  {
    ScanAppend(cut, records[..1], records[1..]);
    assert records == records[..1] + records[1..];
    assert records[..1][..0] == [];
  }

  predicate StartsWithTools(records: seq<Record>, n: nat) {
    n == 0 || (records != [] && records[0].message.Tool? && StartsWithTools(records[1..], n - 1))
  }

  function LeadingIds(records: seq<Record>, n: nat): set<CallId>
    requires StartsWithTools(records, n)
  {
    if n == 0 then {} else {records[0].message.callId} + LeadingIds(records[1..], n - 1)
  }

  lemma {:induction false} LeadingIdsCount(records: seq<Record>, n: nat)
    requires StartsWithTools(records, n)
    ensures |LeadingIds(records, n)| <= n
  {
    if n > 0 {
      LeadingIdsCount(records[1..], n - 1);
    }
  }

  lemma {:induction false} LeadingLength(records: seq<Record>, n: nat)
    ensures StartsWithTools(records, n) <==>
            n <= |records| && forall k :: 0 <= k < n ==> records[k].message.Tool?
  {
    if n > 0 && records != [] {
      LeadingLength(records[1..], n - 1);
      assert n <= |records| ==> forall k :: 0 <= k < n - 1 ==> records[1..][k] == records[k + 1];
      assert forall k :: 0 < k < n && n <= |records| ==> records[k] == records[1..][k - 1];
    }
  }

  lemma {:induction false} LeadingIdsAre(records: seq<Record>, n: nat)
    requires StartsWithTools(records, n) && n <= |records|
    requires forall k :: 0 <= k < n ==> records[k].message.Tool?
    ensures LeadingIds(records, n) == set k | 0 <= k < n :: records[k].message.callId
  {
    if n > 0 {
      LeadingLength(records[1..], n - 1);
      LeadingIdsAre(records[1..], n - 1);
      var rest := set k | 0 <= k < n - 1 :: records[1..][k].message.callId;
      var ids := set k | 0 <= k < n :: records[k].message.callId;
      forall id | id in ids ensures id in {records[0].message.callId} + rest {
        var k :| 0 <= k < n && records[k].message.callId == id;
        if k > 0 { assert records[1..][k - 1] == records[k]; }
      }
      forall id | id in rest ensures id in ids {
        var k :| 0 <= k < n - 1 && records[1..][k].message.callId == id;
        assert records[k + 1] == records[1..][k];
      }
      assert ids == {records[0].message.callId} + rest;
    }
  }

  predicate Answers(pending: set<CallId>, records: seq<Record>) {
    StartsWithTools(records, |pending|) && LeadingIds(records, |pending|) == pending
  }

  // Taking off the first answer.
  lemma AnswersHead(pending: set<CallId>, records: seq<Record>)
    requires pending != {} && records != [] && records[0].message.Tool?
    ensures Answers(pending, records) <==>
            && records[0].message.callId in pending
            && Answers(pending - {records[0].message.callId}, records[1..])
  {
    var n := |pending|;
    var id := records[0].message.callId;
    if StartsWithTools(records, n) {
      LeadingIdsCount(records[1..], n - 1);
      SetHead(pending, id, LeadingIds(records[1..], n - 1));
    }
    if id in pending {
      assert |pending - {id}| == n - 1;
    }
  }

  lemma SetHead(pending: set<CallId>, id: CallId, rest: set<CallId>)
    requires |rest| < |pending|
    ensures {id} + rest == pending <==> id in pending && rest == pending - {id}
  {
    if {id} + rest == pending {
      assert id in rest ==> {id} + rest == rest;
    }
    if id in pending && rest == pending - {id} {
      assert {id} + rest == pending;
    }
  }

  // Open calls are closed exactly by the next results, one for each call.
  lemma {:induction false} Drain(units: seq<seq<Record>>, pending: set<CallId>, records: seq<Record>)
    requires units != []
    ensures Closes(Cut(units, pending), records) <==>
            |pending| <= |records| && Answers(pending, records) && Closes(START, records[|pending|..])
    decreases |pending|
  {
    LeadingLength(records, |pending|);
    if pending == {} {
      ScanPrefix(units, records);
      assert records[0..] == records;
    } else if records != [] {
      ScanHead(Cut(units, pending), records);
      var head := records[0].message;
      if head.Tool? {
        AnswersHead(pending, records);
        if head.callId in pending {
          var last := |units| - 1;
          var after := pending - {head.callId};
          Drain(units[last := units[last] + [records[0]]], after, records[1..]);
          assert |after| == |pending| - 1;
          if Answers(after, records[1..]) {
            LeadingLength(records[1..], |after|);
            assert records[1..][|after|..] == records[|pending|..];
          }
        }
      }
    }
  }

  lemma UnitsHeadGroup(records: seq<Record>)
    requires records != [] && records[0].message.AI? && ValidCalls(records[0].message.calls)
    ensures Units(records).Some? <==>
            && |records[0].message.calls| < |records|
            && Answered(Contents(records), 0)
            && Units(records[|records[0].message.calls| + 1..]).Some?
  {
    var calls := records[0].message.calls;
    var n := |calls|;
    ScanHead(START, records);
    assert START.units + [[records[0]]] == [[records[0]]];
    DistinctCount(calls);
    Drain([[records[0]]], Elements(calls), records[1..]);
    if n < |records| {
      assert records[1..][n..] == records[n + 1..];
      AnsweredHead(records, n);
    }
  }

  // The automaton accepts a history exactly when every assistant message is directly
  // followed by one result for each of its calls and every result stands in such a group.
  lemma {:induction false} UnitsIffPaired(records: seq<Record>)
    ensures Units(records).Some? <==> Paired(Contents(records))
    decreases |records|
  {
    var messages := Contents(records);
    if records != [] {
      ScanHead(START, records);
      var head := messages[0];
      if head.AI? {
        var n := |head.calls|;
        if ValidCalls(head.calls) {
          UnitsHeadGroup(records);
          if n + 1 <= |records| {
            UnitsIffPaired(records[n + 1..]);
            PairedShift(messages, n + 1);
            assert Contents(records[n + 1..]) == messages[n + 1..];
          }
        } else {
          assert !Answered(messages, 0);
        }
      } else if head.Tool? {
        assert !Owned(messages, 0);
      } else {
        assert START.units + [[records[0]]] == [[records[0]]];
        ScanPrefix(if head.System? then [] else [[records[0]]], records[1..]);
        UnitsIffPaired(records[1..]);
        PairedShift(messages, 1);
        assert Contents(records[1..]) == messages[1..];
      }
    }
  }

  lemma {:induction false} DistinctCount(calls: seq<CallId>)
    requires Distinct(calls)
    ensures |Elements(calls)| == |calls|
  {
    if calls != [] {
      var init := calls[..|calls| - 1];
      DistinctCount(init);
      assert Elements(calls) == Elements(init) + {calls[|calls| - 1]};
    }
  }

  lemma AnsweredHead(records: seq<Record>, n: nat)
    requires n + 1 <= |records| && records[0].message.AI? && |records[0].message.calls| == n
    requires ValidCalls(records[0].message.calls)
    ensures |Elements(records[0].message.calls)| == n
    ensures Answered(Contents(records), 0) <==> Answers(Elements(records[0].message.calls), records[1..])
  {
    var calls := records[0].message.calls;
    DistinctCount(calls);
    var messages := Contents(records);
    LeadingLength(records[1..], n);
    if Answered(messages, 0) {
      forall k | 0 <= k < n ensures records[1..][k].message.Tool? { assert messages[k + 1].Tool?; }
    }
    if StartsWithTools(records[1..], n) {
      forall k | 0 < k <= n ensures messages[k].Tool? { assert records[1..][k - 1].message == messages[k]; }
      LeadingIdsAre(records[1..], n);
      var ids := set k | 0 < k <= n :: messages[k].callId;
      var rest := set k | 0 <= k < n :: records[1..][k].message.callId;
      forall id | id in ids ensures id in rest {
        var k :| 0 < k <= n && messages[k].callId == id;
        assert records[1..][k - 1].message == messages[k];
      }
      forall id | id in rest ensures id in ids {
        var k :| 0 <= k < n && records[1..][k].message.callId == id;
        assert messages[k + 1] == records[1..][k].message;
      }
      assert ids == rest;
    }
  }

  predicate HeadGroup(messages: seq<Message>, n: nat) {
    && 0 < n <= |messages|
    && (messages[0].AI? ==> n == 1 + |messages[0].calls|)
    && (!messages[0].AI? ==> n == 1 && !messages[0].Tool?)
  }

  lemma PairedDrop(messages: seq<Message>, n: nat)
    requires HeadGroup(messages, n) && Paired(messages)
    ensures Paired(messages[n..])
  {
    var rest := messages[n..];
    forall i | 0 <= i < |rest| && rest[i].AI? ensures Answered(rest, i) {
      AnsweredShift(messages, n, i);
    }
    forall i | 0 <= i < |rest| && rest[i].Tool? ensures Owned(rest, i) {
      assert Owned(messages, i + n);
      var j :| 0 <= j < i + n && messages[j].AI? && i + n <= j + |messages[j].calls|;
      assert Answered(messages, j);
      assert j < n ==> j == 0;
      assert rest[j - n] == messages[j];
    }
  }

  lemma PairedGrow(messages: seq<Message>, n: nat)
    requires HeadGroup(messages, n) && Paired(messages[n..])
    requires messages[0].AI? ==> Answered(messages, 0)
    ensures Paired(messages)
  {
    var rest := messages[n..];
    forall i | 0 <= i < |messages| && messages[i].AI? ensures Answered(messages, i) {
      assert i < n ==> i == 0;
      if i >= n {
        assert rest[i - n] == messages[i];
        AnsweredShift(messages, n, i - n);
      }
    }
    forall i | 0 <= i < |messages| && messages[i].Tool? ensures Owned(messages, i) {
      if i >= n {
        assert rest[i - n] == messages[i];
        assert Owned(rest, i - n);
        var j :| 0 <= j < i - n && rest[j].AI? && i - n <= j + |rest[j].calls|;
        assert messages[j + n] == rest[j];
      }
    }
  }

  // Cutting off a head group leaves the pairing of the rest unchanged.
  lemma PairedShift(messages: seq<Message>, n: nat)
    requires HeadGroup(messages, n)
    ensures Paired(messages) <==>
            (messages[0].AI? ==> Answered(messages, 0)) && Paired(messages[n..])
  {
    if Paired(messages) {
      PairedDrop(messages, n);
    }
    if (messages[0].AI? ==> Answered(messages, 0)) && Paired(messages[n..]) {
      PairedGrow(messages, n);
    }
  }

  lemma AnsweredShift(messages: seq<Message>, n: nat, i: nat)
    requires n + i < |messages| && messages[n + i].AI?
    ensures Answered(messages[n..], i) <==> Answered(messages, n + i)
  {
    var rest := messages[n..];
    var calls := messages[n + i].calls;
    if n + i + |calls| < |messages| {
      if forall k :: n + i < k <= n + i + |calls| ==> messages[k].Tool? {
        forall k | i < k <= i + |calls| ensures rest[k].Tool? { assert messages[n + k].Tool?; }
        SameIds(messages, n, i, |calls|);
      } else {
        var k :| n + i < k <= n + i + |calls| && !messages[k].Tool?;
        assert !rest[k - n].Tool?;
      }
    }
  }

  lemma SameIds(messages: seq<Message>, n: nat, i: nat, count: nat)
    requires n + i + count < |messages|
    requires forall k :: n + i < k <= n + i + count ==> messages[k].Tool?
    requires forall k :: i < k <= i + count ==> messages[n..][k].Tool?
    ensures (set k | i < k <= i + count :: messages[n..][k].callId)
         == (set k | n + i < k <= n + i + count :: messages[k].callId)
  {
    var rest := messages[n..];
    var here := set k | i < k <= i + count :: rest[k].callId;
    var there := set k | n + i < k <= n + i + count :: messages[k].callId;
    forall id | id in here ensures id in there {
      var k :| i < k <= i + count && rest[k].callId == id;
      assert messages[n + k] == rest[k];
    }
    forall id | id in there ensures id in here {
      var k :| n + i < k <= n + i + count && messages[k].callId == id;
      assert rest[k - n] == messages[k];
    }
  }
}

/**
 The client's acceptance automaton for the events of one turn.
 */
module StreamClient {
  import opened Wrappers
  import opened StreamEvents
  import opened StreamReader

  // What the client asked for.
  datatype Input = Input(conversation: Option<nat>, session: nat)

  datatype Identity = Identity(request: nat, conversation: nat, run: nat)

  datatype Client = Client(
    expected: nat, pending: Option<(nat, string)>, approvals: set<nat>, identity: Option<Identity>,
    terminal: Option<Event>)

  const WAITING := Client(0, None, {}, None, None)

  // The client measures the failure message in UTF-16 code units.
  function Utf16Length(text: string): nat {
    if text == "" then 0 else (if text[0] >= '\U{10000}' then 2 else 1) + Utf16Length(text[1..])
  }

  predicate Length(text: string, least: nat, most: nat) {
    least <= |text| <= most
  }

  // The limits the client puts on one event; lengths count code points, but those of a delta
  // and of the failure message count UTF-16 code units.
  predicate ValidFrame(event: Event) {
    && event.sequence <= SAFE_INTEGER
    && match event.body
       case TurnStarted => true
       case ToolStart(callId, command) => Length(callId, 1, 1024) && Length(command, 1, 4096) && '\0' !in command
       case Request(_, _, callId, command, target) =>
         && Length(callId, 1, 1024) && Length(command, 1, 4096) && '\0' !in command
         && Length(target.name, 1, 80) && Length(target.host, 1, 255) && Length(target.user, 1, 128)
         && 1 <= target.port <= 65535
       case Resolution(_, callId, _) => Length(callId, 1, 1024)
       case Delta(delta) => delta != ""
       case Replace(_) => true
       case Done(iteration) => iteration <= 128
       case Failure(kind, iteration, code, message) =>
         && iteration <= 128 && Length(code, 1, 128) && 'A' <= code[0] <= 'Z'
         && (forall i :: 0 <= i < |code| ==> 'A' <= code[i] <= 'Z' || '0' <= code[i] <= '9' || code[i] == '_')
         && 1 <= Utf16Length(message) <= 256
  }

  // One event: the next state, or a rejected stream.
  function Receive(client: Client, event: Event, input: Input): Option<Client> {
    if client.terminal.Some? || !ValidFrame(event) || event.sequence != client.expected then None
    else
      var own := Identity(event.request, event.conversation, event.run);
      if client.identity.None? && (!event.body.TurnStarted?
           || (input.conversation.Some? && event.conversation != input.conversation.value)) then None
      else if client.identity.Some? && (event.body.TurnStarted? || Some(own) != client.identity) then None
      else
        var known := client.(identity := Some(own), expected := client.expected + 1);
        match event.body
        case Request(approval, session, callId, _, _) =>
          if client.pending.Some? || approval in client.approvals || session != input.session then None
          else Some(known.(pending := Some((approval, callId)), approvals := client.approvals + {approval}))
        case Resolution(approval, callId, _) =>
          if client.pending != Some((approval, callId)) then None else Some(known.(pending := None))
        case ToolStart(_, _) => if client.pending.Some? then None else Some(known)
        case Done(_) => if client.pending.Some? then None else Some(known.(terminal := Some(event)))
        case Failure(_, _, _, _) => Some(known.(terminal := Some(event)))
        case _ => Some(known)
  }

  function ReceiveAll(events: seq<Event>, input: Input): Option<Client> {
    if events == [] then Some(WAITING)
    else
      match ReceiveAll(events[..|events| - 1], input)
      case None => None
      case Some(client) => Receive(client, events[|events| - 1], input)
  }

  method AcceptEvents(events: seq<Event>, input: Input) returns (result: Option<Event>, valid: bool)
    ensures valid <==> ReceiveAll(events, input).Some?
    ensures valid ==> result == ReceiveAll(events, input).value.terminal
  {
    var client := WAITING;
    for i := 0 to |events|
      invariant ReceiveAll(events[..i], input) == Some(client)
    {
      assert events[..i + 1][..i] == events[..i];
      var next := Receive(client, events[i], input);
      if next.None? {
        RejectedStays(events, i + 1, input);
        return None, false;
      }
      client := next.value;
    }
    assert events[..|events|] == events;
    return client.terminal, true;
  }

  lemma {:induction false} RejectedStays(events: seq<Event>, n: nat, input: Input)
    requires n <= |events| && ReceiveAll(events[..n], input).None?
    ensures ReceiveAll(events, input).None?
    decreases |events| - n
  {
    if n == |events| {
      assert events[..n] == events;
    } else {
      assert events[..n + 1][..n] == events[..n];
      RejectedStays(events, n + 1, input);
    }
  }

  // ---------------------------------------------------------------- what the client accepts

  predicate Ends(body: Body) {
    body.Done? || body.Failure?
  }

  // The request made at `j` is still undecided just before `i`.
  predicate Asks(events: seq<Event>, j: int, i: int) {
    && 0 <= j < i <= |events| && events[j].body.Request?
    && forall k :: j < k < i ==> !events[k].body.Resolution?
  }

  ghost predicate Idle(events: seq<Event>, i: int) {
    forall j :: !Asks(events, j, i)
  }

  predicate SameRun(a: Event, b: Event) {
    a.request == b.request && a.conversation == b.conversation && a.run == b.run
  }

  // What one event needs of those before it.
  ghost predicate Fitting(events: seq<Event>, i: int, input: Input)
    requires 0 <= i < |events|
  {
    var body := events[i].body;
    && ValidFrame(events[i]) && events[i].sequence == i && SameRun(events[i], events[0])
    && (body.TurnStarted? <==> i == 0)
    && (i == 0 && input.conversation.Some? ==> events[0].conversation == input.conversation.value)
    && (i > 0 ==> !Ends(events[i - 1].body))
    && (body.Request? ==>
          && body.session == input.session && Idle(events, i)
          && forall j :: 0 <= j < i && events[j].body.Request? ==> events[j].body.approval != body.approval)
    && (body.Resolution? ==> Awaits(events, i, body.approval, body.callId))
    && (body.ToolStart? || body.Done? ==> Idle(events, i))
  }

  ghost predicate ValidStream(events: seq<Event>, input: Input) {
    forall i :: 0 <= i < |events| ==> Fitting(events, i, input)
  }

  lemma FittingInit(events: seq<Event>, i: int, input: Input)
    requires 0 <= i < |events| - 1
    ensures Fitting(events, i, input) <==> Fitting(events[..|events| - 1], i, input)
  {
    hide ValidFrame;
    var init := events[..|events| - 1];
    forall j ensures Asks(events, j, i) <==> Asks(init, j, i) {}
    if events[i].body.Resolution? {
      AwaitsSame(events, init, i, events[i].body.approval, events[i].body.callId);
    }
    hide Asks;
  }

  lemma AwaitsSame(a: seq<Event>, b: seq<Event>, i: int, approval: nat, callId: string)
    requires 0 <= i <= |a| && i <= |b| && a[..i] == b[..i]
    ensures Awaits(a, i, approval, callId) <==> Awaits(b, i, approval, callId)
  {
    assert forall k :: 0 <= k < i ==> a[k] == a[..i][k] && b[k] == b[..i][k];
    forall j ensures Asks(a, j, i) <==> Asks(b, j, i) {}
  }

  // What the client knows after the events it accepted.
  ghost predicate Knows(client: Client, events: seq<Event>) {
    && client.expected == |events|
    && client.identity == (if events == [] then None
                           else Some(Identity(events[0].request, events[0].conversation, events[0].run)))
    && client.terminal == (if events != [] && Ends(events[|events| - 1].body) then Some(events[|events| - 1]) else None)
    && (forall id :: id in client.approvals <==>
          exists j :: 0 <= j < |events| && events[j].body.Request? && events[j].body.approval == id)
    && (client.pending.None? ==> Idle(events, |events|))
    && (client.pending.Some? ==>
          exists j :: Asks(events, j, |events|) && client.pending == Some((events[j].body.approval, events[j].body.callId)))
  }

  lemma OneAsks(events: seq<Event>, input: Input, j: int, l: int, i: int)
    requires ValidStream(events, input) && Asks(events, j, i) && Asks(events, l, i)
    ensures j == l
  {
    if j < l {
      assert Fitting(events, l, input) && Asks(events, j, l);
    }
    if l < j {
      assert Fitting(events, j, input) && Asks(events, l, j);
    }
  }

  lemma AsksGrows(init: seq<Event>, last: Event, j: int)
    ensures Asks(init + [last], j, |init| + 1) <==>
            (j == |init| && last.body.Request?) || (Asks(init, j, |init|) && !last.body.Resolution?)
    ensures Asks(init + [last], j, |init|) <==> Asks(init, j, |init|)
  {
    var events := init + [last];
    assert forall k :: 0 <= k < |init| ==> events[k] == init[k];
    assert events[|init|] == last;
    if Asks(init, j, |init|) && !last.body.Resolution? {
      forall k | j < k < |init| + 1 ensures !events[k].body.Resolution? {
        assert k < |init| ==> !init[k].body.Resolution?;
      }
    }
    if Asks(events, j, |init| + 1) && j < |init| {
      assert !events[|init|].body.Resolution?;
      forall k | j < k < |init| ensures !init[k].body.Resolution? {
        assert !events[k].body.Resolution?;
      }
    }
    if Asks(events, j, |init|) {
      forall k | j < k < |init| ensures !init[k].body.Resolution? {
        assert !events[k].body.Resolution?;
      }
    }
  }

  // The request the client waits for, seen from the events.
  lemma PendingIs(client: Client, init: seq<Event>, last: Event, input: Input, approval: nat, callId: string)
    requires ValidStream(init, input) && Knows(client, init)
    ensures client.pending.None? <==> Idle(init + [last], |init|)
    ensures client.pending == Some((approval, callId)) <==> Awaits(init + [last], |init|, approval, callId)
  {
    var events := init + [last];
    hide ValidStream;
    forall j ensures Asks(events, j, |init|) <==> Asks(init, j, |init|) {
      AsksGrows(init, last, j);
    }
    if client.pending.Some? {
      var j :| Asks(init, j, |init|) && client.pending == Some((init[j].body.approval, init[j].body.callId));
      assert Asks(events, j, |init|) && events[j] == init[j];
      forall l | Asks(events, l, |init|) ensures l == j {
        OneAsks(init, input, j, l, |init|);
      }
    } else {
      assert forall j :: !Asks(init, j, |init|);
    }
  }

  ghost predicate Awaits(events: seq<Event>, i: int, approval: nat, callId: string) {
    exists j :: Asks(events, j, i) && events[j].body.approval == approval && events[j].body.callId == callId
  }

  lemma ReceiveFits(client: Client, init: seq<Event>, last: Event, input: Input)
    requires ValidStream(init, input) && Knows(client, init)
    ensures Receive(client, last, input).Some? <==> Fitting(init + [last], |init|, input)
  {
    var events := init + [last];
    if last.body.Resolution? {
      PendingIs(client, init, last, input, last.body.approval, last.body.callId);
    } else {
      PendingIs(client, init, last, input, 0, "");
    }
    assert events[|init|] == last && (init != [] ==> events[|init| - 1] == init[|init| - 1] && events[0] == init[0]);
    assert forall j :: 0 <= j < |init| ==> events[j] == init[j];
    hide ValidFrame, Asks, Idle, ValidStream;
  }

  lemma ApprovalsKnown(client: Client, init: seq<Event>, last: Event, input: Input, id: nat)
    requires Knows(client, init) && Receive(client, last, input).Some?
    ensures id in Receive(client, last, input).value.approvals <==>
            exists j :: 0 <= j < |init| + 1 && (init + [last])[j].body.Request? && (init + [last])[j].body.approval == id
  {
    var events := init + [last];
    hide ValidFrame, Asks, Idle;
    if id in client.approvals {
      var j :| 0 <= j < |init| && init[j].body.Request? && init[j].body.approval == id;
      assert events[j] == init[j];
    }
    assert events[|init|] == last;
  }

  lemma PendingKnown(client: Client, init: seq<Event>, last: Event, input: Input)
    requires Knows(client, init) && Receive(client, last, input).Some?
    ensures var events, pending := init + [last], Receive(client, last, input).value.pending;
            && (pending.None? ==> Idle(events, |events|))
            && (pending.Some? ==>
                  exists j :: Asks(events, j, |events|) && pending == Some((events[j].body.approval, events[j].body.callId)))
  {
    var events := init + [last];
    hide ValidFrame;
    forall j ensures Asks(events, j, |init| + 1) <==>
                     (j == |init| && last.body.Request?) || (Asks(init, j, |init|) && !last.body.Resolution?) {
      AsksGrows(init, last, j);
    }
    if last.body.Request? {
      assert Asks(events, |init|, |init| + 1);
    } else if client.pending.Some? && !last.body.Resolution? {
      var j :| Asks(init, j, |init|) && client.pending == Some((init[j].body.approval, init[j].body.callId));
      assert Asks(events, j, |init| + 1) && events[j] == init[j];
    } else {
      assert Receive(client, last, input).value.pending.None? && |events| == |init| + 1;
      assert !last.body.Resolution? ==> Idle(init, |init|);
      forall j ensures !Asks(events, j, |events|) {
        assert !Asks(init, j, |init|) || last.body.Resolution?;
      }
    }
  }

  lemma ReceiveKnows(client: Client, init: seq<Event>, last: Event, input: Input)
    requires Knows(client, init) && Receive(client, last, input).Some?
    ensures Knows(Receive(client, last, input).value, init + [last])
  {
    var events, next := init + [last], Receive(client, last, input).value;
    forall id
      ensures id in next.approvals <==>
              exists j :: 0 <= j < |events| && events[j].body.Request? && events[j].body.approval == id
    {
      ApprovalsKnown(client, init, last, input, id);
    }
    PendingKnown(client, init, last, input);
    assert events[|init|] == last && (init != [] ==> events[0] == init[0]);
    hide ValidFrame, Asks, Idle;
  }

  // The client accepts exactly the streams in which every event fits those before it.
  lemma {:induction false} AcceptsIff(events: seq<Event>, input: Input)
    ensures ReceiveAll(events, input).Some? <==> ValidStream(events, input)
    ensures ReceiveAll(events, input).Some? ==> Knows(ReceiveAll(events, input).value, events)
  {
    if events != [] {
      var n := |events| - 1;
      var init, last := events[..n], events[n];
      assert events == init + [last];
      AcceptsIff(init, input);
      ValidGrows(events, input);
      if ReceiveAll(init, input).Some? {
        ReceiveFits(ReceiveAll(init, input).value, init, last, input);
        if Receive(ReceiveAll(init, input).value, last, input).Some? {
          ReceiveKnows(ReceiveAll(init, input).value, init, last, input);
        }
      }
      hide Fitting, ValidStream, Knows, Receive;
    } else {
      hide Receive;
    }
  }

  lemma ValidGrows(events: seq<Event>, input: Input)
    requires events != []
    ensures ValidStream(events, input) <==>
            ValidStream(events[..|events| - 1], input) && Fitting(events, |events| - 1, input)
  {
    hide Fitting;
    var init := events[..|events| - 1];
    forall i | 0 <= i < |init| ensures Fitting(events, i, input) <==> Fitting(init, i, input) {
      FittingInit(events, i, input);
    }
    if ValidStream(init, input) && Fitting(events, |init|, input) {
      forall i | 0 <= i < |events| ensures Fitting(events, i, input) {
        if i < |init| {
          assert Fitting(init, i, input);
        }
      }
    }
    if ValidStream(events, input) {
      forall i | 0 <= i < |init| ensures Fitting(init, i, input) {
        assert Fitting(events, i, input);
      }
    }
  }
}

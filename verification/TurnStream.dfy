/**
 The whole way of a turn's events: what the publisher can put on the stream under the
 service's call protocol, within its byte budget, and what the client makes of it.
 */
module TurnStream {
  import opened Wrappers
  import EF = EventFrames
  import AP = Approvals
  import opened Sequences
  import opened StreamEvents
  import opened TurnEvents
  import opened EventPublisher
  import opened StreamReader
  import opened StreamClient

  // ---------------------------------------------------------------- events and calls

  function CallOf(body: Body): SinkCall {
    match body
    case TurnStarted => Started
    case ToolStart(callId, command) => ToolStarted(callId, command)
    case Request(approval, session, callId, command, _) => ApprovalRequested(approval, session, callId, command)
    case Resolution(approval, callId, approved) => ApprovalResolved(approval, callId, approved)
    case Delta(delta) => TextDelta(delta)
    case Replace(text) => TextReplace(text)
    case Done(iteration) => Completed(iteration)
    case Failure(kind, iteration, code, message) => Failed(kind, iteration, code, message)
  }

  function CallsOf(queue: seq<Event>): (calls: seq<SinkCall>)
    ensures |calls| == |queue| && forall i :: 0 <= i < |calls| ==> calls[i] == CallOf(queue[i].body)
  {
    seq(|queue|, i requires 0 <= i < |queue| => CallOf(queue[i].body))
  }

  // The events of one run, numbered from zero, each within its limits.
  predicate Numbered(c: Context, owner: RunRef, queue: seq<Event>) {
    forall i :: 0 <= i < |queue| ==>
      && ValidBody(queue[i].body)
      && queue[i] == Event(c.request, i, owner.conversation, owner.run, queue[i].body)
  }

  predicate ShortMessage(body: Body) {
    body.Failure? ==> Utf16Length(body.message) <= 256
  }

  predicate Expected(input: Input, c: Context, owner: RunRef) {
    input.session == c.session && (input.conversation.Some? ==> input.conversation.value == owner.conversation)
  }

  // ---------------------------------------------------------------- the client follows the protocol

  predicate Follows(client: Client, c: Context, owner: RunRef, n: nat, phase: Phase, last: Option<Event>) {
    && client.expected == n
    && client.identity == (if n == 0 then None else Some(Identity(c.request, owner.conversation, owner.run)))
    && match phase
       case Before => client == WAITING
       case Open(pending, asked) => client.pending == pending && client.approvals == asked && client.terminal.None?
       case Sealed => client.terminal.Some? && client.terminal == last
       case Broken => false
  }

  lemma ShortIsPositive(text: string)
    requires text != ""
    ensures Utf16Length(text) >= 1
  {
  }

  lemma ReceiveFollows(client: Client, c: Context, owner: RunRef, n: nat, phase: Phase, event: Event, input: Input)
    requires Follows(client, c, owner, n, phase, client.terminal) && phase != Sealed && Expected(input, c, owner)
    requires n <= SAFE_INTEGER && (n == 0 <==> phase == Before)
    requires event == Event(c.request, n, owner.conversation, owner.run, event.body) && ValidBody(event.body)
    requires Advance(phase, CallOf(event.body), c.session) != Broken
    ensures if ShortMessage(event.body)
            then Receive(client, event, input).Some?
                 && Follows(Receive(client, event, input).value, c, owner, n + 1,
                            Advance(phase, CallOf(event.body), c.session), Some(event))
            else Receive(client, event, input).None?
  {
    if event.body.Failure? {
      ShortIsPositive(event.body.message);
    }
    hide ValidCommand, ValidTarget, ValidCode, FailureKind;
  }

  lemma PhaseOfPrefix(queue: seq<Event>, session: nat)
    requires queue != []
    ensures PhaseAfter(CallsOf(queue), session) ==
            Advance(PhaseAfter(CallsOf(queue[..|queue| - 1]), session), CallOf(queue[|queue| - 1].body), session)
  {
    var calls := CallsOf(queue);
    assert calls[..|calls| - 1] == CallsOf(queue[..|queue| - 1]);
  }

  lemma {:induction false} BrokenStays(queue: seq<Event>, n: nat, session: nat)
    requires n <= |queue| && PhaseAfter(CallsOf(queue), session) != Broken
    ensures PhaseAfter(CallsOf(queue[..n]), session) != Broken
    ensures n < |queue| ==> PhaseAfter(CallsOf(queue[..n]), session) != Sealed
  {
    if n == |queue| {
      assert queue[..n] == queue;
    } else {
      var init := queue[..|queue| - 1];
      PhaseOfPrefix(queue, session);
      BrokenStays(init, n, session);
      assert init[..n] == queue[..n];
      if n == |init| { assert init[..n] == init; }
    }
  }

  lemma {:induction false} PhaseStarts(queue: seq<Event>, session: nat)
    ensures PhaseAfter(CallsOf(queue), session) == Before <==> queue == []
  {
    if queue != [] {
      PhaseOfPrefix(queue, session);
    }
  }

  predicate AllShort(queue: seq<Event>) {
    forall i :: 0 <= i < |queue| ==> ShortMessage(queue[i].body)
  }

  lemma AllShortLast(queue: seq<Event>)
    requires queue != []
    ensures AllShort(queue) <==> AllShort(queue[..|queue| - 1]) && ShortMessage(queue[|queue| - 1].body)
  {
    assert forall i :: 0 <= i < |queue| - 1 ==> queue[..|queue| - 1][i] == queue[i];
    hide ShortMessage;
  }

  lemma ReceiveLast(queue: seq<Event>, input: Input)
    requires queue != []
    ensures ReceiveAll(queue, input) ==
            match ReceiveAll(queue[..|queue| - 1], input) {
              case None => None
              case Some(client) => Receive(client, queue[|queue| - 1], input)
            }
  {
    hide Receive;
  }

  function Last(queue: seq<Event>): Option<Event> {
    if queue == [] then None else Some(queue[|queue| - 1])
  }

  // The client accepts exactly the streams without an over-long failure message, and is
  // then in the phase the calls have reached.
  lemma {:induction false} ClientFollows(c: Context, owner: RunRef, queue: seq<Event>, input: Input)
    requires Numbered(c, owner, queue) && Expected(input, c, owner) && |queue| <= SAFE_INTEGER
    requires PhaseAfter(CallsOf(queue), c.session) != Broken
    ensures ReceiveAll(queue, input).Some? <==> AllShort(queue)
    ensures ReceiveAll(queue, input).Some? ==>
              Follows(ReceiveAll(queue, input).value, c, owner, |queue|, PhaseAfter(CallsOf(queue), c.session), Last(queue))
  {
    hide PhaseAfter, Numbered, ShortMessage, Receive, Advance;
    if queue != [] {
      hide Follows, ReceiveAll, AllShort, Last;
      var n := |queue| - 1;
      var init := queue[..n];
      PhaseOfPrefix(queue, c.session);
      BrokenStays(queue, n, c.session);
      PhaseStarts(init, c.session);
      LastEvent(c, owner, queue);
      ClientFollows(c, owner, init, input);
      AllShortLast(queue);
      ReceiveLast(queue, input);
      LastIs(queue);
      if ReceiveAll(init, input).Some? {
        var client := ReceiveAll(init, input).value;
        FollowsAnyLast(client, c, owner, n, PhaseAfter(CallsOf(init), c.session), Last(init));
        ReceiveFollows(client, c, owner, n, PhaseAfter(CallsOf(init), c.session), queue[n], input);
      }
    } else {
      PhaseStarts(queue, c.session);
    }
  }

  lemma LastIs(queue: seq<Event>)
    requires queue != []
    ensures Last(queue) == Some(queue[|queue| - 1])
  {
  }

  lemma LastEvent(c: Context, owner: RunRef, queue: seq<Event>)
    requires queue != [] && Numbered(c, owner, queue)
    ensures var last := queue[|queue| - 1];
            last == Event(c.request, |queue| - 1, owner.conversation, owner.run, last.body) && ValidBody(last.body)
    ensures Numbered(c, owner, queue[..|queue| - 1])
  {
  }

  lemma FollowsAnyLast(client: Client, c: Context, owner: RunRef, n: nat, phase: Phase, last: Option<Event>)
    requires Follows(client, c, owner, n, phase, last)
    ensures Follows(client, c, owner, n, phase, client.terminal)
  {
  }

  // ---------------------------------------------------------------- what the publisher emits

  datatype Attempt = Attempt(call: SinkCall, run: RunRef, put: Put)

  function StateAfter(c: Context, attempts: seq<Attempt>): State {
    if attempts == [] then NEW_STREAM
    else
      var last := attempts[|attempts| - 1];
      Publish(c, StateAfter(c, attempts[..|attempts| - 1]), last.call, last.run, last.put).0
  }

  // The calls that returned without raising.
  function Succeeded(c: Context, attempts: seq<Attempt>): seq<SinkCall> {
    if attempts == [] then []
    else
      var init, last := attempts[..|attempts| - 1], attempts[|attempts| - 1];
      Succeeded(c, init)
      + if Publish(c, StateAfter(c, init), last.call, last.run, last.put).1.None? then [last.call] else []
  }

  // Each attempt is one the turn's protocol allows after the calls that succeeded.
  predicate Obeys(c: Context, attempts: seq<Attempt>) {
    attempts == [] ||
    (Obeys(c, attempts[..|attempts| - 1])
     && Advance(PhaseAfter(Succeeded(c, attempts[..|attempts| - 1]), c.session), attempts[|attempts| - 1].call, c.session)
        != Broken)
  }

  predicate Budget(c: Context, s: State) {
    && s.sequence <= |s.queue|
    && s.encodedBytes == Sizes(s.queue[..s.sequence], c.show)
    && s.sequence <= s.encodedBytes
    && s.encodedBytes + (if s.isSealed then 0 else TERMINAL_RESERVE) <= EF.BODY_LIMIT
    && Sizes(s.queue, c.show) <= EF.BODY_LIMIT
    && forall i :: 0 <= i < |s.queue| ==> EventSize(s.queue[i], c.show) <= EF.FRAME_LIMIT
  }

  predicate Emitted(c: Context, s: State, calls: seq<SinkCall>) {
    && s.identity.Some?
    && s.sequence == |calls| <= |s.queue| <= s.sequence + (if s.gone then 1 else 0)
    && (s.sequence == 0 ==> s.gone)
    && CallsOf(s.queue[..s.sequence]) == calls
    && Numbered(c, s.identity.value, s.queue)
    && PhaseAfter(CallsOf(s.queue), c.session) != Broken
  }

  predicate Linked(c: Context, s: State, calls: seq<SinkCall>) {
    if s.identity.None? then s == NEW_STREAM && calls == []
    else
      && Emitted(c, s, calls) && Budget(c, s)
      && (s.isSealed <==> PhaseAfter(calls, c.session).Sealed?)
      && Flatten(s.parts) == TextOf(calls)
  }

  lemma CallOfBody(call: SinkCall, target: AP.Target)
    ensures CallOf(BodyOf(call, target)) == call
  {
  }

  // An event says what the call said.
  lemma BodySays(call: SinkCall, target: AP.Target)
    ensures var body := BodyOf(call, target);
            match call
            case Started => body.TurnStarted?
            case ToolStarted(callId, command) => body.ToolStart? && body.callId == callId && body.command == command
            case ApprovalRequested(approval, session, callId, command) =>
              && body.Request? && body.approval == approval && body.session == session
              && body.callId == callId && body.command == command && body.target == target
            case ApprovalResolved(approval, callId, approved) =>
              body.Resolution? && body.approval == approval && body.callId == callId && body.approved == approved
            case TextDelta(delta) => body.Delta? && body.delta == delta
            case TextReplace(text) => body.Replace? && body.text == text
            case Completed(iteration) => body.Done? && body.iteration == iteration
            case Failed(status, iteration, code, message) =>
              && body.Failure? && body.kind == status && body.iteration == iteration
              && body.code == code && body.message == message
  {
  }

  // A call returns exactly if the stream is open for it - not yet started for the first,
  // started, unsealed and of the same run for the others -, its event is valid, fits a frame
  // and leaves the reserve, and the consumer is there and takes it; the event is then the
  // next one of the queue.
  lemma PublishOkIff(c: Context, s: State, call: SinkCall, run: RunRef, put: Put)
    requires s.identity.None? ==> s == NEW_STREAM
    ensures var (after, error) := Publish(c, s, call, run, put);
            var body := BodyOf(call, c.target);
            var owner := if s.identity.Some? then s.identity.value else run;
            var event := Event(c.request, s.sequence, owner.conversation, owner.run, body);
            var size := EventSize(event, c.show);
            && (error == None <==>
                  && (if call.Started? then s.identity.None? else s.identity.Some? && !s.isSealed)
                  && (call.ApprovalRequested? || call.Completed? || call.Failed? ==> s.identity == Some(run))
                  && ValidBody(body) && size <= 65536
                  && s.encodedBytes + size <= (if call.Completed? || call.Failed? then 4194304 else 4194304 - 65536)
                  && !s.gone && put.Accepted?)
            && (error == None ==>
                  && after.queue == s.queue + [event] && after.identity == Some(owner)
                  && after.sequence == s.sequence + 1 && after.encodedBytes == s.encodedBytes + size
                  && (after.isSealed <==> call.Completed? || call.Failed?) && !after.gone)
            && (error.Some? && error != Some(Cancelled) ==> after == s)
            && (error == Some(AlreadyStarted) <==> call.Started? && s.identity.Some?)
            && (error == Some(NotOpen) <==> !call.Started? && (s.identity.None? || s.isSealed))
            && (error == Some(RunMismatch) ==> s.identity.Some? && s.identity != Some(run))
            && (error == Some(InvalidEvent) ==> !ValidBody(body))
            && (error == Some(ResponseTooLarge) ==>
                  size > 65536 || s.encodedBytes + size > 4194304
                  || (!call.Completed? && !call.Failed? && s.encodedBytes + size > 4194304 - 65536))
            && (error == Some(Cancelled) ==> s.gone || put.Lost?)
  {
    hide EventSize, ValidBody;
  }

  lemma SizesStep(queue: seq<Event>, event: Event, show: nat -> string)
    ensures Sizes(queue + [event], show) == Sizes(queue, show) + EventSize(event, show)
  {
    assert (queue + [event])[..|queue|] == queue;
    hide EventSize;
  }

  lemma EventSizePositive(event: Event, show: nat -> string)
    ensures EventSize(event, show) > 0
  {
    var text := EF.Encode(FrameOf(event, show));
    assert text != "" && EF.Size(text) >= 1;
  }

  // The event a call makes extends the emitted ones by one step of the protocol.
  lemma AddedEvent(c: Context, owner: RunRef, queue: seq<Event>, call: SinkCall, event: Event)
    requires Numbered(c, owner, queue)
    requires event == Event(c.request, |queue|, owner.conversation, owner.run, BodyOf(call, c.target))
    requires ValidBody(event.body)
    ensures Numbered(c, owner, queue + [event])
    ensures CallsOf(queue + [event]) == CallsOf(queue) + [call]
    ensures PhaseAfter(CallsOf(queue + [event]), c.session) == Advance(PhaseAfter(CallsOf(queue), c.session), call, c.session)
  {
    CallOfBody(call, c.target);
    assert CallsOf(queue + [event]) == CallsOf(queue) + [call];
    PhaseStep(CallsOf(queue), call, c.session);
    hide ValidBody, PhaseAfter, Advance, BodyOf;
  }

  lemma TextStep(parts: seq<string>, calls: seq<SinkCall>, call: SinkCall)
    requires Flatten(parts) == TextOf(calls)
    ensures Flatten(PartsAfter(parts, call)) == TextOf(calls + [call])
  {
    assert (calls + [call])[..|calls|] == calls;
    match call
    case TextDelta(delta) => assert (parts + [delta])[..|parts|] == parts;
    case TextReplace(text) =>
      assert [text][..0] == [];
      assert "" + text == text;
    case _ =>
  }

  // ---------------------------------------------------------------- one attempt

  // What a call that gets as far as the queue leaves behind.
  predicate Reaches(c: Context, s: State, attempt: Attempt, owner: RunRef, event: Event) {
    && (if s.identity.None? then attempt.call.Started? && owner == attempt.run
        else !attempt.call.Started? && !s.isSealed && s.identity == Some(owner))
    && event == Event(c.request, s.sequence, owner.conversation, owner.run, BodyOf(attempt.call, c.target))
    && ValidBody(event.body)
    && FitsBudget(s, EventSize(event, c.show), IsTerminal(event.body))
  }

  function Stored(s: State, owner: RunRef, event: Event): State {
    s.(identity := Some(owner), queue := s.queue + [event])
  }

  lemma PublishCases(c: Context, s: State, attempt: Attempt) returns (owner: RunRef, event: Event)
    requires s.identity.None? ==> s == NEW_STREAM
    ensures var (after, error) := Publish(c, s, attempt.call, attempt.run, attempt.put);
            || (after == s && error.Some?)
            || (Reaches(c, s, attempt, owner, event)
                && (|| (error == Some(Cancelled) && s.gone && after == s)
                    || (error == Some(Cancelled) && !s.gone && after == s.(identity := Some(owner), gone := true))
                    || (error == Some(Cancelled) && !s.gone && after == Stored(s, owner, event).(gone := true))
                    || (error == None && !s.gone
                        && after == Stored(s, owner, event).(
                             encodedBytes := s.encodedBytes + EventSize(event, c.show), sequence := s.sequence + 1,
                             parts := PartsAfter(s.parts, attempt.call), isSealed := IsTerminal(event.body)))))
  {
    owner := if s.identity.Some? then s.identity.value else attempt.run;
    event := Event(c.request, s.sequence, owner.conversation, owner.run, BodyOf(attempt.call, c.target));
    hide EventSize, ValidBody, BodyOf, IsTerminal;
  }

  // Before a successful or half-successful put: what is emitted equals what succeeded.
  predicate Even(c: Context, s: State, calls: seq<SinkCall>, owner: RunRef) {
    && !s.gone && |s.queue| == s.sequence == |calls| && CallsOf(s.queue) == calls
    && Numbered(c, owner, s.queue) && PhaseAfter(calls, c.session) != Broken
    && s.encodedBytes == Sizes(s.queue, c.show) && s.sequence <= s.encodedBytes
    && (forall i :: 0 <= i < |s.queue| ==> EventSize(s.queue[i], c.show) <= EF.FRAME_LIMIT)
    && Flatten(s.parts) == TextOf(calls)
    && s.encodedBytes + (if s.isSealed then 0 else TERMINAL_RESERVE) <= EF.BODY_LIMIT
    && (s.isSealed <==> PhaseAfter(calls, c.session).Sealed?)
  }

  lemma LinkedIsEven(c: Context, s: State, calls: seq<SinkCall>, attempt: Attempt, owner: RunRef, event: Event)
    requires Linked(c, s, calls) && !s.gone && Reaches(c, s, attempt, owner, event)
    ensures Even(c, s, calls, owner)
  {
    assert s.queue[..|s.queue|] == s.queue;
    hide EventSize, ValidBody, BodyOf;
  }

  // A put that lost the race before it reached the queue.
  lemma LostKeepsLinked(c: Context, s: State, calls: seq<SinkCall>, owner: RunRef)
    requires Linked(c, s, calls) && (s.identity.Some? ==> s.identity == Some(owner))
    ensures Linked(c, s.(identity := Some(owner), gone := true), calls)
  {
    hide EventSize, ValidBody;
    if s.identity.None? {
      LostStart(c, owner);
    } else {
      hide Numbered, PhaseAfter, Sizes;
    }
  }

  lemma LostStart(c: Context, owner: RunRef)
    ensures Linked(c, NEW_STREAM.(identity := Some(owner), gone := true), [])
  {
    hide EventSize, ValidBody;
    assert CallsOf([]) == [];
  }

  lemma BudgetStep(c: Context, s: State, event: Event, terminal: bool)
    requires s.encodedBytes == Sizes(s.queue, c.show) && FitsBudget(s, EventSize(event, c.show), terminal)
    ensures Sizes(s.queue + [event], c.show) == s.encodedBytes + EventSize(event, c.show) <= EF.BODY_LIMIT
    ensures EventSize(event, c.show) > 0
  {
    hide EventSize;
    SizesStep(s.queue, event, c.show);
    EventSizePositive(event, c.show);
  }

  lemma BudgetGrows(c: Context, s: State, event: Event, calls: seq<SinkCall>, owner: RunRef, after: State)
    requires Even(c, s, calls, owner) && FitsBudget(s, EventSize(event, c.show), IsTerminal(event.body))
    requires after.queue == s.queue + [event]
    requires (after.sequence == s.sequence && after.encodedBytes == s.encodedBytes && after.isSealed == s.isSealed)
             || (after.sequence == s.sequence + 1 && after.encodedBytes == s.encodedBytes + EventSize(event, c.show)
                 && after.isSealed == IsTerminal(event.body))
    ensures Budget(c, after)
  {
    hide EventSize, IsTerminal, Numbered, PhaseAfter;
    BudgetStep(c, s, event, IsTerminal(event.body));
    assert after.queue[..s.sequence] == s.queue && after.queue[..s.sequence + 1] == after.queue;
    hide Sizes;
  }

  // A put that lost the race after it reached the queue.
  lemma HalfLostKeepsLinked(c: Context, s: State, calls: seq<SinkCall>, attempt: Attempt, owner: RunRef, event: Event)
    requires Even(c, s, calls, owner) && Reaches(c, s, attempt, owner, event)
    requires Advance(PhaseAfter(calls, c.session), attempt.call, c.session) != Broken
    ensures Linked(c, Stored(s, owner, event).(gone := true), calls)
  {
    hide EventSize, ValidBody, BodyOf, PhaseAfter, Advance, Sizes, Flatten, TextOf, Numbered, IsTerminal, Budget;
    AddedEvent(c, owner, s.queue, attempt.call, event);
    var after := Stored(s, owner, event).(gone := true);
    BudgetGrows(c, s, event, calls, owner, after);
    assert (s.queue + [event])[..s.sequence] == s.queue;
    hide FitsBudget;
  }

  lemma TerminalSeals(phase: Phase, call: SinkCall, session: nat, target: AP.Target)
    requires Advance(phase, call, session) != Broken
    ensures Advance(phase, call, session).Sealed? <==> IsTerminal(BodyOf(call, target))
  {
  }

  function Advanced(c: Context, s: State, attempt: Attempt, owner: RunRef, event: Event): State {
    Stored(s, owner, event).(
      encodedBytes := s.encodedBytes + EventSize(event, c.show), sequence := s.sequence + 1,
      parts := PartsAfter(s.parts, attempt.call), isSealed := IsTerminal(event.body))
  }

  lemma SuccessKeepsLinked(c: Context, s: State, calls: seq<SinkCall>, attempt: Attempt, owner: RunRef, event: Event)
    requires Even(c, s, calls, owner) && Reaches(c, s, attempt, owner, event)
    requires Advance(PhaseAfter(calls, c.session), attempt.call, c.session) != Broken
    ensures Linked(c, Advanced(c, s, attempt, owner, event), calls + [attempt.call])
  {
    hide EventSize, ValidBody, BodyOf, PhaseAfter, Advance, Sizes, Flatten, TextOf, Numbered, PartsAfter, IsTerminal,
         Budget;
    AddedEvent(c, owner, s.queue, attempt.call, event);
    PhaseStep(calls, attempt.call, c.session);
    TerminalSeals(PhaseAfter(calls, c.session), attempt.call, c.session, c.target);
    TextStep(s.parts, calls, attempt.call);
    BudgetGrows(c, s, event, calls, owner, Advanced(c, s, attempt, owner, event));
    assert (s.queue + [event])[..s.sequence + 1] == s.queue + [event];
    hide FitsBudget;
  }

  lemma AttemptKeepsLinked(c: Context, s: State, calls: seq<SinkCall>, attempt: Attempt)
    requires Linked(c, s, calls) && Advance(PhaseAfter(calls, c.session), attempt.call, c.session) != Broken
    ensures var (after, error) := Publish(c, s, attempt.call, attempt.run, attempt.put);
            Linked(c, after, if error.None? then calls + [attempt.call] else calls)
  {
    hide Linked, Publish, Advance, Even, PhaseAfter, EventSize;
    LinkedNew(c, s, calls);
    var owner, event := PublishCases(c, s, attempt);
    var (after, error) := Publish(c, s, attempt.call, attempt.run, attempt.put);
    if after != s || error.None? {
      if error.None? {
        LinkedIsEven(c, s, calls, attempt, owner, event);
        SuccessKeepsLinked(c, s, calls, attempt, owner, event);
      } else if after.queue == s.queue {
        LostKeepsLinked(c, s, calls, owner);
      } else {
        LinkedIsEven(c, s, calls, attempt, owner, event);
        HalfLostKeepsLinked(c, s, calls, attempt, owner, event);
      }
    }
  }

  lemma LinkedNew(c: Context, s: State, calls: seq<SinkCall>)
    requires Linked(c, s, calls)
    ensures s.identity.None? ==> s == NEW_STREAM
  {
  }

  lemma {:induction false} AttemptsLinked(c: Context, attempts: seq<Attempt>)
    requires Obeys(c, attempts)
    ensures Linked(c, StateAfter(c, attempts), Succeeded(c, attempts))
  {
    hide Linked, Publish, Advance, PhaseAfter;
    if attempts == [] {
      StartLinked(c);
    } else {
      var init, last := attempts[..|attempts| - 1], attempts[|attempts| - 1];
      AttemptsLinked(c, init);
      AttemptKeepsLinked(c, StateAfter(c, init), Succeeded(c, init), last);
      var calls := Succeeded(c, init);
      assert calls + [] == calls;
    }
  }

  lemma StartLinked(c: Context)
    ensures Linked(c, NEW_STREAM, [])
  {
  }

  // ---------------------------------------------------------------- main results

  // Whatever calls the service makes within its protocol, the emitted events stay within
  // both size limits, and the client accepts them - except for a failure message that is
  // short in characters but too long in UTF-16 code units.
  lemma ClientAccepts(c: Context, attempts: seq<Attempt>, input: Input)
    requires Obeys(c, attempts)
    requires var s := StateAfter(c, attempts); s.identity.Some? ==> Expected(input, c, s.identity.value)
    ensures var s := StateAfter(c, attempts);
            && (ReceiveAll(s.queue, input).Some? <==> AllShort(s.queue))
            && (ReceiveAll(s.queue, input).Some? && s.isSealed ==>
                  ReceiveAll(s.queue, input).value.terminal == Last(s.queue) && s.queue != [])
            && Sizes(s.queue, c.show) <= EF.BODY_LIMIT
            && forall i :: 0 <= i < |s.queue| ==> EventSize(s.queue[i], c.show) <= EF.FRAME_LIMIT
  {
    hide Obeys, StateAfter, Succeeded;
    var s := StateAfter(c, attempts);
    AttemptsLinked(c, attempts);
    LinkedAccepts(c, s, Succeeded(c, attempts), input);
    hide Linked;
  }

  lemma LinkedAccepts(c: Context, s: State, calls: seq<SinkCall>, input: Input)
    requires Linked(c, s, calls) && (s.identity.Some? ==> Expected(input, c, s.identity.value))
    ensures ReceiveAll(s.queue, input).Some? <==> AllShort(s.queue)
    ensures ReceiveAll(s.queue, input).Some? && s.isSealed ==>
              ReceiveAll(s.queue, input).value.terminal == Last(s.queue) && s.queue != []
    ensures Sizes(s.queue, c.show) <= EF.BODY_LIMIT
    ensures forall i :: 0 <= i < |s.queue| ==> EventSize(s.queue[i], c.show) <= EF.FRAME_LIMIT
  {
    if s.identity.Some? {
      SealedQueue(c, s, calls);
      ClientFollows(c, s.identity.value, s.queue, input);
    }
    hide EventSize, Sizes, Receive, PhaseAfter, ValidBody, ShortMessage;
  }

  // Nothing follows a terminal event.
  lemma SealedQueue(c: Context, s: State, calls: seq<SinkCall>)
    requires Linked(c, s, calls) && s.identity.Some?
    ensures s.isSealed ==> PhaseAfter(CallsOf(s.queue), c.session).Sealed? && s.queue != []
    ensures |s.queue| <= SAFE_INTEGER
  {
    hide EventSize, Sizes, ValidBody, Flatten, TextOf;
    if s.isSealed {
      if s.sequence < |s.queue| {
        BrokenStays(s.queue, s.sequence, c.session);
      } else {
        assert s.queue[..s.sequence] == s.queue;
      }
      PhaseStarts(s.queue, c.session);
    }
  }

  // The text the publisher reports is the fold of the text calls that succeeded.
  lemma StreamedText(c: Context, attempts: seq<Attempt>)
    requires Obeys(c, attempts)
    ensures Flatten(StateAfter(c, attempts).parts) == TextOf(Succeeded(c, attempts))
  {
    hide Obeys, StateAfter, Succeeded;
    AttemptsLinked(c, attempts);
  }

  // While the stream is open, the terminal event of its own run is always admitted: the
  // reserve is never used up by what came before.
  lemma TerminalAlwaysFits(c: Context, attempts: seq<Attempt>, call: SinkCall)
    requires ShowsUuids(c.show) && Obeys(c, attempts)
    requires call.Completed? || call.Failed?
    requires ValidBody(BodyOf(call, c.target))
    requires var s := StateAfter(c, attempts); s.identity.Some? && !s.isSealed && !s.gone
    ensures Publish(c, StateAfter(c, attempts), call, StateAfter(c, attempts).identity.value, Accepted).1 == None
  {
    hide Obeys, StateAfter, Succeeded, Linked, ShowsUuids;
    var s := StateAfter(c, attempts);
    AttemptsLinked(c, attempts);
    SequenceBound(c, s, Succeeded(c, attempts));
    var owner := s.identity.value;
    var event := Event(c.request, s.sequence, owner.conversation, owner.run, BodyOf(call, c.target));
    assert Pow10(16) > 4194304 by { PowersOfTen(); }
    FrameFits(event, c.show);
    hide EventSize, ValidBody;
  }

  lemma PowersOfTen()
    ensures Pow10(16) == 10000000000000000
  {
    assert Pow10(4) == 10000;
    assert Pow10(8) == 100000000;
    assert Pow10(12) == 1000000000000;
  }

  lemma SequenceBound(c: Context, s: State, calls: seq<SinkCall>)
    requires Linked(c, s, calls) && s.identity.Some?
    ensures s.sequence <= s.encodedBytes <= EF.BODY_LIMIT
    ensures !s.isSealed ==> s.encodedBytes + TERMINAL_RESERVE <= EF.BODY_LIMIT
  {
    hide EventSize, Sizes, ValidBody, Numbered;
  }

  // ---------------------------------------------------------------- end to end

  function Frames(queue: seq<Event>, show: nat -> string): (frames: seq<EF.Frame>)
    ensures |frames| == |queue| && forall i :: 0 <= i < |frames| ==> frames[i] == FrameOf(queue[i], show)
  {
    seq(|queue|, i requires 0 <= i < |queue| => FrameOf(queue[i], show))
  }

  lemma {:induction false} FramesSize(queue: seq<Event>, show: nat -> string)
    ensures EF.Size(EF.EncodeAll(Frames(queue, show))) == Sizes(queue, show)
  {
    hide FrameOf, EF.Encode;
    if queue != [] {
      var n := |queue| - 1;
      FramesSize(queue[..n], show);
      var frames := Frames(queue, show);
      assert frames[..n] == Frames(queue[..n], show) && frames[n..] == [frames[n]];
      EF.EncodeAllSplit(frames, n);
      assert [frames[n]][1..] == [] && EF.Encode(frames[n]) + "" == EF.Encode(frames[n]);
      EF.SizeAppend(EF.EncodeAll(frames[..n]), EF.Encode(frames[n]));
    }
  }

  lemma FrameSendable(c: Context, s: State, calls: seq<SinkCall>, i: nat)
    requires ShowsUuids(c.show) && Linked(c, s, calls) && s.identity.Some? && i < |s.queue|
    ensures EF.WellFormed(FrameOf(s.queue[i], c.show)) && EventSize(s.queue[i], c.show) <= EF.FRAME_LIMIT
    ensures EF.Passes(FrameOf(s.queue[i], c.show)) <==> CleanTexts(s.queue[i].body)
  {
    hide ValidBody, CleanTexts, Sizes, FrameOf, ShowsUuids, EventSize, EF.WellFormed, EF.Passes, PhaseAfter;
    SealedQueue(c, s, calls);
    PowersOfTen();
    assert s.queue[i] == Event(c.request, i, s.identity.value.conversation, s.identity.value.run, s.queue[i].body);
    EventFrame(s.queue[i], c.show);
  }

  lemma TotalBound(c: Context, s: State, calls: seq<SinkCall>)
    requires Linked(c, s, calls) && s.identity.Some?
    ensures Sizes(s.queue, c.show) <= EF.BODY_LIMIT
  {
    hide EventSize, Numbered, PhaseAfter, Sizes;
  }

  lemma FramesSendable(c: Context, s: State, calls: seq<SinkCall>)
    requires ShowsUuids(c.show) && Linked(c, s, calls) && s.identity.Some?
    ensures EF.Sendable(Frames(s.queue, c.show)) && EF.Size(EF.EncodeAll(Frames(s.queue, c.show))) <= EF.BODY_LIMIT
    ensures forall i :: 0 <= i < |s.queue| ==> (EF.Passes(FrameOf(s.queue[i], c.show)) <==> CleanTexts(s.queue[i].body))
  {
    hide Linked, CleanTexts, FrameOf, ShowsUuids, EF.Size, EF.WellFormed, EF.Passes, EF.Encode, EF.EncodeAll,
         EF.Sendable, Sizes, EventSize;
    TotalBound(c, s, calls);
    FramesSize(s.queue, c.show);
    forall i | 0 <= i < |s.queue|
      ensures EF.WellFormed(FrameOf(s.queue[i], c.show)) && EventSize(s.queue[i], c.show) <= EF.FRAME_LIMIT
      ensures EF.Passes(FrameOf(s.queue[i], c.show)) <==> CleanTexts(s.queue[i].body)
    {
      FrameSendable(c, s, calls, i);
    }
    SendableFrames(s.queue, c.show);
  }

  lemma SendableFrames(queue: seq<Event>, show: nat -> string)
    requires forall i :: 0 <= i < |queue| ==>
               EF.WellFormed(FrameOf(queue[i], show)) && EventSize(queue[i], show) <= EF.FRAME_LIMIT
    ensures EF.Sendable(Frames(queue, show))
  {
    hide FrameOf, EF.Encode, EF.Size, EF.WellFormed;
  }

  // From the service's calls to the client's events: however the response body is cut into
  // chunks, the client reads back exactly the frames of the emitted events, in order and to
  // the end, if and only if no text in them holds U+2028 or U+2029.
  lemma EndToEnd(c: Context, attempts: seq<Attempt>, chunks: seq<string>)
    requires ShowsUuids(c.show) && Obeys(c, attempts)
    requires StateAfter(c, attempts).queue != []
    requires Flatten(chunks) == EF.EncodeAll(Frames(StateAfter(c, attempts).queue, c.show))
    ensures var queue := StateAfter(c, attempts).queue;
            EF.Stream("", 0, false, chunks) == (EF.Results(Frames(queue, c.show)), EF.Complete) <==>
            forall i :: 0 <= i < |queue| ==> CleanTexts(queue[i].body)
  {
    hide Obeys, StateAfter, Succeeded, Linked, ShowsUuids, CleanTexts, EF.Stream, EF.Passes, EF.Sendable, EF.EncodeAll,
         Flatten, FrameOf;
    var s := StateAfter(c, attempts);
    AttemptsLinked(c, attempts);
    LinkedNew(c, s, Succeeded(c, attempts));
    FramesSendable(c, s, Succeeded(c, attempts));
    EF.RoundTrip(Frames(s.queue, c.show), chunks);
  }

  // ---------------------------------------------------------------- what the client is left with

  // The client's validator reads the frames as these events.
  predicate AllReadAs(frames: seq<EF.Parsed>, events: seq<Event>, header: string, ids: string -> nat) {
    |frames| == |events| && forall i :: 0 <= i < |frames| ==> ReadEvent(frames[i], header, ids) == Some(events[i])
  }

  // Whatever the frames are read as, it is the events they were printed from.
  lemma FramesReadAs(queue: seq<Event>, events: seq<Event>, show: nat -> string, header: string, ids: string -> nat)
    requires ShowsUuids(show) && Undoes(ids, show)
    requires forall i :: 0 <= i < |queue| ==>
               ValidBody(queue[i].body) && queue[i].sequence <= SAFE_INTEGER && header == show(queue[i].request)
    ensures AllReadAs(EF.Results(Frames(queue, show)), events, header, ids) <==> events == queue
  {
    hide ShowsUuids, Undoes, ReadEvent, ValidBody, FrameOf, EF.Result;
    var frames := EF.Results(Frames(queue, show));
    forall i | 0 <= i < |queue| ensures ReadEvent(frames[i], header, ids) == Some(queue[i]) {
      ReadsBack(queue[i], show, header, ids);
    }
    if AllReadAs(frames, events, header, ids) {
      forall i | 0 <= i < |queue| ensures events[i] == queue[i] {
        assert ReadEvent(frames[i], header, ids) == Some(events[i]);
      }
    }
  }

  // The client reads a complete stream, its validator reads every frame, and its automaton
  // accepts the events.
  ghost predicate ClientTakes(chunks: seq<string>, events: seq<Event>, header: string, ids: string -> nat, input: Input) {
    && EF.Stream("", 0, false, chunks).1 == EF.Complete
    && AllReadAs(EF.Stream("", 0, false, chunks).0, events, header, ids)
    && ReceiveAll(events, input).Some?
  }

  lemma QueueReadable(c: Context, s: State, calls: seq<SinkCall>)
    requires Linked(c, s, calls) && s.identity.Some?
    ensures forall i :: 0 <= i < |s.queue| ==>
              ValidBody(s.queue[i].body) && s.queue[i].sequence <= SAFE_INTEGER && s.queue[i].request == c.request
  {
    SealedQueue(c, s, calls);
    hide EventSize, Sizes, ValidBody, PhaseAfter, Flatten, TextOf;
  }

  predicate AllClean(queue: seq<Event>) {
    forall i :: 0 <= i < |queue| ==> CleanTexts(queue[i].body)
  }

  // From the service's calls to the events the client accepts: however the body is cut, the
  // client takes some list of events if and only if no text holds a line separator and every
  // failure message is short; that list is then exactly what was emitted.
  lemma CallsToEvents(c: Context, attempts: seq<Attempt>, chunks: seq<string>, input: Input, events: seq<Event>,
                      ids: string -> nat)
    requires ShowsUuids(c.show) && Undoes(ids, c.show) && Obeys(c, attempts)
    requires StateAfter(c, attempts).queue != []
    requires Flatten(chunks) == EF.EncodeAll(Frames(StateAfter(c, attempts).queue, c.show))
    requires var s := StateAfter(c, attempts); s.identity.Some? ==> Expected(input, c, s.identity.value)
    ensures var queue := StateAfter(c, attempts).queue;
            ClientTakes(chunks, events, c.show(c.request), ids, input) <==>
            events == queue && AllClean(queue) && AllShort(queue)
  {
    hide Obeys, StateAfter, Succeeded, Linked, ShowsUuids, Undoes, ValidBody, CleanTexts, EF.Stream, EF.Passes, EF.Sendable, EF.EncodeAll,
         Flatten, FrameOf, ReceiveAll, AllShort, AllReadAs, EF.Good;
    var s := StateAfter(c, attempts);
    AttemptsLinked(c, attempts);
    LinkedNew(c, s, Succeeded(c, attempts));
    FramesSendable(c, s, Succeeded(c, attempts));
    EF.RoundTrip(Frames(s.queue, c.show), chunks);
    LinkedAccepts(c, s, Succeeded(c, attempts), input);
    QueueReadable(c, s, Succeeded(c, attempts));
    FramesReadAs(s.queue, events, c.show, c.show(c.request), ids);
    EF.GoodAll(Frames(s.queue, c.show));
  }

  // A turn whose only text is one short piece.
  function OneText(text: string, run: RunRef): seq<Attempt> {
    [Attempt(Started, run, Accepted), Attempt(TextDelta(text), run, Accepted)]
  }

  lemma StartedOnly(c: Context, run: RunRef)
    requires ShowsUuids(c.show)
    ensures var start := Event(c.request, 0, run.conversation, run.run, TurnStarted);
            && StateAfter(c, [Attempt(Started, run, Accepted)]) ==
               State(Some(run), 1, EventSize(start, c.show), [], false, [start], false)
            && EventSize(start, c.show) <= EF.FRAME_LIMIT
    ensures Succeeded(c, [Attempt(Started, run, Accepted)]) == [Started] && Obeys(c, [Attempt(Started, run, Accepted)])
  {
    hide ShowsUuids, EventSize;
    var attempts := [Attempt(Started, run, Accepted)];
    PowersOfTen();
    FrameFits(Event(c.request, 0, run.conversation, run.run, TurnStarted), c.show);
    assert attempts[..0] == [];
    assert StateAfter(c, []) == NEW_STREAM && Succeeded(c, []) == [] && Obeys(c, []);
  }

  lemma OneTextSent(c: Context, run: RunRef, text: string)
    requires ShowsUuids(c.show) && Between(text, 1, 4096)
    ensures var s := StateAfter(c, OneText(text, run));
            && s.identity == Some(run)
            && s.queue == [Event(c.request, 0, run.conversation, run.run, TurnStarted),
                           Event(c.request, 1, run.conversation, run.run, Delta(text))]
    ensures Succeeded(c, OneText(text, run)) == [Started, TextDelta(text)] && Obeys(c, OneText(text, run))
  {
    hide ShowsUuids, EventSize;
    PowersOfTen();
    FrameFits(Event(c.request, 1, run.conversation, run.run, Delta(text)), c.show);
    StartedOnly(c, run);
    assert OneText(text, run)[..1] == [Attempt(Started, run, Accepted)];
    assert [Started][..0] == [] && PhaseAfter([Started], c.session) == Open(None, {});
    hide Pow10;
  }

  // It happens: a turn whose only text is U+2028. The publisher takes both calls, and the
  // client takes no events from what is sent, however it is cut.
  lemma SeparatorBreaksStream(c: Context, run: RunRef, input: Input, chunks: seq<string>, events: seq<Event>,
                              ids: string -> nat)
    requires ShowsUuids(c.show) && Undoes(ids, c.show) && Expected(input, c, run)
    ensures var attempts := OneText("\U{2028}", run);
            && Obeys(c, attempts) && Succeeded(c, attempts) == [Started, TextDelta("\U{2028}")]
            && (Flatten(chunks) == EF.EncodeAll(Frames(StateAfter(c, attempts).queue, c.show)) ==>
                  !ClientTakes(chunks, events, c.show(c.request), ids, input))
  {
    hide ShowsUuids, Undoes, ClientTakes, Flatten, EF.EncodeAll, StateAfter, Succeeded, Obeys;
    var attempts := OneText("\U{2028}", run);
    OneTextSent(c, run, "\U{2028}");
    hide OneText;
    var queue := StateAfter(c, attempts).queue;
    assert Texts(queue[1].body)[0][0] == '\U{2028}';
    assert !CleanTexts(queue[1].body);
    if Flatten(chunks) == EF.EncodeAll(Frames(queue, c.show)) {
      CallsToEvents(c, attempts, chunks, input, events, ids);
    }
  }
}

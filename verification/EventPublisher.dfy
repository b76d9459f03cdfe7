/**
 The publisher of one agent turn: it numbers the events, freezes their identity, keeps
 the current text, and admits an event only while a terminal frame still fits.
 */
module EventPublisher {
  import opened Wrappers
  import EF = EventFrames
  import AP = Approvals
  import opened Sequences
  import opened StreamEvents
  import opened TurnEvents

  const TERMINAL_RESERVE := 65536

  // What is known about the stream before it starts.
  datatype Context = Context(request: nat, session: nat, target: AP.Target, show: nat -> string)

  // The conversation and run a call speaks about.
  datatype RunRef = RunRef(conversation: nat, run: nat)

  // Whether the bounded queue takes the event before a cancellation or a departed
  // consumer is noticed; a lost race may still have enqueued it.
  datatype Put = Accepted | Lost(enqueued: bool)

  datatype PublishError = AlreadyStarted | NotOpen | RunMismatch | InvalidEvent | ResponseTooLarge | Cancelled

  datatype State = State(
    identity: Option<RunRef>, sequence: nat, encodedBytes: nat, parts: seq<string>, isSealed: bool,
    queue: seq<Event>, gone: bool)

  const NEW_STREAM := State(None, 0, 0, [], false, [], false)

  function BodyOf(call: SinkCall, target: AP.Target): Body {
    match call
    case Started => TurnStarted
    case ToolStarted(callId, command) => ToolStart(callId, command)
    case ApprovalRequested(approval, session, callId, command) => Request(approval, session, callId, command, target)
    case ApprovalResolved(approval, callId, approved) => Resolution(approval, callId, approved)
    case TextDelta(delta) => Delta(delta)
    case TextReplace(text) => Replace(text)
    case Completed(iteration) => Done(iteration)
    case Failed(status, iteration, code, message) => Failure(status, iteration, code, message)
  }

  function Sizes(queue: seq<Event>, show: nat -> string): nat {
    if queue == [] then 0 else Sizes(queue[..|queue| - 1], show) + EventSize(queue[|queue| - 1], show)
  }

  predicate FitsBudget(s: State, size: nat, terminal: bool) {
    size <= EF.FRAME_LIMIT && s.encodedBytes + size + (if terminal then 0 else TERMINAL_RESERVE) <= EF.BODY_LIMIT
  }

  function PartsAfter(parts: seq<string>, call: SinkCall): seq<string> {
    match call
    case TextDelta(delta) => parts + [delta]
    case TextReplace(text) => [text]
    case _ => parts
  }

  // Only these calls name the run again, and must name the same one.
  predicate NamesRun(call: SinkCall) {
    call.ApprovalRequested? || call.Completed? || call.Failed?
  }

  function Put1(s: State, event: Event, put: Put): (State, bool) {
    if s.gone then (s, false)
    else
      match put
      case Accepted => (s.(queue := s.queue + [event]), true)
      case Lost(enqueued) => (s.(queue := if enqueued then s.queue + [event] else s.queue, gone := true), false)
  }

  // One call: the new state and the error it raises, if any.
  function Publish(c: Context, s: State, call: SinkCall, run: RunRef, put: Put): (State, Option<PublishError>) {
    if call.Started? && s.identity.Some? then (s, Some(AlreadyStarted))
    else if !call.Started? && (s.identity.None? || s.isSealed) then (s, Some(NotOpen))
    else if NamesRun(call) && Some(run) != s.identity then (s, Some(RunMismatch))
    else
      var owner := if call.Started? then run else s.identity.value;
      var event := Event(c.request, if call.Started? then 0 else s.sequence, owner.conversation, owner.run,
                         BodyOf(call, c.target));
      if !ValidBody(event.body) then (s, Some(InvalidEvent))
      else if !FitsBudget(s, EventSize(event, c.show), IsTerminal(event.body)) then (s, Some(ResponseTooLarge))
      else
        var (stored, ok) := Put1(s.(identity := Some(owner)), event, put);
        if !ok then (stored, Some(Cancelled))
        else
          (stored.(encodedBytes := stored.encodedBytes + EventSize(event, c.show),
                   sequence := event.sequence + 1,
                   parts := PartsAfter(stored.parts, call),
                   isSealed := IsTerminal(event.body)), None)
  }

  class Publisher {
    const context: Context
    var identity: Option<RunRef>
    var sequence: nat
    var encodedBytes: nat
    var parts: seq<string>
    var isSealed: bool
    var queue: seq<Event>
    var gone: bool

    function Value(): State
      reads this
    {
      State(identity, sequence, encodedBytes, parts, isSealed, queue, gone)
    }

    constructor (context: Context)
      ensures this.context == context && Value() == NEW_STREAM
    {
      this.context := context;
      identity, sequence, encodedBytes, parts, isSealed, queue, gone := None, 0, 0, [], false, [], false;
    }

    function StreamedText(): string
      reads this
    {
      Flatten(parts)
    }

    method Start(run: RunRef, put: Put) returns (error: Option<PublishError>)
      modifies this
      ensures (Value(), error) == Publish(context, old(Value()), Started, run, put)
    {
      hide EventSize;
      if identity.Some? {
        return Some(AlreadyStarted);
      }
      var event := Event(context.request, 0, run.conversation, run.run, TurnStarted);
      var size, refused := ValidatedSize(event, false);
      if refused.Some? {
        return refused;
      }
      identity := Some(run);
      var ok := Enqueue(event, put);
      if !ok {
        return Some(Cancelled);
      }
      encodedBytes := encodedBytes + size;
      sequence := 1;
      isSealed := false;
      error := None;
    }

    // Every event between the first and the terminal one.
    method Report(call: SinkCall, run: RunRef, put: Put) returns (error: Option<PublishError>)
      requires !call.Started? && !call.Completed? && !call.Failed?
      modifies this
      ensures (Value(), error) == Publish(context, old(Value()), call, run, put)
    {
      hide EventSize, ValidBody;
      if identity.None? || isSealed {
        return Some(NotOpen);
      }
      if call.ApprovalRequested? && Some(run) != identity {
        return Some(RunMismatch);
      }
      var event := Event(context.request, sequence, identity.value.conversation, identity.value.run,
                         BodyOf(call, context.target));
      if !ValidBody(event.body) {
        return Some(InvalidEvent);
      }
      var size, refused := ValidatedSize(event, false);
      if refused.Some? {
        return refused;
      }
      var ok := Enqueue(event, put);
      if !ok {
        return Some(Cancelled);
      }
      encodedBytes := encodedBytes + size;
      sequence := sequence + 1;
      if call.TextDelta? {
        parts := parts + [call.delta];
      } else if call.TextReplace? {
        parts := [call.text];
      }
      error := None;
    }

    method Seal(call: SinkCall, run: RunRef, put: Put) returns (error: Option<PublishError>)
      requires call.Completed? || call.Failed?
      modifies this
      ensures (Value(), error) == Publish(context, old(Value()), call, run, put)
    {
      hide EventSize, ValidBody;
      if identity.None? || isSealed {
        return Some(NotOpen);
      }
      if Some(run) != identity {
        return Some(RunMismatch);
      }
      var event := Event(context.request, sequence, run.conversation, run.run, BodyOf(call, context.target));
      if !ValidBody(event.body) {
        return Some(InvalidEvent);
      }
      var size, refused := ValidatedSize(event, true);
      if refused.Some? {
        return refused;
      }
      var ok := Enqueue(event, put);
      if !ok {
        return Some(Cancelled);
      }
      encodedBytes := encodedBytes + size;
      sequence := sequence + 1;
      isSealed := true;
      error := None;
    }

    method ValidatedSize(event: Event, terminal: bool) returns (size: nat, refused: Option<PublishError>)
      ensures size == EventSize(event, context.show)
      ensures refused == if FitsBudget(Value(), size, terminal) then None else Some(ResponseTooLarge)
    {
      size := EventSize(event, context.show);
      if size > EF.FRAME_LIMIT {
        return size, Some(ResponseTooLarge);
      }
      var reserve := if terminal then 0 else TERMINAL_RESERVE;
      if encodedBytes + size + reserve > EF.BODY_LIMIT {
        return size, Some(ResponseTooLarge);
      }
      refused := None;
    }

    method Enqueue(event: Event, put: Put) returns (ok: bool)
      modifies this
      ensures (Value(), ok) == Put1(old(Value()), event, put)
    {
      if gone {
        return false;
      }
      match put
      case Accepted =>
        queue := queue + [event];
        ok := true;
      case Lost(enqueued) =>
        if enqueued {
          queue := queue + [event];
        }
        gone := true;
        ok := false;
    }
  }
}

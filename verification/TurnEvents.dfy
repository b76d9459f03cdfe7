/** The calls one agent turn makes on its event stream, and the order they come in. */
module TurnEvents {
  import opened Wrappers

  datatype SinkCall =
    | Started
    | ToolStarted(callId: string, command: string)
    | ApprovalRequested(approval: nat, session: nat, callId: string, command: string)
    | ApprovalResolved(approval: nat, callId: string, approved: bool)
    | TextDelta(delta: string)
    | TextReplace(text: string)
    | Completed(iteration: nat)
    | Failed(status: string, iteration: nat, code: string, message: string)

  // Where a turn stands: the open approval, if any, and the approvals asked for so far.
  datatype Phase = Before | Open(pending: Option<(nat, string)>, asked: set<nat>) | Sealed | Broken

  function Advance(phase: Phase, call: SinkCall, session: nat): Phase {
    match phase
    case Before => if call.Started? then Open(None, {}) else Broken
    case Sealed => Broken
    case Broken => Broken
    case Open(pending, asked) =>
      match call
      case Started => Broken
      case ToolStarted(_, _) => if pending.None? then phase else Broken
      case ApprovalRequested(approval, bound, callId, _) =>
        if pending.None? && approval !in asked && bound == session
        then Open(Some((approval, callId)), asked + {approval}) else Broken
      case ApprovalResolved(approval, callId, _) =>
        if pending == Some((approval, callId)) then Open(None, asked) else Broken
      case TextDelta(_) => phase
      case TextReplace(_) => phase
      case Completed(_) => if pending.None? then Sealed else Broken
      case Failed(_, _, _, _) => Sealed
  }

  function PhaseAfter(calls: seq<SinkCall>, session: nat): Phase {
    if calls == [] then Before
    else Advance(PhaseAfter(calls[..|calls| - 1], session), calls[|calls| - 1], session)
  }

  lemma PhaseStep(calls: seq<SinkCall>, call: SinkCall, session: nat)
    ensures PhaseAfter(calls + [call], session) == Advance(PhaseAfter(calls, session), call, session)
  {
    assert (calls + [call])[..|calls|] == calls;
  }

  // Text updates never change the phase of an open turn.
  predicate IsText(call: SinkCall) {
    call.TextDelta? || call.TextReplace?
  }

  lemma {:induction false} PhaseOfText(calls: seq<SinkCall>, updates: seq<SinkCall>, session: nat)
    requires PhaseAfter(calls, session).Open?
    requires forall i :: 0 <= i < |updates| ==> IsText(updates[i])
    ensures PhaseAfter(calls + updates, session) == PhaseAfter(calls, session)
  {
    if updates == [] {
      assert calls + updates == calls;
    } else {
      var init := updates[..|updates| - 1];
      PhaseOfText(calls, init, session);
      assert calls + updates == (calls + init) + [updates[|updates| - 1]];
      PhaseStep(calls + init, updates[|updates| - 1], session);
    }
  }

  // What one call makes of the visible text.
  function EditText(text: string, call: SinkCall): string {
    match call
    case TextDelta(delta) => text + delta
    case TextReplace(replacement) => replacement
    case _ => text
  }

  // The visible text according to the calls.
  function TextOf(calls: seq<SinkCall>): string {
    if calls == [] then "" else EditText(TextOf(calls[..|calls| - 1]), calls[|calls| - 1])
  }

  lemma TextOfStep(calls: seq<SinkCall>, call: SinkCall)
    ensures TextOf(calls + [call]) == EditText(TextOf(calls), call)
  {
    assert (calls + [call])[..|calls|] == calls;
  }
}

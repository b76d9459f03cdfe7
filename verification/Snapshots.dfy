/**
 Publishing a provider's stream of full-text snapshots as incremental edits, and the
 retries of one model request.
 */
module Snapshots {
  import opened Wrappers
  import opened TurnEvents

  const PIECE := 4096
  const RETRY_DELAYS := [1, 2, 4, 8, 16]

  // The event stream as one request sees it: the calls it has taken, and how many more it
  // takes before it raises.
  class TextSink {
    var calls: seq<SinkCall>
    var patience: nat

    constructor (patience: nat)
      ensures calls == [] && this.patience == patience
    {
      calls, this.patience := [], patience;
    }

    function StreamedText(): string
      reads this
    {
      TextOf(calls)
    }

    method Send(call: SinkCall) returns (ok: bool)
      modifies this
      ensures ok <==> old(patience) > 0
      ensures ok ==> calls == old(calls) + [call] && patience == old(patience) - 1
      ensures !ok ==> calls == old(calls) && patience == old(patience)
    {
      ok := patience > 0;
      if ok {
        calls, patience := calls + [call], patience - 1;
      }
    }
  }

  class Invocation {
    var visible: string
    var published: bool
    var sinkFailed: bool

    constructor ()
      ensures visible == "" && !published && !sinkFailed
    {
      visible, published, sinkFailed := "", false, false;
    }
  }

  // What an invocation knows about the stream: nothing before its first update, its own
  // snapshot afterwards.
  predicate Synced(invocation: Invocation, sink: TextSink, leftover: string)
    reads invocation, sink
  {
    if invocation.published then invocation.sinkFailed || sink.StreamedText() == invocation.visible
    else invocation.visible == "" && !invocation.sinkFailed && sink.StreamedText() == leftover
  }

  // The edits since some moment are pieces of text, none longer than a piece.
  predicate Pieces(calls: seq<SinkCall>) {
    forall i :: 0 <= i < |calls| ==>
      (calls[i].TextDelta? && 0 < |calls[i].delta| <= PIECE) || (calls[i].TextReplace? && |calls[i].text| <= PIECE)
  }

  predicate Edited(before: seq<SinkCall>, after: seq<SinkCall>) {
    before <= after && Pieces(after[|before|..])
  }

  // Nothing but appended pieces.
  predicate Appended(before: seq<SinkCall>, after: seq<SinkCall>) {
    before <= after && forall i :: |before| <= i < |after| ==> after[i].TextDelta?
  }

  lemma EditedMore(before: seq<SinkCall>, middle: seq<SinkCall>, call: SinkCall)
    requires Edited(before, middle) && Pieces([call])
    ensures Edited(before, middle + [call])
  {
    assert (middle + [call])[|before|..] == middle[|before|..] + [call];
  }

  lemma EditedTwice(a: seq<SinkCall>, b: seq<SinkCall>, c: seq<SinkCall>)
    requires Edited(a, b) && Edited(b, c)
    ensures Edited(a, c)
  {
    assert c[|a|..] == b[|a|..] + c[|b|..];
  }

  function Take(text: string, n: nat): string {
    if |text| <= n then text else text[..n]
  }

  lemma NextPiece(shown: string, pending: string, offset: nat)
    requires offset < |pending|
    ensures var piece := Take(pending[offset..], PIECE);
            && 0 < |piece| <= PIECE && offset + |piece| <= |pending|
            && (shown + pending[..offset]) + piece == shown + pending[..offset + |piece|]
  {
    var piece := Take(pending[offset..], PIECE);
    assert pending[..offset] + piece == pending[..offset + |piece|];
  }

  // Sends the rest of a snapshot in pieces.
  method SendPieces(pending: string, sink: TextSink) returns (ok: bool)
    modifies sink
    ensures Edited(old(sink.calls), sink.calls) && Appended(old(sink.calls), sink.calls)
    ensures ok ==> sink.StreamedText() == old(sink.StreamedText()) + pending
    ensures !ok ==> sink.patience == 0
  {
    hide TextOf, Take;
    var offset := 0;
    ghost var shown := sink.StreamedText();
    assert pending[..0] == "" && shown + "" == shown;
    while offset < |pending|
      invariant 0 <= offset <= |pending|
      invariant Edited(old(sink.calls), sink.calls) && Appended(old(sink.calls), sink.calls)
      invariant sink.StreamedText() == shown + pending[..offset]
    {
      var piece := Take(pending[offset..], PIECE);
      NextPiece(shown, pending, offset);
      TextOfStep(sink.calls, TextDelta(piece));
      EditedMore(old(sink.calls), sink.calls, TextDelta(piece));
      var sent := sink.Send(TextDelta(piece));
      if !sent {
        return false;
      }
      offset := offset + |piece|;
    }
    assert pending[..|pending|] == pending;
    ok := true;
  }

  lemma TakeFirst(text: string)
    ensures var first := Take(text, PIECE);
            |first| <= PIECE && |first| <= |text| && first + text[|first|..] == text
  {
  }

  lemma EditedNothing(calls: seq<SinkCall>)
    ensures Edited(calls, calls)
  {
  }

  // Brings the stream to the next snapshot: appends what was added, or replaces the text
  // when the snapshot is no extension or another round's text is still shown.
  method PublishSnapshot(text: string, sink: TextSink, invocation: Invocation, ghost leftover: string) returns (ok: bool)
    requires Synced(invocation, sink, leftover) && !invocation.sinkFailed
    modifies sink, invocation
    ensures Synced(invocation, sink, leftover) && ok == !invocation.sinkFailed
    ensures Edited(old(sink.calls), sink.calls)
    ensures ok ==> invocation.visible == text
    ensures !ok ==> sink.patience == 0 && invocation.visible == old(invocation.visible)
    ensures invocation.published == (old(invocation.published) || text != old(invocation.visible))
    ensures text == old(invocation.visible) ==> ok && sink.calls == old(sink.calls)
    // An extension of what is shown is only appended to.
    ensures old(invocation.visible) <= text && (old(invocation.visible) != "" || old(sink.StreamedText()) == "") ==>
              Appended(old(sink.calls), sink.calls)
  {
    hide TextOf, Take, Edited;
    var previous := invocation.visible;
    EditedNothing(sink.calls);
    if text == previous {
      return true;
    }
    var replace := (previous == "" && sink.StreamedText() != "") || !(previous <= text);
    var pending := if replace then text else text[|previous|..];
    invocation.published := true;
    ok := true;
    if replace {
      var first := Take(pending, PIECE);
      TakeFirst(pending);
      TextOfStep(sink.calls, TextReplace(first));
      EditedMore(sink.calls, sink.calls, TextReplace(first));
      ok := sink.Send(TextReplace(first));
      pending := pending[|first|..];
    } else {
      assert previous + pending == text;
    }
    if ok {
      label Rest:
      ok := SendPieces(pending, sink);
      EditedTwice(old(sink.calls), old@Rest(sink.calls), sink.calls);
    }
    if !ok {
      invocation.sinkFailed := true;
      return false;
    }
    invocation.visible := text;
  }

  // ---------------------------------------------------------------- retries

  datatype End = Answered | TimedOut | Broken | WasCancelled

  // What the provider sends in one attempt, and how it stops.
  datatype Script = Script(snapshots: seq<string>, end: End)

  datatype Outcome = Answer(text: string) | NetworkTimeout | RequestFailed | SinkFailed | TurnCancelled

  method RunAttempt(script: Script, sink: TextSink, invocation: Invocation, ghost leftover: string) returns (ok: bool)
    requires Synced(invocation, sink, leftover) && !invocation.sinkFailed
    requires !invocation.published && invocation.visible == ""
    modifies sink, invocation
    ensures Synced(invocation, sink, leftover) && ok == !invocation.sinkFailed
    ensures !ok ==> sink.patience == 0
    ensures Edited(old(sink.calls), sink.calls)
    ensures !invocation.published ==> sink.calls == old(sink.calls)
    ensures ok ==> invocation.visible == if script.snapshots == [] then "" else script.snapshots[|script.snapshots| - 1]
    ensures invocation.published <==> exists i :: 0 <= i < |script.snapshots| && script.snapshots[i] != ""
  {
    for i := 0 to |script.snapshots|
      invariant Synced(invocation, sink, leftover) && !invocation.sinkFailed
      invariant Edited(old(sink.calls), sink.calls)
      invariant !invocation.published ==> sink.calls == old(sink.calls)
      invariant invocation.visible == if i == 0 then "" else script.snapshots[i - 1]
      invariant invocation.published <==> exists j :: 0 <= j < i && script.snapshots[j] != ""
    {
      label Before:
      ok := PublishSnapshot(script.snapshots[i], sink, invocation, leftover);
      EditedTwice(old(sink.calls), old@Before(sink.calls), sink.calls);
      assert invocation.published ==> exists j :: 0 <= j <= i && script.snapshots[j] != "";
      if !ok {
        return false;
      }
    }
    ok := true;
  }

  // No snapshot of the attempt showed anything.
  predicate Silent(script: Script) {
    forall i :: 0 <= i < |script.snapshots| ==> script.snapshots[i] == ""
  }

  predicate Retried(script: Script) {
    script.end.TimedOut? && Silent(script)
  }

  // The attempt whose outcome counts: the first one that is not a timeout before any
  // visible update, the one before a cancelled wait, or the last one allowed. `waits` is the
  // number of waits that would pass before a cancellation.
  function Deciding(scripts: seq<Script>, waits: nat, n: nat): (last: nat)
    requires n < |scripts| == 6
    ensures n <= last < 6 && (last == 5 || last == waits || !Retried(scripts[last]))
    ensures forall i :: n <= i < last ==> Retried(scripts[i]) && i != waits
    decreases 6 - n
  {
    if n == 5 || n == waits || !Retried(scripts[n]) then n else Deciding(scripts, waits, n + 1)
  }

  function FinalText(script: Script): string {
    if script.snapshots == [] then "" else script.snapshots[|script.snapshots| - 1]
  }

  method InvokeAttempts(scripts: seq<Script>, waits: nat, sink: TextSink) returns (outcome: Outcome, waited: nat)
    requires |scripts| == |RETRY_DELAYS| + 1
    modifies sink
    ensures Edited(old(sink.calls), sink.calls)
    // Attempts that are repeated have left no trace on the stream; whatever the last one
    // comes to, it leaves its own text, or nothing at all if it showed nothing.
    ensures var n := Deciding(scripts, waits, 0);
            && waited == DelaySum(n)
            && (outcome == SinkFailed ==> sink.patience == 0)
            && (outcome.Answer? ==> outcome.text == FinalText(scripts[n]))
            && (outcome != SinkFailed ==>
                  && (outcome.Answer? <==> scripts[n].end.Answered?)
                  && (outcome.RequestFailed? <==> scripts[n].end.Broken?)
                  && (outcome.TurnCancelled? <==>
                        scripts[n].end.WasCancelled? || (Retried(scripts[n]) && n == waits && n < 5))
                  && (outcome.NetworkTimeout? <==>
                        scripts[n].end.TimedOut? && (!Silent(scripts[n]) || n != waits || n == 5)))
            && (Silent(scripts[n]) ==> outcome != SinkFailed && sink.calls == old(sink.calls))
            && (!Silent(scripts[n]) && outcome != SinkFailed ==> sink.StreamedText() == FinalText(scripts[n]))
  {
    ghost var leftover := sink.StreamedText();
    waited := 0;
    var attempt := 0;
    while true
      invariant 0 <= attempt < 6
      invariant sink.calls == old(sink.calls) && waited == DelaySum(attempt)
      invariant Deciding(scripts, waits, attempt) == Deciding(scripts, waits, 0)
      decreases 6 - attempt
    {
      var invocation := new Invocation();
      var script := scripts[attempt];
      var ok := RunAttempt(script, sink, invocation, leftover);
      assert invocation.published <==> !Silent(script);
      if !ok {
        return SinkFailed, waited;
      }
      if script.end.Answered? {
        return Answer(invocation.visible), waited;
      }
      if script.end.WasCancelled? {
        return TurnCancelled, waited;
      }
      if script.end.Broken? {
        return RequestFailed, waited;
      }
      if invocation.published || attempt == |RETRY_DELAYS| {
        return NetworkTimeout, waited;
      }
      if attempt == waits {
        return TurnCancelled, waited;
      }
      waited := waited + RETRY_DELAYS[attempt];
      attempt := attempt + 1;
    }
  }

  function DelaySum(n: nat): nat
    requires n <= 5
  {
    if n == 0 then 0 else DelaySum(n - 1) + RETRY_DELAYS[n - 1]
  }
}

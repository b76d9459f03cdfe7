/**
 The loop on its stream: the calls of any execution, put on the publisher in order, are
 attempts the stream's protocol allows, so everything proved about such attempts holds for
 whole turns.
 */
module ReactStream {
  import opened Wrappers
  import opened Sequences
  import EF = EventFrames
  import RL = ReactLoop
  import RS = ReactSafety
  import opened TurnEvents
  import opened StreamEvents
  import opened EventPublisher
  import opened StreamReader
  import opened StreamClient
  import opened TurnStream

  // A call the run makes next, in the middle of an action it can take, after the calls that
  // have returned so far. The action is completed only if all its calls return.
  ghost predicate Makes(c: RL.Config, s: RL.Loop, sofar: seq<SinkCall>, call: SinkCall) {
    exists action, m :: MakesIn(c, s, action, m, sofar, call)
  }

  ghost predicate MakesIn(c: RL.Config, s: RL.Loop, action: RL.Action, m: nat, sofar: seq<SinkCall>, call: SinkCall) {
    && RL.Can(c, s, action) && m < |RL.SinkCalls(c, s, action)|
    && sofar == s.sink + RL.SinkCalls(c, s, action)[..m] && call == RL.SinkCalls(c, s, action)[m]
  }

  // Every attempt is a call that some state of the execution makes, whether it returns or
  // raises.
  ghost predicate MadeBy(c: RL.Config, states: seq<RL.Loop>, context: Context, attempts: seq<Attempt>) {
    forall k :: 0 <= k < |attempts| ==>
      exists j :: 0 <= j < |states| && Makes(c, states[j], Succeeded(context, attempts[..k]), attempts[k].call)
  }

  lemma {:induction false} BrokenForGood(calls: seq<SinkCall>, n: nat, session: nat)
    requires n <= |calls| && PhaseAfter(calls, session) != Broken
    ensures PhaseAfter(calls[..n], session) != Broken
  {
    if n == |calls| {
      assert calls[..n] == calls;
    } else {
      var init := calls[..|calls| - 1];
      assert PhaseAfter(init, session) != Broken;
      BrokenForGood(init, n, session);
      assert init[..n] == calls[..n];
    }
  }

  // Within an enabled action no call leaves the protocol.
  lemma CallAllowed(c: RL.Config, s: RL.Loop, action: RL.Action, m: nat, sofar: seq<SinkCall>, call: SinkCall)
    requires RS.Inv(c, s) && MakesIn(c, s, action, m, sofar, call)
    ensures Advance(PhaseAfter(sofar, c.session), call, c.session) != Broken
  {
    hide RS.Inv, RL.Can, RL.SinkCalls, Advance;
    var calls := s.sink + RL.SinkCalls(c, s, action);
    RS.StepKeepsInv(c, s, action);
    SinkAfter(c, s, action);
    RS.CallsInProtocol(c, RL.Do(c, s, action));
    BrokenForGood(calls, |s.sink| + m + 1, c.session);
    assert calls[..|s.sink| + m + 1] == sofar + [call];
    PhaseStep(sofar, call, c.session);
  }

  lemma SinkAfter(c: RL.Config, s: RL.Loop, action: RL.Action)
    requires RL.Can(c, s, action)
    ensures RL.Do(c, s, action).sink == s.sink + RL.SinkCalls(c, s, action)
  {
  }

  lemma {:induction false} MadeObeys(c: RL.Config, states: seq<RL.Loop>, actions: seq<RL.Action>, context: Context,
                                     attempts: seq<Attempt>)
    requires RL.Execution(c, states, actions) && context.session == c.session
    requires MadeBy(c, states, context, attempts)
    ensures Obeys(context, attempts)
  {
    hide RL.Execution, RS.Inv, MakesIn, Succeeded, Advance, PhaseAfter;
    if attempts != [] {
      var k := |attempts| - 1;
      var init := attempts[..k];
      forall i | 0 <= i < k
        ensures exists j :: 0 <= j < |states| && Makes(c, states[j], Succeeded(context, init[..i]), init[i].call)
      {
        assert init[..i] == attempts[..i] && init[i] == attempts[i];
      }
      MadeObeys(c, states, actions, context, init);
      var j :| 0 <= j < |states| && Makes(c, states[j], Succeeded(context, attempts[..k]), attempts[k].call);
      var action, m :| MakesIn(c, states[j], action, m, Succeeded(context, attempts[..k]), attempts[k].call);
      RS.ReachableInv(c, states, actions, j);
      CallAllowed(c, states[j], action, m, Succeeded(context, attempts[..k]), attempts[k].call);
    }
  }

  // ---------------------------------------------------------------- every run is one of these

  lemma {:induction false} SinkGrows(c: RL.Config, states: seq<RL.Loop>, actions: seq<RL.Action>, n: nat, k: nat)
    requires RL.Execution(c, states, actions) && n < |states| && k < |states[n].sink|
    ensures exists j :: 0 <= j < |states| && Makes(c, states[j], states[n].sink[..k], states[n].sink[k])
  {
    if n > 0 {
      var s, action := states[n - 1], actions[n - 1];
      hide RL.Can, RL.Do, RL.Initial, RL.SinkCalls;
      SinkAfter(c, s, action);
      if k < |s.sink| {
        SinkGrows(c, states, actions, n - 1, k);
        assert states[n].sink[..k] == s.sink[..k];
      } else {
        var m := k - |s.sink|;
        assert states[n].sink[..k] == s.sink + RL.SinkCalls(c, s, action)[..m];
        assert MakesIn(c, s, action, m, states[n].sink[..k], states[n].sink[k]);
        assert Makes(c, states[n - 1], states[n].sink[..k], states[n].sink[k]);
      }
    }
  }

  lemma {:induction false} SucceededLength(context: Context, attempts: seq<Attempt>)
    ensures |Succeeded(context, attempts)| <= |attempts|
  {
    hide Publish;
    if attempts != [] {
      SucceededLength(context, attempts[..|attempts| - 1]);
    }
  }

  // If as many calls returned as were attempted, each prefix returned, too.
  lemma {:induction false} AllReturned(context: Context, attempts: seq<Attempt>, k: nat)
    requires |Succeeded(context, attempts)| == |attempts| && k <= |attempts|
    ensures Succeeded(context, attempts[..k]) == Succeeded(context, attempts)[..k]
    ensures k < |attempts| ==> attempts[k].call == Succeeded(context, attempts)[k]
  {
    hide Publish;
    if k == |attempts| {
      assert attempts[..k] == attempts;
    } else {
      var init := attempts[..|attempts| - 1];
      SucceededLength(context, init);
      assert Succeeded(context, attempts) == Succeeded(context, init) + [attempts[|attempts| - 1].call];
      AllReturned(context, init, k);
      assert init[..k] == attempts[..k];
    }
  }

  // The stream of a run whose calls have all returned so far.
  lemma RunIsMade(c: RL.Config, states: seq<RL.Loop>, actions: seq<RL.Action>, n: nat, context: Context,
                  attempts: seq<Attempt>)
    requires RL.Execution(c, states, actions) && n < |states|
    requires Succeeded(context, attempts) == states[n].sink && |attempts| == |states[n].sink|
    ensures MadeBy(c, states, context, attempts)
  {
    hide RL.Execution, Makes, Succeeded;
    forall k | 0 <= k < |attempts|
      ensures exists j :: 0 <= j < |states| && Makes(c, states[j], Succeeded(context, attempts[..k]), attempts[k].call)
    {
      AllReturned(context, attempts, k);
      SinkGrows(c, states, actions, n, k);
    }
  }

  // From the loop to the client: whatever the model answers, the users decide, and which
  // call of the run raises, however the body is cut into chunks, the client takes some list
  // of events if and only if all texts are clean and all failure messages short, and that
  // list is exactly what was emitted.
  lemma LoopToClient(c: RL.Config, states: seq<RL.Loop>, actions: seq<RL.Action>, context: Context,
                     attempts: seq<Attempt>, chunks: seq<string>, input: Input, events: seq<Event>, ids: string -> nat)
    requires RL.Execution(c, states, actions) && context.session == c.session
    requires MadeBy(c, states, context, attempts) && ShowsUuids(context.show) && Undoes(ids, context.show)
    requires StateAfter(context, attempts).queue != []
    requires Flatten(chunks) == EF.EncodeAll(Frames(StateAfter(context, attempts).queue, context.show))
    requires var s := StateAfter(context, attempts); s.identity.Some? ==> Expected(input, context, s.identity.value)
    ensures var queue := StateAfter(context, attempts).queue;
            ClientTakes(chunks, events, context.show(context.request), ids, input) <==>
            events == queue && AllClean(queue) && AllShort(queue)
  {
    hide RL.Execution, MadeBy, Obeys, StateAfter, ClientTakes, Flatten, EF.EncodeAll, ShowsUuids, Undoes;
    MadeObeys(c, states, actions, context, attempts);
    CallsToEvents(context, attempts, chunks, input, events, ids);
  }
}

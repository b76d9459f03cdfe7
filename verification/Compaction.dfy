/**
 One compaction per turn: choose a prefix, ask the provider at most three times for
 a summary, and append it only if the resulting view fits.
 */
module Compaction {
  import opened Wrappers
  import opened Messages
  import opened ContextWindow
  import opened ConversationStore
  import opened ConversationHistory

  datatype Attempt = Answer(text: string) | GatewayFailure

  // What the budget, the provider and the user's cancel button answer during one call.
  datatype World = World(
    cancelledFirst: bool,        // before anything
    overThreshold: bool,         // the estimate asks for compaction
    viewFits: bool,              // the unchanged view fits the input budget
    requestFits: bool,           // the summary request itself fits
    cancelled: seq<bool>,        // before each provider attempt
    attempts: seq<Attempt>,
    candidateFits: bool,         // the view with the new summary fits
    cancelledLast: bool)         // before the commit
  {
    predicate Complete() {
      |cancelled| == 3 && |attempts| == 3
    }
  }

  datatype Outcome = Kept | Appended | Cancelled | OverBudget | ProviderFailed | Refused

  predicate Usable(attempt: Attempt) {
    attempt.Answer? && !Blank(attempt.text)
  }

  // The attempts before the k-th failed, the k-th is usable and nobody cancelled up to it.
  predicate AnswersAt(world: World, k: int)
    requires world.Complete()
  {
    && 0 <= k < 3
    && (forall i :: 0 <= i < k ==> !Usable(world.attempts[i]))
    && (forall i :: 0 <= i <= k ==> !world.cancelled[i])
    && Usable(world.attempts[k])
  }

  // A cancellation meets an attempt before any of them was usable.
  predicate CancelledEarly(world: World)
    requires world.Complete()
  {
    exists k :: 0 <= k < 3 && world.cancelled[k] && forall i :: 0 <= i < k ==> !Usable(world.attempts[i])
  }

  // The last record of the prefix to summarise, if there is one.
  function Boundary(store: Store, percent: int): Option<int> {
    match CompactablePrefix(After(store.messages, Covered(store.summaries)), percent)
    case Err(_) => None
    case Ok(prefix) => if prefix == [] then None else Some(prefix[|prefix| - 1].sequence)
  }

  method AskProvider(world: World) returns (text: Option<string>, failure: Outcome)
    requires world.Complete()
    ensures text.Some? <==> exists k :: AnswersAt(world, k)
    ensures text.Some? ==> !Blank(text.value)
    ensures text.Some? ==> exists k :: AnswersAt(world, k) && text.value == world.attempts[k].text
    ensures text.None? ==> failure == if CancelledEarly(world) then Outcome.Cancelled else ProviderFailed
    ensures text.Some? ==> !CancelledEarly(world)
  {
    failure := ProviderFailed;
    var attempt := 0;
    while attempt < 3
      invariant 0 <= attempt <= 3
      invariant forall i :: 0 <= i < attempt ==> !Usable(world.attempts[i]) && !world.cancelled[i]
    {
      if world.cancelled[attempt] {
        return None, Outcome.Cancelled;
      }
      if Usable(world.attempts[attempt]) {
        assert AnswersAt(world, attempt);
        return Some(world.attempts[attempt].text), failure;
      }
      attempt := attempt + 1;
    }
    text := None;
  }

  // The chosen boundary is one the store accepts together with any usable text.
  lemma BoundaryCommits(store: Store, percent: int, text: string)
    requires Inv(store) && JustLoaded(store) && 1 <= percent <= 99
    requires Boundary(store, percent).Some? && !Blank(text)
    ensures var after := Commit(store, Revision(store.summaries), Boundary(store, percent).value, text, Current(store));
            && after.Ok? && Inv(after.value)
            && after.value == store.(summaries := store.summaries
                 + [Summary(Revision(store.summaries) + 1, Boundary(store, percent).value, text, Current(store))])
  {
    CompactionAccepted(store, percent, text);
    CommitKeepsInv(store, Boundary(store, percent).value, text);
  }

  // The last step: append the row for the boundary chosen from the current tables.
  method AppendSummary(tables: ConversationTables, percent: int, text: string) returns (appended: bool)
    requires Inv(tables.Value()) && JustLoaded(tables.Value()) && 1 <= percent <= 99
    requires Boundary(tables.Value(), percent).Some? && !Blank(text)
    modifies tables`summaries
    ensures appended && Inv(tables.Value())
    ensures tables.summaries == old(tables.summaries)
              + [Summary(Revision(old(tables.summaries)) + 1, Boundary(old(tables.Value()), percent).value,
                         text, Current(old(tables.Value())))]
  {
    hide Inv, CompactablePrefix, Units, BoundaryOk, ChainOk;
    BoundaryCommits(tables.Value(), percent, text);
    var boundary := Boundary(tables.Value(), percent);
    var loaded := tables.LoadSummaries();
    var committed := tables.CommitCandidate(
      Revision(loaded.value), boundary.value, text, tables.runs[|tables.runs| - 1].id);
    appended := committed.Ok?;
  }

  method Compact(tables: ConversationTables, percent: int, source: RunId, world: World) returns (outcome: Outcome)
    requires world.Complete()
    requires Inv(tables.Value()) && JustLoaded(tables.Value()) && source == Current(tables.Value())
    requires 1 <= percent <= 99
    modifies tables`summaries
    // The stored boundary is never refused, and nothing but one appended row can change.
    ensures outcome != Refused
    ensures outcome != Appended ==> tables.Value() == old(tables.Value())
    ensures outcome == Appended ==>
              exists k :: AnswersAt(world, k) &&
                tables.summaries == old(tables.summaries)
                  + [Summary(Revision(old(tables.summaries)) + 1, Boundary(old(tables.Value()), percent).GetOr(0),
                             world.attempts[k].text, source)]
    ensures outcome == Appended <==>
            && !world.cancelledFirst && world.overThreshold && world.requestFits
            && Boundary(old(tables.Value()), percent).Some?
            && (exists k :: AnswersAt(world, k))
            && world.candidateFits && !world.cancelledLast
    // What is answered otherwise: the first thing that goes wrong.
    ensures var boundary := Boundary(old(tables.Value()), percent);
            var wanted := !world.cancelledFirst && world.overThreshold && boundary.Some?;
            var asked := wanted && world.requestFits;
            var answered := asked && exists k :: AnswersAt(world, k);
            && (outcome == Kept <==> !world.cancelledFirst && !wanted && world.viewFits)
            && (outcome == OverBudget <==>
                  || (!world.cancelledFirst && !wanted && !world.viewFits)
                  || (wanted && !world.requestFits) || (answered && !world.candidateFits))
            && (outcome == Outcome.Cancelled <==>
                  || world.cancelledFirst || (asked && CancelledEarly(world))
                  || (answered && world.candidateFits && world.cancelledLast))
            && (outcome == ProviderFailed <==> asked && !CancelledEarly(world) && !answered)
    // Afterwards the model sees the provider's text as the last of the summaries.
    ensures outcome == Appended ==>
              var view, n := Project(tables.messages, tables.summaries), |old(tables.summaries)|;
              |view| >= n + 2 && exists k :: AnswersAt(world, k) && Quotes(view[n + 1], world.attempts[k].text)
    ensures Inv(tables.Value())
  {
    hide Inv, Project, Quotes, Boundary, JustLoaded;
    if world.cancelledFirst {
      return Outcome.Cancelled;
    }
    var boundary := Boundary(tables.Value(), percent);
    if !world.overThreshold || boundary.None? {
      return if world.viewFits then Kept else OverBudget;
    }
    if !world.requestFits {
      return OverBudget;
    }
    var text, failure := AskProvider(world);
    if text.None? {
      return failure;
    }
    if !world.candidateFits {
      return OverBudget;
    }
    if world.cancelledLast {
      return Outcome.Cancelled;
    }
    var appended := AppendSummary(tables, percent, text.value);
    ViewQuotesSummaries(tables.messages, tables.summaries);
    outcome := if appended then Appended else Refused;
  }
}

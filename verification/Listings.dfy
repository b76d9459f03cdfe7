/**
 Directory listings in bounded batches: a cursor over the server's enumeration, an exact
 sequence number for every further batch, and a look past the limit before it is called
 exceeded.
 */
module Listings {
  import opened Wrappers
  import opened Sequences

  const BATCH_SIZE := 200
  const MAX_ENTRIES := 50000

  // What the server enumerates; "." and ".." come along and are skipped.
  function Real(items: seq<string>): seq<string> {
    if items == [] then []
    else (if Special(items[0]) then [] else [items[0]]) + Real(items[1..])
  }

  predicate Special(name: string) {
    name == "." || name == ".."
  }

  datatype Cursor = Cursor(items: seq<string>, expected: nat, observed: nat)

  datatype Batch = Batch(listing: nat, entries: seq<string>, nextSequence: nat, done: bool, observed: nat)

  datatype ListingError = NotFound | SequenceInvalid | EntryLimit

  // What one more batch of a cursor is.
  function Expected(cursor: Cursor): Result<(seq<string>, bool), ListingError> {
    var names := Real(cursor.items);
    if |names| >= BATCH_SIZE && cursor.observed + BATCH_SIZE <= MAX_ENTRIES then Ok((names[..BATCH_SIZE], false))
    else if cursor.observed + |names| <= MAX_ENTRIES then Ok((names, true))
    else Err(EntryLimit)
  }

  predicate CursorOk(cursor: Cursor) {
    cursor.observed <= MAX_ENTRIES && cursor.observed % BATCH_SIZE == 0
  }

  lemma RealHead(items: seq<string>, entries: seq<string>)
    requires items != []
    ensures Special(items[0]) ==> Real(items) == Real(items[1..])
    ensures !Special(items[0]) ==> entries + Real(items) == entries + [items[0]] + Real(items[1..])
  {
    if Special(items[0]) {
      assert [] + Real(items[1..]) == Real(items[1..]);
    } else {
      assert entries + ([items[0]] + Real(items[1..])) == entries + [items[0]] + Real(items[1..]);
    }
  }

  // Reads until the batch is full, the enumeration ends, or the limit proves exceeded.
  method ReadBatch(cursor: Cursor) returns (next: Cursor, result: Result<(seq<string>, bool), ListingError>)
    requires CursorOk(cursor)
    ensures result == Expected(cursor)
    ensures result.Ok? ==>
              && next.expected == cursor.expected + 1 && next.observed == cursor.observed + |result.value.0|
              && Real(cursor.items) == result.value.0 + Real(next.items)
              && (result.value.1 ==> Real(next.items) == [])
  {
    var entries: seq<string> := [];
    var items, observed := cursor.items, cursor.observed;
    assert Real([]) == [];
    hide Real, Special;
    assert Real(items) == [] + Real(items);
    while |entries| < BATCH_SIZE
      invariant |entries| <= BATCH_SIZE && observed == cursor.observed + |entries| <= MAX_ENTRIES
      invariant Real(cursor.items) == entries + Real(items)
      decreases |items|
    {
      if observed == MAX_ENTRIES {
        var more := LookAhead(items);
        if more {
          return cursor, Err(EntryLimit);
        }
        assert entries + [] == entries;
        return Cursor([], cursor.expected + 1, observed), Ok((entries, true));
      }
      if items == [] {
        assert entries + [] == entries;
        return Cursor([], cursor.expected + 1, observed), Ok((entries, true));
      }
      RealHead(items, entries);
      var item := items[0];
      items := items[1..];
      if Special(item) {
        continue;
      }
      entries := entries + [item];
      observed := observed + 1;
    }
    assert (entries + Real(items))[..BATCH_SIZE] == entries;
    next := Cursor(items, cursor.expected + 1, observed);
    result := Ok((entries, false));
  }

  // Whether anything but "." and ".." is still to come.
  method LookAhead(items: seq<string>) returns (more: bool)
    ensures more <==> Real(items) != []
  {
    var rest := items;
    while rest != []
      invariant Real(rest) == Real(items)
    {
      if !Special(rest[0]) {
        return true;
      }
      rest := rest[1..];
    }
    more := false;
  }

  class ListingManager {
    var cursors: map<nat, Cursor>
    var used: nat

    ghost predicate Valid()
      reads this
    {
      forall id :: id in cursors ==> id < used && CursorOk(cursors[id])
    }

    constructor ()
      ensures Valid() && cursors == map[]
    {
      cursors, used := map[], 0;
    }

    // The first batch never runs into the limit.
    method Begin(items: seq<string>) returns (batch: Batch)
      requires Valid()
      modifies this
      ensures Valid()
      ensures var expected := Expected(Cursor(items, 0, 0));
              && expected.Ok?
              && var (entries, done) := expected.value;
                 && batch == Batch(old(used), entries, 1, done, |entries|)
                 && (done ==> cursors == old(cursors) && Real(items) == entries)
                 && (!done ==> Advanced(old(cursors), cursors, old(used), Cursor(items, 0, 0), entries))
    {
      hide Real;
      var id := used;
      used := used + 1;
      var cursor, read := ReadBatch(Cursor(items, 0, 0));
      assert read.value.0 + [] == read.value.0;
      if !read.value.1 {
        cursors := cursors[id := cursor];
      }
      batch := Batch(id, read.value.0, cursor.expected, read.value.1, cursor.observed);
    }

    method Next(id: nat, sequence: int) returns (outcome: Result<Batch, ListingError>)
      requires Valid()
      modifies this`cursors
      ensures Valid()
      ensures id !in old(cursors) ==> outcome == Err(NotFound) && cursors == old(cursors)
      ensures id in old(cursors) && sequence != old(cursors)[id].expected ==>
                outcome == Err(SequenceInvalid) && cursors == old(cursors) - {id}
      ensures id in old(cursors) && sequence == old(cursors)[id].expected ==>
                match Expected(old(cursors)[id])
                case Err(error) => outcome == Err(error) && cursors == old(cursors) - {id}
                case Ok((entries, done)) =>
                  && outcome == Ok(Batch(id, entries, sequence + 1, done, old(cursors)[id].observed + |entries|))
                  && (done ==> cursors == old(cursors) - {id} && Real(old(cursors)[id].items) == entries)
                  && (!done ==> Advanced(old(cursors), cursors, id, old(cursors)[id], entries))
    {
      if id !in cursors {
        return Err(NotFound);
      }
      var cursor := cursors[id];
      if sequence != cursor.expected {
        cursors := cursors - {id};
        return Err(SequenceInvalid);
      }
      var after, read := ReadBatch(cursor);
      if read.Err? {
        cursors := cursors - {id};
        return Err(read.error);
      }
      cursors := if read.value.1 then cursors - {id} else cursors[id := after];
      outcome := Ok(Batch(id, read.value.0, after.expected, read.value.1, after.observed));
    }
  }

  // Only one cursor moved, past the entries of its batch.
  predicate Advanced(before: map<nat, Cursor>, after: map<nat, Cursor>, id: nat, cursor: Cursor, entries: seq<string>) {
    && id in after && after == before[id := after[id]]
    && after[id].expected == cursor.expected + 1 && after[id].observed == cursor.observed + |entries|
    && Real(cursor.items) == entries + Real(after[id].items)
  }

  // After some full batches, with `left` still to come.
  predicate Full(names: seq<string>, batches: seq<seq<string>>, left: seq<string>) {
    && Flatten(batches) + left == names && |Flatten(batches)| == BATCH_SIZE * |batches| <= MAX_ENTRIES
    && forall i :: 0 <= i < |batches| ==> |batches[i]| == BATCH_SIZE
  }

  predicate AllListed(names: seq<string>, batches: seq<seq<string>>) {
    && batches != [] && Flatten(batches) == names && |batches| == |names| / BATCH_SIZE + 1
    && |names| <= MAX_ENTRIES
    && forall i :: 0 <= i < |batches| - 1 ==> |batches[i]| == BATCH_SIZE
  }

  lemma FullNext(names: seq<string>, batches: seq<seq<string>>, cursor: Cursor, more: seq<string>)
    requires Full(names, batches, Real(cursor.items)) && cursor.observed == BATCH_SIZE * |batches|
    requires Expected(cursor).Ok? && !Expected(cursor).value.1
    requires Real(cursor.items) == Expected(cursor).value.0 + more
    ensures Full(names, batches + [Expected(cursor).value.0], more)
  {
    hide Real;
    var entries := Expected(cursor).value.0;
    FlattenNext(batches, entries);
    hide Flatten;
    assert Flatten(batches) + (entries + more) == (Flatten(batches) + entries) + more;
  }

  lemma FullDone(names: seq<string>, batches: seq<seq<string>>, cursor: Cursor)
    requires Full(names, batches, Real(cursor.items)) && cursor.observed == BATCH_SIZE * |batches|
    requires Expected(cursor).Ok? && Expected(cursor).value.1
    ensures AllListed(names, batches + [Expected(cursor).value.0])
  {
    hide Real;
    FlattenNext(batches, Expected(cursor).value.0);
    hide Flatten;
  }

  lemma FullLimit(names: seq<string>, batches: seq<seq<string>>, cursor: Cursor)
    requires Full(names, batches, Real(cursor.items)) && cursor.observed == BATCH_SIZE * |batches|
    requires Expected(cursor).Err?
    ensures Expected(cursor).error == EntryLimit && |names| > MAX_ENTRIES
    ensures |batches| == MAX_ENTRIES / BATCH_SIZE && Flatten(batches) == names[..MAX_ENTRIES]
  {
    hide Real, Flatten;
    assert (Flatten(batches) + Real(cursor.items))[..|Flatten(batches)|] == Flatten(batches);
  }

  lemma FullStart(names: seq<string>)
    ensures Full(names, [], names)
  {
    assert [] + names == names;
  }

  // A client that follows the sequence numbers gets every entry once, in order, in n / 200 + 1
  // batches, if there are at most 50000 of them; otherwise the limit is reported right after
  // the first 50000.
  method ListDirectory(manager: ListingManager, items: seq<string>)
    returns (batches: seq<seq<string>>, error: Option<ListingError>)
    requires manager.Valid()
    modifies manager
    ensures manager.Valid()
    ensures error.None? ==> AllListed(Real(items), batches)
    ensures error.Some? ==>
              && error.value == EntryLimit && |Real(items)| > MAX_ENTRIES
              && |batches| == MAX_ENTRIES / BATCH_SIZE && Flatten(batches) == Real(items)[..MAX_ENTRIES]
    ensures error.None? <==> |Real(items)| <= MAX_ENTRIES
  {
    hide Real, Flatten, Full, Expected;
    ghost var cursor := Cursor(items, 0, 0);
    var batch := manager.Begin(items);
    FullStart(Real(items));
    batches, error := [], None;
    if batch.done {
      FullDone(Real(items), [], cursor);
      assert [] + [batch.entries] == [batch.entries];
      return [batch.entries], None;
    }
    FullNext(Real(items), [], cursor, Real(manager.cursors[batch.listing].items));
    BatchSize(cursor);
    batches := [batch.entries];
    assert [] + [batch.entries] == [batch.entries];
    while true
      invariant manager.Valid() && batch.listing in manager.cursors && !batch.done
      invariant manager.cursors[batch.listing].expected == batch.nextSequence
      invariant manager.cursors[batch.listing].observed == BATCH_SIZE * |batches|
      invariant Full(Real(items), batches, Real(manager.cursors[batch.listing].items))
      decreases MAX_ENTRIES - BATCH_SIZE * |batches|
    {
      cursor := manager.cursors[batch.listing];
      var outcome := manager.Next(batch.listing, batch.nextSequence);
      if outcome.Err? {
        FullLimit(Real(items), batches, cursor);
        return batches, Some(outcome.error);
      }
      batch := outcome.value;
      if batch.done {
        FullDone(Real(items), batches, cursor);
        return batches + [batch.entries], None;
      }
      FullNext(Real(items), batches, cursor, Real(manager.cursors[batch.listing].items));
      FullBound(Real(items), batches + [batch.entries], Real(manager.cursors[batch.listing].items));
      BatchSize(cursor);
      batches := batches + [batch.entries];
    }
  }

  lemma FullBound(names: seq<string>, batches: seq<seq<string>>, left: seq<string>)
    requires Full(names, batches, left)
    ensures BATCH_SIZE * |batches| <= MAX_ENTRIES
  {
  }

  lemma BatchSize(cursor: Cursor)
    ensures Expected(cursor).Ok? && !Expected(cursor).value.1 ==> |Expected(cursor).value.0| == BATCH_SIZE
  {
  }
}

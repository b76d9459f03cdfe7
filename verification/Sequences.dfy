/** Putting parts together again: chunks of a body, units of a history, batches of a listing. */
module Sequences {
  function Flatten<T>(parts: seq<seq<T>>): seq<T> {
    if parts == [] then [] else Flatten(parts[..|parts| - 1]) + parts[|parts| - 1]
  }

  lemma FlattenNext<T>(parts: seq<seq<T>>, part: seq<T>)
    ensures Flatten(parts + [part]) == Flatten(parts) + part
  {
    assert (parts + [part])[..|parts|] == parts;
  }

  lemma {:induction false} FlattenHead<T>(parts: seq<seq<T>>)
    requires parts != []
    ensures Flatten(parts) == parts[0] + Flatten(parts[1..])
  {
    if |parts| == 1 {
      assert parts[..0] == [] && parts[1..] == [];
      assert [] + parts[0] == parts[0] && parts[0] + [] == parts[0];
    } else {
      var init, last := parts[..|parts| - 1], parts[|parts| - 1];
      FlattenHead(init);
      assert init[0] == parts[0] && init[1..] == parts[1..][..|parts| - 2] && parts[1..][|parts| - 2] == last;
    }
  }
}

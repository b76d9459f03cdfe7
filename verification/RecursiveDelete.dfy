/**
 Recursive deletion of a remote directory: check the root, rename it aside, scan it again,
 delete it bottom-up only if it is exactly the confirmed tree, and record how it ended. The
 process may die between any two steps, and every reply may be lost.
 */
module RecursiveDelete {
  import opened Wrappers
  import opened RemoteTree
  import opened RemoteFs

  datatype OperationState = Preparing | Succeeded | Failed | CleanupRequired | OutcomeUnknown

  class DeletePlan {
    const root: string
    const tombstone: string
    const manifest: seq<ManifestEntry>
    const rootAttrs: Attrs
    var state: OperationState
    var consumed: bool
    // The process still holds the session the plan was made for.
    var bound: bool

    constructor (root: string, tombstone: string, manifest: seq<ManifestEntry>, rootAttrs: Attrs)
      ensures this.root == root && this.tombstone == tombstone && this.manifest == manifest
      ensures this.rootAttrs == rootAttrs && state == Preparing && !consumed && bound
    {
      this.root, this.tombstone, this.manifest, this.rootAttrs := root, tombstone, manifest, rootAttrs;
      state, consumed, bound := Preparing, false, true;
    }

    // The operation record first, then the plan; the process may die in between.
    method Finalise(outcome: OperationState, life: nat)
      modifies this`state, this`consumed
      ensures state == if life > 0 then outcome else old(state)
      ensures consumed == (old(consumed) || life > 1)
    {
      if life > 0 {
        state := outcome;
      }
      if life > 1 {
        consumed := true;
      }
    }
  }

  // What the preflight's root snapshot compares.
  predicate SameRoot(files: Files, root: string, attrs: Attrs) {
    root in files && files[root].kind == attrs.kind && files[root].size == attrs.size && files[root].mtime == attrs.mtime
  }

  ghost predicate Ready(files: Files, root: string, tombstone: string, tree: Tree) {
    && WellFormed(tree) && PlainPath(root) && PlainPath(tombstone) && TreeAt(files, root, tree)
    && Movable(files, root, tombstone)
  }

  // ---------------------------------------------------------------- what can be left behind

  predicate Elsewhere(root: string, tombstone: string, p: string) {
    !Within(root, p) && !Within(tombstone, p)
  }

  predicate OthersSame(before: Files, after: Files, root: string, tombstone: string) {
    (forall p :: p in before && Elsewhere(root, tombstone, p) ==> p in after && after[p] == before[p])
    && (forall p :: p in after && Elsewhere(root, tombstone, p) ==> p in before)
  }

  // Everything that is left of the tree stands under the tombstone, unchanged.
  predicate Aside(before: Files, after: Files, root: string, tombstone: string) {
    && Vacant(after, root)
    && (forall p :: p in after && Within(tombstone, p) ==>
          Origin(p, root, tombstone) in before && after[p] == before[Origin(p, root, tombstone)])
    && (tombstone in after || Vacant(after, tombstone))
  }

  predicate Left(before: Files, after: Files, root: string, tombstone: string) {
    && OthersSame(before, after, root, tombstone)
    && (after == before || Aside(before, after, root, tombstone))
  }

  predicate AllGone(files: Files, root: string, tombstone: string) {
    Vacant(files, root) && Vacant(files, tombstone)
  }

  // An entry of the tree that is in neither place any more.
  predicate Lacks(before: Files, after: Files, root: string, tombstone: string) {
    exists p :: p in before && Within(root, p) && p !in after && Relocate(p, root, tombstone) !in after
  }

  // ---------------------------------------------------------------- the isolated tree

  function Isolated(before: Files, root: string, tombstone: string, ordered: seq<Scanned>, k: nat): Files
    requires k <= |ordered|
  {
    Moved(before, root, tombstone) - Gone(ordered, k)
  }

  lemma MovedRoot(before: Files, root: string, tombstone: string, tree: Tree)
    requires Ready(before, root, tombstone, tree)
    ensures tombstone in Moved(before, root, tombstone)
  {
    hide Moved;
    MovedEntry(before, root, tombstone, tombstone);
    assert root + tombstone[|tombstone|..] == root;
  }

  lemma OrderedCovers(before: Files, root: string, tombstone: string, tree: Tree)
    requires Ready(before, root, tombstone, tree) && ValidNames(tree)
    ensures Covers(Moved(before, root, tombstone), tombstone,
                   DeepestFirst(Sorted(Visit(tree, tombstone, root))))
    ensures Descending(DeepestFirst(Sorted(Visit(tree, tombstone, root))))
  {
    hide Moved, Visit, Sorted, DeepestFirst, WellFormed, ValidNames, PlainPath, TreeAt, Covers, Descending;
    var list := Visit(tree, tombstone, root);
    MovedTree(before, root, tombstone, tree);
    ScanCovers(Moved(before, root, tombstone), tombstone, root, tree);
    SortedKeeps(list);
    DeepestFirstKeeps(Sorted(list));
    CoversPermuted(Moved(before, root, tombstone), tombstone, list, DeepestFirst(Sorted(list)));
    DeepestFirstOrders(Sorted(list));
  }

  // A scan lists the whole subtree once.
  lemma ScanCovers(files: Files, actual: string, projected: string, tree: Tree)
    requires WellFormed(tree) && ValidNames(tree) && PlainPath(actual) && PlainPath(projected)
    requires TreeAt(files, actual, tree)
    ensures Covers(files, actual, Visit(tree, actual, projected))
  {
    hide Visit, WellFormed, ValidNames, PlainPath, Within, Suffix, Lookup;
    var list := Visit(tree, actual, projected);
    ScanDistinct(tree, actual, projected);
    forall i | 0 <= i < |list|
      ensures list[i].actual in files && files[list[i].actual] == list[i].entry.attrs && Within(actual, list[i].actual)
    {
      var names := ScanSound(tree, actual, projected, i);
      WithinSuffix(actual, names);
    }
    forall p | p in files && Within(actual, p) ensures exists i :: 0 <= i < |list| && list[i].actual == p {
      var names :| p == actual + Suffix(names) && Lookup(tree, names).Some?;
      var i := ScanComplete(tree, actual, projected, names);
      assert list[i].actual == p;
    }
  }

  lemma {:induction false} OnceEach(list: seq<Scanned>)
    requires forall i, j :: 0 <= i < j < |list| ==> list[i] != list[j]
    ensures forall x :: multiset(list)[x] <= 1
  {
    if list != [] {
      assert list == [list[0]] + list[1..];
      forall i, j | 0 <= i < j < |list[1..]| ensures list[1..][i] != list[1..][j] {
        assert list[1..][i] == list[i + 1] && list[1..][j] == list[j + 1];
      }
      OnceEach(list[1..]);
      forall x | x in list[1..] ensures x != list[0] {
        var i :| 0 <= i < |list[1..]| && list[1..][i] == x;
        assert list[i + 1] == x;
      }
    }
  }

  lemma TwiceCounts(list: seq<Scanned>, i: nat, j: nat)
    requires i < j < |list| && list[i] == list[j]
    ensures multiset(list)[list[i]] >= 2
  {
    var a, b := list[..j], list[j..];
    assert list == a + b;
    assert list[i] == a[i] && list[j] == b[0];
    assert list[i] in multiset(a) && list[i] in multiset(b);
  }

  lemma CoversPermuted(files: Files, root: string, a: seq<Scanned>, b: seq<Scanned>)
    requires Covers(files, root, a) && multiset(a) == multiset(b)
    ensures Covers(files, root, b)
  {
    hide Within;
    forall i | 0 <= i < |b|
      ensures b[i].actual in files && files[b[i].actual] == b[i].entry.attrs && Within(root, b[i].actual)
    {
      assert b[i] in multiset(b);
      assert b[i] in a;
      var k :| 0 <= k < |a| && a[k] == b[i];
    }
    forall p | p in files && Within(root, p) ensures exists i :: 0 <= i < |b| && b[i].actual == p {
      var k :| 0 <= k < |a| && a[k].actual == p;
      assert a[k] in multiset(a);
      assert a[k] in b;
      var i :| 0 <= i < |b| && b[i] == a[k];
    }
    forall i, j | 0 <= i < j < |b| ensures b[i].actual != b[j].actual {
      PermutedApart(a, b, i, j);
    }
  }

  lemma PermutedApart(a: seq<Scanned>, b: seq<Scanned>, i: nat, j: nat)
    requires multiset(a) == multiset(b) && i < j < |b|
    requires forall k, l :: 0 <= k < l < |a| ==> a[k].actual != a[l].actual
    ensures b[i].actual != b[j].actual
  {
    assert b[i] in multiset(b) && b[j] in multiset(b);
    assert b[i] in a && b[j] in a;
    var k :| 0 <= k < |a| && a[k] == b[i];
    var l :| 0 <= l < |a| && a[l] == b[j];
    if k == l {
      OnceEach(a);
      TwiceCounts(b, i, j);
    }
  }

  // ---------------------------------------------------------------- where it can stop

  lemma MovedOthers(before: Files, root: string, tombstone: string)
    requires Movable(before, root, tombstone)
    ensures OthersSame(before, Moved(before, root, tombstone), root, tombstone)
    ensures forall p :: p in Moved(before, root, tombstone) && Within(tombstone, p) ==>
              Origin(p, root, tombstone) in before
              && Moved(before, root, tombstone)[p] == before[Origin(p, root, tombstone)]
  {
    hide Moved, Within;
    var after := Moved(before, root, tombstone);
    forall p | Elsewhere(root, tombstone, p)
      ensures p in before <==> p in after
      ensures p in after ==> after[p] == before[p]
    {
      MovedEntry(before, root, tombstone, p);
    }
    forall p | p in after && Within(tombstone, p)
      ensures Origin(p, root, tombstone) in before && after[p] == before[Origin(p, root, tombstone)]
    {
      MovedEntry(before, root, tombstone, p);
    }
  }

  // After isolation, with the first k entries of the order deleted.
  ghost predicate At(before: Files, files: Files, root: string, tombstone: string, tree: Tree, ordered: seq<Scanned>, k: nat) {
    && k <= |ordered| && files == Isolated(before, root, tombstone, ordered, k)
    && Ready(before, root, tombstone, tree)
    && Covers(Moved(before, root, tombstone), tombstone, ordered) && Descending(ordered)
  }

  lemma AtIsLeft(before: Files, files: Files, root: string, tombstone: string, tree: Tree, ordered: seq<Scanned>, k: nat)
    requires At(before, files, root, tombstone, tree, ordered, k)
    ensures Left(before, files, root, tombstone) && Aside(before, files, root, tombstone) && files != before
    ensures k == |ordered| <==> AllGone(files, root, tombstone)
    ensures tombstone in files <==> k < |ordered|
  {
    hide Within, Moved, WellFormed, PlainPath, TreeAt, Descending, Gone, Origin, Elsewhere;
    var moved := Moved(before, root, tombstone);
    MovedTree(before, root, tombstone, tree);
    MovedOthers(before, root, tombstone);
    MovedRoot(before, root, tombstone, tree);
    RootIsLast(moved, tombstone, ordered);
    WithinSelf(tombstone);
    WithinSelf(root);
    OnlyTreeGone(before, root, tombstone, ordered, k);
    assert root in before && root !in files;
    if k == |ordered| {
      GoneAll(moved, tombstone, ordered);
    } else {
      LastStays(ordered, k);
    }
  }

  lemma WithinSelf(path: string)
    ensures Within(path, path)
  {
  }

  lemma OnlyTreeGone(before: Files, root: string, tombstone: string, ordered: seq<Scanned>, k: nat)
    requires Covers(Moved(before, root, tombstone), tombstone, ordered) && k <= |ordered|
    ensures forall p :: Elsewhere(root, tombstone, p) ==> p !in Gone(ordered, k)
  {
    hide Within, Moved;
  }

  lemma LastStays(ordered: seq<Scanned>, k: nat)
    requires k < |ordered| && forall i, j :: 0 <= i < j < |ordered| ==> ordered[i].actual != ordered[j].actual
    ensures ordered[|ordered| - 1].actual !in Gone(ordered, k)
  {
  }

  lemma AtMissing(before: Files, root: string, tombstone: string, tree: Tree)
    requires Ready(before, root, tombstone, tree)
    ensures !Lacks(before, Moved(before, root, tombstone), root, tombstone)
  {
    hide Moved, TreeAt, WellFormed, PlainPath;
    forall p | p in before && Within(root, p) ensures Relocate(p, root, tombstone) in Moved(before, root, tombstone) {
      WithinShift(tombstone, root, p);
      MovedEntry(before, root, tombstone, Relocate(p, root, tombstone));
    }
  }

  // ---------------------------------------------------------------- the deletion

  datatype Ending = Completed | Stopped | Died

  predicate AllServed(replies: nat -> Reply, first: nat, end: nat) {
    forall i :: first <= i < end ==> replies(i).Served?
  }

  // Deletes the ordered entries one by one; stops at the first that is not confirmed. The
  // replies start with number `first`.
  method DeleteEntries(server: RemoteServer, ordered: seq<Scanned>, replies: nat -> Reply, first: nat, life: nat,
                       ghost before: Files, ghost root: string, ghost tombstone: string, ghost tree: Tree)
    returns (ending: Ending, spent: nat, ghost deleted: nat)
    requires At(before, server.files, root, tombstone, tree, ordered, 0) && ordered != []
    modifies server
    ensures At(before, server.files, root, tombstone, tree, ordered, deleted)
    ensures ending.Completed? <==> AllServed(replies, first, first + |ordered|) && |ordered| <= life
    ensures deleted == |ordered| <==>
              AllServed(replies, first, first + |ordered| - 1) && Acts(replies(first + |ordered| - 1)) && |ordered| <= life
    ensures ending.Completed? ==> deleted == |ordered| == spent
    ensures ending.Stopped? ==> spent < life && spent < |ordered| && !replies(first + spent).Served?
    ensures ending.Died? ==> spent == life < |ordered|
    ensures AllServed(replies, first, first + spent)
  {
    hide At, Removable;
    spent, deleted := 0, 0;
    while spent < |ordered|
      invariant 0 <= spent <= |ordered| && spent <= life && deleted == spent
      invariant AllServed(replies, first, first + spent)
      invariant At(before, server.files, root, tombstone, tree, ordered, spent)
    {
      if spent == life {
        return Died, spent, deleted;
      }
      NextStep(before, server.files, root, tombstone, tree, ordered, spent);
      var reply := replies(first + spent);
      var answer := server.Remove(ordered[spent].actual, ordered[spent].entry.attrs.kind == Directory, reply);
      if !answer.Done? {
        deleted := if Acts(reply) then spent + 1 else spent;
        assert !replies(first + spent).Served?;
        return Stopped, spent, deleted;
      }
      spent, deleted := spent + 1, spent + 1;
    }
    ending := Completed;
  }

  lemma NextStep(before: Files, files: Files, root: string, tombstone: string, tree: Tree, ordered: seq<Scanned>, k: nat)
    requires At(before, files, root, tombstone, tree, ordered, k) && k < |ordered|
    ensures Removable(files, ordered[k].actual, ordered[k].entry.attrs.kind == Directory)
    ensures At(before, files - {ordered[k].actual}, root, tombstone, tree, ordered, k + 1)
  {
    hide Moved, Ready, Covers, Descending, Removable;
    NextIsRemovable(Moved(before, root, tombstone), tombstone, ordered, k);
    GoneNext(Moved(before, root, tombstone), ordered, k);
  }

  lemma MovedIsLeft(before: Files, root: string, tombstone: string, tree: Tree)
    requires Ready(before, root, tombstone, tree)
    ensures var files := Moved(before, root, tombstone);
            && Left(before, files, root, tombstone) && !AllGone(files, root, tombstone) && files != before
            && tombstone in files
  {
    hide Within, Moved, WellFormed, PlainPath, TreeAt, Origin, Elsewhere;
    MovedTree(before, root, tombstone, tree);
    MovedOthers(before, root, tombstone);
    MovedRoot(before, root, tombstone, tree);
    WithinSelf(root);
    WithinSelf(tombstone);
  }

  lemma SameIsLeft(files: Files, root: string, tombstone: string)
    ensures Left(files, files, root, tombstone) && !Lacks(files, files, root, tombstone)
  {
  }

  // The isolated tree will be found to be the confirmed one.
  predicate Confirmed(files: Files, root: string, tombstone: string, attrs: Attrs, manifest: seq<ManifestEntry>, tree: Tree) {
    && SameRoot(files, root, attrs) && ValidNames(tree) && Count(tree) <= MAX_ENTRIES
    && Manifest(tree, tombstone, root) == manifest
  }

  // Requests 0, 1 and 2 are the look at the root, the rename and the second scan; one
  // request for each of the `n` entries follows, then the last look; then two writes.
  predicate Isolates(same: bool, replies: nat -> Reply, life: int) {
    same && replies(0).Served? && Acts(replies(1)) && life >= 2
  }

  predicate Empties(n: nat, replies: nat -> Reply, life: int) {
    AllServed(replies, 0, n + 2) && Acts(replies(n + 2)) && life >= n + 3
  }

  predicate Undisturbed(n: nat, replies: nat -> Reply, life: int) {
    AllServed(replies, 0, n + 4) && life >= n + 5
  }

  // Everything has been deleted, and the very last look at the tombstone times out.
  predicate TimesOutLate(n: nat, replies: nat -> Reply, life: int) {
    AllServed(replies, 0, n + 3) && replies(n + 3).Lost? && life >= n + 5
  }

  lemma CoursesAgree(n: nat, replies: nat -> Reply, life: int)
    ensures Undisturbed(n, replies, life) || TimesOutLate(n, replies, life) ==> Empties(n, replies, life)
    ensures Undisturbed(n, replies, life - 1) ==> Undisturbed(n, replies, life)
    ensures !(Undisturbed(n, replies, life) && TimesOutLate(n, replies, life))
    ensures Empties(n, replies, life) ==> Isolates(true, replies, life)
  {
  }

  // Request `k` is the last one: everything before it was served, and it is the first that is
  // not, or the root has changed, or the second scan is not the confirmed tree, or it is the
  // last look.
  predicate EndsAt(same: bool, confirmed: bool, n: nat, replies: nat -> Reply, k: nat) {
    && AllServed(replies, 0, k) && k <= n + 3
    && (k > 0 ==> same) && (k > 2 ==> confirmed)
    && (!replies(k).Served? || (k == 0 && !same) || (k == 2 && !confirmed) || k == n + 3)
  }

  lemma EndsOnce(same: bool, confirmed: bool, n: nat, replies: nat -> Reply, k: nat, l: nat)
    requires EndsAt(same, confirmed, n, replies, k) && EndsAt(same, confirmed, n, replies, l)
    ensures k == l
  {
  }

  // The record by the course of the requests.
  lemma RecordTells(n: nat, replies: nat -> Reply, life: int, last: nat, state: OperationState, confirmed: bool)
    requires EndsAt(true, confirmed, n, replies, last) && AllServed(replies, 0, 2) && n > 0
    requires if life < last + 2 then state == Preparing else RecordedAs(state, n, replies(last), last)
    ensures state == Succeeded <==> confirmed && Undisturbed(n, replies, life)
    ensures state == Failed <==> confirmed && TimesOutLate(n, replies, life)
    ensures life >= last + 3 ==> (state == Succeeded <==> confirmed && Undisturbed(n, replies, life - 1))
    ensures life < last + 3 ==> !(confirmed && Undisturbed(n, replies, life - 1))
  {
  }

  lemma NotYet(same: bool, confirmed: bool, n: nat, replies: nat -> Reply, last: nat, k: nat)
    requires EndsAt(same, confirmed, n, replies, last) && same && confirmed && AllServed(replies, 0, k) && k < n + 3
    ensures k <= last
  {
  }

  // How the operation is recorded after its last request, once the process lives to write.
  predicate RecordedAs(state: OperationState, n: nat, last: Reply, k: nat) {
    && (state == Succeeded <==> k == n + 3 && last.Served?)
    && (state == Failed <==> k == 0 || (k == 1 && last.Denied?) || (k == n + 3 && last.Lost?))
    && (state == OutcomeUnknown <==> k == 1 && last.Lost?)
    && (state == CleanupRequired <==> 2 <= k && (k == n + 3 ==> last.Denied?))
    && state != Preparing
  }

  // `life` remote requests and record writes happen before the process dies, or before an
  // error nobody handles, such as a lost connection, leaves the record as it is; `replies`
  // says how each remote request comes back, where a lost reply is one that timed out. A plan
  // is executed at most once by the process that made it.
  method Execute(server: RemoteServer, plan: DeletePlan, tree: Tree, replies: nat -> Reply, life: nat)
    returns (refused: bool, ghost last: nat)
    requires plan.bound && !plan.consumed ==>
               plan.state == Preparing && Ready(server.files, plan.root, plan.tombstone, tree)
    modifies server, plan
    ensures !plan.bound && (refused <==> !old(plan.bound) || old(plan.consumed))
    ensures refused ==>
              server.files == old(server.files) && plan.state == old(plan.state) && plan.consumed == old(plan.consumed)
    // Nothing else is touched, and what is left of the tree stands in one place.
    ensures !refused ==> Left(old(server.files), server.files, plan.root, plan.tombstone)
    ensures server.files != old(server.files) <==>
            !refused && Isolates(SameRoot(old(server.files), plan.root, plan.rootAttrs), replies, life)
    // Nothing is deleted unless the tree is exactly the confirmed one.
    ensures !refused && Lacks(old(server.files), server.files, plan.root, plan.tombstone) ==>
              ValidNames(tree) && Manifest(tree, plan.tombstone, plan.root) == plan.manifest
    // Every course: the last request, when everything goes, what is recorded and when.
    ensures !refused ==>
              var same := SameRoot(old(server.files), plan.root, plan.rootAttrs);
              var confirmed := Confirmed(old(server.files), plan.root, plan.tombstone, plan.rootAttrs, plan.manifest, tree);
              && EndsAt(same, confirmed, Count(tree), replies, last)
              && (life < last + 2 ==> plan.state == Preparing)
              && (life >= last + 2 ==> RecordedAs(plan.state, Count(tree), replies(last), last))
              && (plan.consumed <==> life >= last + 3)
    ensures !refused ==>
              var confirmed := Confirmed(old(server.files), plan.root, plan.tombstone, plan.rootAttrs, plan.manifest, tree);
              var gone := AllGone(server.files, plan.root, plan.tombstone);
              && (gone <==> confirmed && Empties(Count(tree), replies, life))
              && (plan.state == Succeeded <==> confirmed && Undisturbed(Count(tree), replies, life))
              && (plan.state == Succeeded && plan.consumed <==> confirmed && Undisturbed(Count(tree), replies, life - 1))
              && (plan.state == Failed && gone <==> confirmed && TimesOutLate(Count(tree), replies, life))
              && (plan.state == Failed && !gone ==> server.files == old(server.files))
  {
    hide Left, Lacks, Ready, AllGone, At, Moved, Manifest, TreeAt, Visit, DeepestFirst, Sorted, Entries, Movable;
    ghost var before := server.files;
    refused, last := false, 0;
    if plan.consumed || !plan.bound {
      plan.bound := false;
      return true, 0;
    }
    plan.bound := false;
    var root, tombstone := plan.root, plan.tombstone;
    SameIsLeft(before, root, tombstone);
    BeforeNotGone(before, root, tombstone, tree);
    ReadyParts(before, root, tombstone, tree);
    CountPositive(tree);
    ghost var same := SameRoot(before, root, plan.rootAttrs);
    ghost var confirmed := Confirmed(before, root, tombstone, plan.rootAttrs, plan.manifest, tree);
    last := LastRequest(same, confirmed, Count(tree), replies);
    if life == 0 {
      return;
    }
    if !replies(0).Served? || !SameRoot(server.files, root, plan.rootAttrs) {
      EndsOnce(same, confirmed, Count(tree), replies, last, 0);
      plan.Finalise(Failed, life - 1);
      return;
    }
    if life == 1 {
      return;
    }
    var renamed := server.Rename(root, tombstone, replies(1));
    MovedIsLeft(before, root, tombstone, tree);
    AtMissing(before, root, tombstone, tree);
    if !renamed.Done? {
      EndsOnce(same, confirmed, Count(tree), replies, last, 1);
      plan.Finalise(if renamed.Refused? then Failed else OutcomeUnknown, life - 2);
      return;
    }
    DeleteIsolated(server, plan, tree, replies, life, before, last);
  }

  lemma LastRequest(same: bool, confirmed: bool, n: nat, replies: nat -> Reply) returns (k: nat)
    requires confirmed ==> same
    ensures EndsAt(same, confirmed, n, replies, k)
  {
    k := 0;
    while !EndsAt(same, confirmed, n, replies, k)
      invariant k <= n + 3 && AllServed(replies, 0, k) && (k > 0 ==> same) && (k > 2 ==> confirmed)
      decreases n + 3 - k
    {
      k := k + 1;
    }
  }

  // What follows the confirmed rename of the tree that stood at the root `before`.
  method DeleteIsolated(server: RemoteServer, plan: DeletePlan, tree: Tree, replies: nat -> Reply, life: nat,
                        ghost before: Files, ghost last: nat)
    requires plan.state == Preparing && !plan.consumed && life >= 2 && AllServed(replies, 0, 2)
    requires var confirmed := Confirmed(before, plan.root, plan.tombstone, plan.rootAttrs, plan.manifest, tree);
             EndsAt(true, confirmed, Count(tree), replies, last)
    requires Ready(before, plan.root, plan.tombstone, tree) && SameRoot(before, plan.root, plan.rootAttrs)
    requires server.files == Moved(before, plan.root, plan.tombstone)
    modifies server, plan`state, plan`consumed
    ensures life < last + 2 ==> plan.state == Preparing
    ensures life >= last + 2 ==> RecordedAs(plan.state, Count(tree), replies(last), last)
    ensures plan.consumed <==> life >= last + 3
    ensures Left(before, server.files, plan.root, plan.tombstone) && server.files != before
    ensures Lacks(before, server.files, plan.root, plan.tombstone) ==>
              ValidNames(tree) && Manifest(tree, plan.tombstone, plan.root) == plan.manifest
    ensures var confirmed := Confirmed(before, plan.root, plan.tombstone, plan.rootAttrs, plan.manifest, tree);
            var gone := AllGone(server.files, plan.root, plan.tombstone);
            && (gone <==> confirmed && Empties(Count(tree), replies, life))
            && (plan.state == Succeeded <==> confirmed && Undisturbed(Count(tree), replies, life))
            && (plan.state == Succeeded && plan.consumed <==> confirmed && Undisturbed(Count(tree), replies, life - 1))
            && (plan.state == Failed <==> confirmed && TimesOutLate(Count(tree), replies, life))
  {
    hide Left, Lacks, Ready, AllGone, At, Moved, Manifest, TreeAt, Visit, DeepestFirst, Sorted, Entries, Movable, SameRoot,
         Undisturbed, TimesOutLate;
    var root, tombstone := plan.root, plan.tombstone;
    MovedIsLeft(before, root, tombstone, tree);
    AtMissing(before, root, tombstone, tree);
    CountPositive(tree);
    ReadyParts(before, root, tombstone, tree);
    ghost var n, confirmed := Count(tree), Confirmed(before, root, tombstone, plan.rootAttrs, plan.manifest, tree);
    if life == 2 {
      RecordTells(n, replies, life, last, plan.state, confirmed);
      return;
    }
    var scanned := VisitEntry(tree, tombstone, root, []);
    if !replies(2).Served? || scanned.Err? {
      EndsOnce(true, confirmed, n, replies, last, 2);
      plan.Finalise(CleanupRequired, life - 3);
      RecordTells(n, replies, life, last, plan.state, confirmed);
      return;
    }
    assert [] + Visit(tree, tombstone, root) == Visit(tree, tombstone, root);
    ManifestIs(tree, tombstone, root);
    if Entries(Sorted(scanned.value)) != plan.manifest {
      EndsOnce(true, confirmed, n, replies, last, 2);
      plan.Finalise(CleanupRequired, life - 3);
      RecordTells(n, replies, life, last, plan.state, confirmed);
      return;
    }
    DeleteConfirmed(server, plan, tree, DeepestFirst(Sorted(scanned.value)), replies, life, before, last);
    RecordTells(n, replies, life, last, plan.state, confirmed);
  }

  // The deletion of the confirmed tree, entry by entry, and the last look.
  method DeleteConfirmed(server: RemoteServer, plan: DeletePlan, tree: Tree, ordered: seq<Scanned>, replies: nat -> Reply,
                         life: nat, ghost before: Files, ghost last: nat)
    requires plan.state == Preparing && !plan.consumed && life >= 3 && AllServed(replies, 0, 3)
    requires EndsAt(true, true, Count(tree), replies, last) && ValidNames(tree)
    requires Ready(before, plan.root, plan.tombstone, tree)
    requires ordered == DeepestFirst(Sorted(Visit(tree, plan.tombstone, plan.root)))
    requires server.files == Moved(before, plan.root, plan.tombstone)
    modifies server, plan`state, plan`consumed
    ensures Left(before, server.files, plan.root, plan.tombstone) && server.files != before
    ensures life < last + 2 ==> plan.state == Preparing
    ensures life >= last + 2 ==> RecordedAs(plan.state, Count(tree), replies(last), last)
    ensures plan.consumed <==> life >= last + 3
    ensures AllGone(server.files, plan.root, plan.tombstone) <==> Empties(Count(tree), replies, life)
  {
    hide Left, Lacks, Ready, AllGone, At, Moved, TreeAt, Visit, DeepestFirst, Sorted, Movable;
    var root, tombstone := plan.root, plan.tombstone;
    CountPositive(tree);
    ghost var n := Count(tree);
    AtStart(before, root, tombstone, tree);
    OrderedCount(tree, tombstone, root);
    var ending, spent, deleted := DeleteEntries(server, ordered, replies, 3, life - 3, before, root, tombstone, tree);
    AtIsLeft(before, server.files, root, tombstone, tree, ordered, deleted);
    if ending.Died? {
      NotYet(true, true, n, replies, last, 3 + spent);
      return;
    }
    EndsOnce(true, true, n, replies, last, 3 + spent);
    var rest := life - 3 - spent - 1;
    if ending.Stopped? {
      plan.Finalise(CleanupRequired, rest);
      return;
    }
    if rest < 0 {
      return;
    }
    match replies(3 + |ordered|)
    case Served =>
      plan.Finalise(if tombstone in server.files then CleanupRequired else Succeeded, rest);
    case Denied =>
      plan.Finalise(CleanupRequired, rest);
    case Lost(_) =>
      plan.Finalise(Failed, rest);
  }

  lemma BeforeNotGone(before: Files, root: string, tombstone: string, tree: Tree)
    requires Ready(before, root, tombstone, tree)
    ensures !AllGone(before, root, tombstone)
  {
    hide TreeAt, WellFormed, PlainPath;
    WithinSelf(root);
  }

  lemma CountPositive(tree: Tree)
    ensures Count(tree) >= 1
  {
  }

  lemma ReadyParts(before: Files, root: string, tombstone: string, tree: Tree)
    requires Ready(before, root, tombstone, tree)
    ensures WellFormed(tree) && Movable(before, root, tombstone)
  {
  }

  lemma ManifestIs(tree: Tree, actual: string, projected: string)
    ensures Manifest(tree, actual, projected) == Entries(Sorted(Visit(tree, actual, projected)))
  {
  }

  lemma AtStart(before: Files, root: string, tombstone: string, tree: Tree)
    requires Ready(before, root, tombstone, tree) && ValidNames(tree)
    ensures At(before, Moved(before, root, tombstone), root, tombstone, tree,
               DeepestFirst(Sorted(Visit(tree, tombstone, root))), 0)
  {
    hide Ready, Moved, Covers, Descending, DeepestFirst, Sorted, Visit;
    OrderedCovers(before, root, tombstone, tree);
    var ordered := DeepestFirst(Sorted(Visit(tree, tombstone, root)));
    assert Gone(ordered, 0) == {};
    assert Moved(before, root, tombstone) - {} == Moved(before, root, tombstone);
  }

  lemma OrderedCount(tree: Tree, actual: string, projected: string)
    ensures |DeepestFirst(Sorted(Visit(tree, actual, projected)))| == Count(tree)
  {
    hide Visit, Sorted, DeepestFirst, Count;
    VisitCount(tree, actual, projected);
    SortedKeeps(Visit(tree, actual, projected));
    DeepestFirstKeeps(Sorted(Visit(tree, actual, projected)));
    var sorted := Sorted(Visit(tree, actual, projected));
    assert |multiset(sorted)| == |sorted| && |multiset(DeepestFirst(sorted))| == |DeepestFirst(sorted)|;
  }

  // ---------------------------------------------------------------- recovery

  datatype Verdict = Proved(state: OperationState) | NeedsRecovery

  // What the inspection of a record answers and stores.
  method Inspect(server: RemoteServer, plan: DeletePlan) returns (verdict: Verdict)
    modifies plan
    ensures verdict == VerdictOf(old(plan.state), server.files, plan.root, plan.tombstone)
    ensures plan.state == if verdict.Proved? then verdict.state else old(plan.state)
  {
    if plan.state == Succeeded || plan.state == Failed {
      return Proved(plan.state);
    }
    if plan.tombstone in server.files {
      return NeedsRecovery;
    }
    plan.state := if plan.root !in server.files then Succeeded else Failed;
    verdict := Proved(plan.state);
  }

  function VerdictOf(state: OperationState, files: Files, root: string, tombstone: string): Verdict {
    if state == Succeeded || state == Failed then Proved(state)
    else if tombstone in files then NeedsRecovery
    else if root in files then Proved(Failed)
    else Proved(Succeeded)
  }

  // What an inspection answers, whatever the operation has recorded: "succeeded" exactly if
  // everything is gone and the record does not deny it, "failed" exactly if the tree stands
  // untouched or the record says so; everything in between needs a recovery.
  lemma InspectTells(before: Files, files: Files, root: string, tombstone: string, tree: Tree, state: OperationState)
    requires Ready(before, root, tombstone, tree) && Left(before, files, root, tombstone)
    requires state == Succeeded ==> AllGone(files, root, tombstone)
    requires state == Failed ==> files == before || AllGone(files, root, tombstone)
    ensures VerdictOf(state, files, root, tombstone) == Proved(Succeeded) <==>
            AllGone(files, root, tombstone) && state != Failed
    ensures VerdictOf(state, files, root, tombstone) == Proved(Failed) <==> files == before || state == Failed
    ensures VerdictOf(state, files, root, tombstone) == NeedsRecovery <==>
            files != before && !AllGone(files, root, tombstone)
  {
    hide TreeAt, WellFormed, PlainPath, OthersSame, Within, Origin;
    WithinSelf(root);
    WithinSelf(tombstone);
  }

  // A deletion that stopped anywhere, and the first inspection afterwards: its answer is the
  // truth, exactly unless the last look at an already deleted tombstone timed out.
  method ExecuteThenInspect(server: RemoteServer, plan: DeletePlan, tree: Tree, replies: nat -> Reply, life: nat)
    returns (verdict: Verdict)
    requires plan.bound && plan.state == Preparing && !plan.consumed
    requires Ready(server.files, plan.root, plan.tombstone, tree)
    modifies server, plan
    ensures Left(old(server.files), server.files, plan.root, plan.tombstone)
    ensures var late := && Confirmed(old(server.files), plan.root, plan.tombstone, plan.rootAttrs, plan.manifest, tree)
                        && TimesOutLate(Count(tree), replies, life);
            var gone := AllGone(server.files, plan.root, plan.tombstone);
            && (late ==> gone)
            && (verdict == Proved(Succeeded) <==> gone && !late)
            && (verdict == Proved(Failed) <==> server.files == old(server.files) || late)
            && (verdict == NeedsRecovery <==> server.files != old(server.files) && !gone)
  {
    hide Left, Lacks, Ready, AllGone, Confirmed, TimesOutLate, Empties, Undisturbed, Isolates, SameRoot;
    ghost var before := server.files;
    var refused;
    ghost var last;
    refused, last := Execute(server, plan, tree, replies, life);
    CoursesAgree(Count(tree), replies, life);
    InspectTells(before, server.files, plan.root, plan.tombstone, tree, plan.state);
    verdict := Inspect(server, plan);
  }

  const BARE := Attrs(Directory, None, 0, None, None)

  lemma OneDirectory(files: Files)
    requires files == map["/r" := BARE]
    ensures Ready(files, "/r", "/t", Tree(BARE, Nil))
    ensures Confirmed(files, "/r", "/t", BARE, Manifest(Tree(BARE, Nil), "/t", "/r"), Tree(BARE, Nil))
    ensures Count(Tree(BARE, Nil)) == 1
  {
    hide Manifest, Ready;
    OneDirectoryAt(files, "/r", "/t");
  }

  lemma OneDirectoryAt(files: Files, root: string, tombstone: string)
    requires files == map[root := BARE] && PlainPath(root) && PlainPath(tombstone)
    requires !Within(root, tombstone) && !Within(tombstone, root)
    ensures Ready(files, root, tombstone, Tree(BARE, Nil))
  {
    assert root + Suffix([]) == root;
    assert forall names :: names != [] ==> Lookup(Tree(BARE, Nil), names).None?;
  }

  // It happens: an empty directory is deleted, the look afterwards is lost, and the
  // operation is reported as failed although nothing is left.
  method LateTimeout() returns (server: RemoteServer, verdict: Verdict)
    ensures fresh(server) && server.files == map[] && verdict == Proved(Failed)
  {
    hide Ready, Confirmed, AllGone, Left, Isolates;
    var tree := Tree(BARE, Nil);
    server := new RemoteServer(map["/r" := BARE]);
    var plan := new DeletePlan("/r", "/t", Manifest(tree, "/t", "/r"), BARE);
    OneDirectory(server.files);
    var replies := (i: nat) => if i < 4 then Served else Lost(false);
    verdict := ExecuteThenInspect(server, plan, tree, replies, 6);
    NothingElse(map["/r" := BARE], server.files);
  }

  lemma NothingElse(before: Files, after: Files)
    requires before == map["/r" := BARE] && Left(before, after, "/r", "/t") && AllGone(after, "/r", "/t")
    ensures after == map[]
  {
    hide Within;
    WithinSelf("/r");
    assert forall p :: p in after ==> Elsewhere("/r", "/t", p);
  }

  // Moving the untouched tombstone back restores every entry exactly.
  lemma RestoreUndoes(before: Files, root: string, tombstone: string, tree: Tree)
    requires Ready(before, root, tombstone, tree)
    ensures Movable(Moved(before, root, tombstone), tombstone, root)
    ensures Moved(Moved(before, root, tombstone), tombstone, root) == before
  {
    hide Moved, Within, TreeAt, WellFormed, PlainPath;
    var aside := Moved(before, root, tombstone);
    MovedTree(before, root, tombstone, tree);
    MovedRoot(before, root, tombstone, tree);
    var back := Moved(aside, tombstone, root);
    forall p
      ensures p in back <==> p in before
      ensures p in back ==> back[p] == before[p]
    {
      RestoredEntry(before, root, tombstone, tree, p);
    }
  }

  lemma RestoredEntry(before: Files, root: string, tombstone: string, tree: Tree, p: string)
    requires Ready(before, root, tombstone, tree)
    requires Movable(Moved(before, root, tombstone), tombstone, root)
    ensures var back := Moved(Moved(before, root, tombstone), tombstone, root);
            (p in back <==> p in before) && (p in back ==> back[p] == before[p])
  {
    hide Moved, TreeAt, WellFormed, PlainPath;
    var aside := Moved(before, root, tombstone);
    MovedEntry(aside, tombstone, root, p);
    if Within(root, p) {
      var q := tombstone + p[|root|..];
      WithinShift(tombstone, root, p);
      MovedEntry(before, root, tombstone, q);
    } else {
      MovedEntry(before, root, tombstone, p);
    }
  }

  // What an inspection makes of an unfinished deletion while a continued one has moved its
  // tombstone to a newer one, and when that hides entries which still exist.
  lemma OldRecordTells(files: Files, after: Files, root: string, tombstone: string, newer: string, tree: Tree,
                       state: OperationState)
    requires Ready(files, tombstone, newer, tree) && Left(files, after, tombstone, newer)
    requires Elsewhere(tombstone, newer, root) && state != Succeeded && state != Failed
    ensures VerdictOf(state, after, root, tombstone) ==
            if after == files then NeedsRecovery else if root in files then Proved(Failed) else Proved(Succeeded)
    ensures VerdictOf(state, after, root, tombstone) == Proved(Succeeded) && newer in after <==>
            root !in files && after != files && !AllGone(after, tombstone, newer)
  {
    hide TreeAt, WellFormed, PlainPath, Within, Origin;
    WithinSelf(tombstone);
    WithinSelf(newer);
  }

  // Continuing the deletion of an isolated tree: a new plan for the old tombstone, executed
  // at once; only its success resolves the old record, which is then stored as failed.
  method ContinueDelete(server: RemoteServer, record: DeletePlan, newer: string, tree: Tree, scans: bool,
                        replies: nat -> Reply, life: nat, survives: bool)
    returns (next: Option<DeletePlan>)
    requires record.tombstone in server.files ==> Ready(server.files, record.tombstone, newer, tree)
    requires Elsewhere(record.tombstone, newer, record.root)
    modifies server, record
    ensures next.Some? <==>
              && old(record.state) != Succeeded && old(record.state) != Failed && record.tombstone in old(server.files)
              && scans && tree.attrs.kind == Directory && ValidNames(tree) && Count(tree) <= MAX_ENTRIES
    ensures next.None? ==> server.files == old(server.files) && record.state == old(record.state)
    ensures next.Some? ==>
              var before, after, n := old(server.files), server.files, Count(tree);
              var gone := AllGone(after, record.tombstone, newer);
              var resolved := Undisturbed(n, replies, life - 1) && survives;
              var verdict := VerdictOf(record.state, after, record.root, record.tombstone);
              && Left(before, after, record.tombstone, newer)
              && (gone <==> Empties(n, replies, life))
              && (resolved ==> gone)
              && record.state == (if resolved then Failed else old(record.state))
              // The old record answers "succeeded" while entries still exist.
              && (verdict == Proved(Succeeded) && !gone <==>
                    record.root !in before && Isolates(true, replies, life) && !Empties(n, replies, life))
              // It answers "failed" although everything is gone.
              && (verdict == Proved(Failed) && gone <==> resolved || (gone && record.root in before))
  {
    hide Left, Ready, AllGone, Undisturbed, Empties, Isolates, Manifest, TreeAt, Visit, Sorted, Entries, Confirmed,
         TimesOutLate, Lacks, Elsewhere;
    ghost var before := server.files;
    if record.state == Succeeded || record.state == Failed || record.tombstone !in server.files || !scans {
      return None;
    }
    ReadyParts(before, record.tombstone, newer, tree);
    var scanned := VisitEntry(tree, record.tombstone, record.tombstone, []);
    if scanned.Err? || tree.attrs.kind != Directory {
      return None;
    }
    assert [] + Visit(tree, record.tombstone, record.tombstone) == Visit(tree, record.tombstone, record.tombstone);
    ManifestIs(tree, record.tombstone, record.tombstone);
    var plan := new DeletePlan(record.tombstone, newer, Entries(Sorted(scanned.value)), tree.attrs);
    FreshPlanConfirmed(before, record.tombstone, newer, tree);
    var refused;
    ghost var last;
    refused, last := Execute(server, plan, tree, replies, life);
    CoursesAgree(Count(tree), replies, life);
    OldRecordTells(before, server.files, record.root, record.tombstone, newer, tree, record.state);
    if plan.state == Succeeded && plan.consumed && survives {
      record.state := Failed;
    }
    next := Some(plan);
  }

  // Both happen to an isolated empty directory: a continued deletion that is refused its only
  // entry makes the old record answer "succeeded", a completed one "failed".
  method ContinuedDelete(completes: bool) returns (server: RemoteServer, record: DeletePlan, verdict: Verdict)
    ensures fresh(server) && fresh(record)
    ensures if completes then AllGone(server.files, "/t", "/u") && verdict == Proved(Failed)
            else "/u" in server.files && verdict == Proved(Succeeded)
  {
    hide Ready, Left, AllGone;
    var tree := Tree(BARE, Nil);
    server := new RemoteServer(map["/t" := BARE]);
    record := new DeletePlan("/r", "/t", Manifest(tree, "/t", "/r"), BARE);
    record.state := CleanupRequired;
    OneDirectoryAt(server.files, "/t", "/u");
    assert Count(tree) == 1 && ValidNames(tree);
    var replies := (i: nat) => if i < 3 || completes then Served else Denied;
    var next := ContinueDelete(server, record, "/u", tree, true, replies, 9, true);
    if !completes {
      assert !replies(3).Served? && replies(3) == Denied;
      assert !Undisturbed(1, replies, 8) && !Empties(1, replies, 9) && Isolates(true, replies, 9);
      assert "/t" !in server.files;
      NotGoneIsThere(map["/t" := BARE], server.files, "/t", "/u");
    }
    verdict := Inspect(server, record);
  }

  lemma NotGoneIsThere(before: Files, after: Files, root: string, tombstone: string)
    requires Left(before, after, root, tombstone) && after != before && !AllGone(after, root, tombstone)
    ensures tombstone in after
  {
  }

  lemma FreshPlanConfirmed(files: Files, root: string, tombstone: string, tree: Tree)
    requires Ready(files, root, tombstone, tree) && ValidNames(tree) && Count(tree) <= MAX_ENTRIES
    ensures Confirmed(files, root, tombstone, tree.attrs, Manifest(tree, root, root), tree)
    ensures SameRoot(files, root, tree.attrs)
  {
    hide Manifest;
    assert Lookup(tree, []) == Some(tree.attrs) && root + Suffix([]) == root;
    ManifestCanonical(tree, tree, tombstone, root, root);
  }

  // The confirmed tree and the one deleted are the same in every place, type, size, mode,
  // time and link target, wherever they were scanned.
  lemma OnlyConfirmedTreeGoes(confirmed: Tree, tree: Tree, root: string, tombstone: string)
    requires WellFormed(confirmed) && ValidNames(confirmed) && WellFormed(tree) && ValidNames(tree)
    requires PlainPath(root) && PlainPath(tombstone)
    ensures Manifest(tree, tombstone, root) == Manifest(confirmed, root, root) <==> SameTree(tree, confirmed)
  {
    ManifestCanonical(tree, confirmed, tombstone, root, root);
  }
}

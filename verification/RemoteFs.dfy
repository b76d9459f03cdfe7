/**
 The remote file system as one client sees it: a flat table of paths, changed by one
 request at a time, and the order in which a whole subtree can be removed.
 */
module RemoteFs {
  import opened Wrappers
  import opened RemoteTree

  type Files = map<string, Attrs>

  predicate Vacant(fs: Files, path: string) {
    forall p :: p in fs ==> !Within(path, p)
  }

  predicate Empty(fs: Files, directory: string) {
    forall p :: p in fs ==> !Under(directory, p)
  }

  predicate Removable(fs: Files, path: string, directory: bool) {
    path in fs && (fs[path].kind == Directory) == directory && (directory ==> Empty(fs, path))
  }

  function Relocate(path: string, source: string, target: string): string {
    if Within(source, path) then target + path[|source|..] else path
  }

  // The whole subtree at `source` stands at `target` afterwards.
  function Moved(fs: Files, source: string, target: string): Files {
    map p | p in (set q | q in fs :: Relocate(q, source, target)) && Origin(p, source, target) in fs ::
      fs[Origin(p, source, target)]
  }

  function Origin(path: string, source: string, target: string): string {
    if Within(target, path) then source + path[|target|..] else path
  }

  predicate Movable(fs: Files, source: string, target: string) {
    source in fs && Vacant(fs, target) && !Within(source, target) && !Within(target, source)
  }

  // What a request came to: served, refused with nothing done, or lost on the way back.
  datatype Reply = Served | Denied | Lost(applied: bool)
  datatype Answer = Done | Refused | Unknown

  class RemoteServer {
    var files: Files

    constructor (files: Files)
      ensures this.files == files
    {
      this.files := files;
    }

    method Rename(source: string, target: string, reply: Reply) returns (answer: Answer)
      modifies this
      ensures answer == AnswerOf(reply, Movable(old(files), source, target))
      ensures files == if Acts(reply) && Movable(old(files), source, target)
                       then Moved(old(files), source, target) else old(files)
    {
      var able := Movable(files, source, target);
      if Acts(reply) && able {
        files := Moved(files, source, target);
      }
      answer := AnswerOf(reply, able);
    }

    // `rmdir` for a directory, `remove` for everything else.
    method Remove(path: string, directory: bool, reply: Reply) returns (answer: Answer)
      modifies this
      ensures answer == AnswerOf(reply, Removable(old(files), path, directory))
      ensures files == if Acts(reply) && Removable(old(files), path, directory) then old(files) - {path} else old(files)
    {
      var able := Removable(files, path, directory);
      if Acts(reply) && able {
        files := files - {path};
      }
      answer := AnswerOf(reply, able);
    }
  }

  predicate Acts(reply: Reply) {
    reply.Served? || (reply.Lost? && reply.applied)
  }

  function AnswerOf(reply: Reply, able: bool): Answer {
    match reply
    case Served => if able then Done else Refused
    case Denied => Refused
    case Lost(_) => Unknown
  }

  // ---------------------------------------------------------------- a tree in the table

  // The table holds exactly this tree at and below a path.
  ghost predicate TreeAt(fs: Files, root: string, tree: Tree) {
    && (forall names :: Lookup(tree, names).Some? ==>
          root + Suffix(names) in fs && Lookup(tree, names) == Some(fs[root + Suffix(names)]))
    && (forall p :: p in fs && Within(root, p) ==>
          exists names :: p == root + Suffix(names) && Lookup(tree, names).Some?)
  }

  lemma {:induction false} WithinSuffix(root: string, names: seq<string>)
    ensures Within(root, root + Suffix(names))
  {
    if names == [] {
      assert root + Suffix(names) == root;
    } else {
      assert root + Suffix(names) == (root + "/") + (names[0] + Suffix(names[1..]));
    }
  }

  lemma RelocateSuffix(source: string, target: string, names: seq<string>)
    ensures Relocate(source + Suffix(names), source, target) == target + Suffix(names)
    ensures Origin(target + Suffix(names), source, target) == source + Suffix(names)
  {
    WithinSuffix(source, names);
    WithinSuffix(target, names);
    assert (source + Suffix(names))[|source|..] == Suffix(names);
    assert (target + Suffix(names))[|target|..] == Suffix(names);
  }

  // Moving brings every entry below the source under the target and leaves the rest.
  lemma MovedEntry(fs: Files, source: string, target: string, p: string)
    requires Movable(fs, source, target)
    ensures p in Moved(fs, source, target) <==>
            if Within(target, p) then source + p[|target|..] in fs else p in fs && !Within(source, p)
    ensures p in Moved(fs, source, target) ==> Moved(fs, source, target)[p] == fs[Origin(p, source, target)]
  {
    var keys := set q | q in fs :: Relocate(q, source, target);
    if Within(target, p) {
      var q := source + p[|target|..];
      WithinShift(source, target, p);
      assert q in fs ==> Relocate(q, source, target) == p;
      assert q in fs ==> p in keys;
    } else if p in fs && !Within(source, p) {
      assert Relocate(p, source, target) == p;
      assert p in keys;
    } else if p in keys {
      var q :| q in fs && Relocate(q, source, target) == p;
      if Within(source, q) { WithinShift(target, source, q); }
    }
  }

  // Exchanging the root of a path below it.
  lemma WithinShift(source: string, target: string, p: string)
    requires Within(target, p)
    ensures Within(source, source + p[|target|..])
    ensures target + p[|target|..] == p && (source + p[|target|..])[|source|..] == p[|target|..]
  {
    if Under(target, p) {
      assert p[|target|..] == "/" + p[|target| + 1..];
      assert source + p[|target|..] == (source + "/") + p[|target| + 1..];
    } else {
      assert p[|target|..] == "" && source + "" == source;
    }
  }

  lemma MovedTree(fs: Files, source: string, target: string, tree: Tree)
    requires Movable(fs, source, target) && TreeAt(fs, source, tree)
    ensures TreeAt(Moved(fs, source, target), target, tree)
    ensures Vacant(Moved(fs, source, target), source)
  {
    hide Within, Suffix, Lookup, Moved;
    var after := Moved(fs, source, target);
    forall names | Lookup(tree, names).Some?
      ensures target + Suffix(names) in after && Lookup(tree, names) == Some(after[target + Suffix(names)])
    {
      var p := target + Suffix(names);
      MovedEntry(fs, source, target, p);
      WithinSuffix(target, names);
      RelocateSuffix(source, target, names);
      assert p[|target|..] == Suffix(names);
    }
    forall p | p in after && Within(target, p)
      ensures exists names :: p == target + Suffix(names) && Lookup(tree, names).Some?
    {
      MovedEntry(fs, source, target, p);
      WithinShift(source, target, p);
      var names :| source + p[|target|..] == source + Suffix(names) && Lookup(tree, names).Some?;
      assert (source + p[|target|..])[|source|..] == (source + Suffix(names))[|source|..] == Suffix(names);
      assert p == target + Suffix(names);
    }
    forall p | p in after ensures !Within(source, p) {
      MovedEntry(fs, source, target, p);
      if Within(target, p) { Apart(source, target, p); }
    }
  }

  // Of two places that contain a common path, one contains the other.
  lemma Related(a: string, b: string, p: string)
    requires Within(a, p) && Within(b, p)
    ensures Within(a, b) || Within(b, a)
  {
    assert p[..|a|] == a && p[..|b|] == b;
    assert |a| < |p| ==> p[|a|] == '/' && (a + "/" == p[..|a| + 1]);
    assert |b| < |p| ==> p[|b|] == '/' && (b + "/" == p[..|b| + 1]);
    assert |a| < |b| ==> b[..|a| + 1] == p[..|a| + 1];
    assert |b| < |a| ==> a[..|b| + 1] == p[..|b| + 1];
  }

  lemma Apart(a: string, b: string, p: string)
    requires !Within(a, b) && !Within(b, a) && Within(b, p)
    ensures !Within(a, p)
  {
    if Within(a, p) { Related(a, b, p); }
  }

  // ---------------------------------------------------------------- the order of deletion

  // Deeper paths first, then the larger path.
  predicate DeleteBefore(a: Scanned, b: Scanned) {
    Slashes(a.actual) > Slashes(b.actual) || (Slashes(a.actual) == Slashes(b.actual) && Less(b.actual, a.actual))
  }

  function InsertDeep(item: Scanned, list: seq<Scanned>): seq<Scanned> {
    if list == [] then [item]
    else if DeleteBefore(list[0], item) then [list[0]] + InsertDeep(item, list[1..])
    else [item] + list
  }

  function DeepestFirst(list: seq<Scanned>): seq<Scanned> {
    if list == [] then [] else InsertDeep(list[0], DeepestFirst(list[1..]))
  }

  predicate Descending(list: seq<Scanned>) {
    forall i, j :: 0 <= i < j < |list| ==> Slashes(list[i].actual) >= Slashes(list[j].actual)
  }

  lemma {:induction false} InsertDeepKeeps(item: Scanned, list: seq<Scanned>)
    ensures multiset(InsertDeep(item, list)) == multiset(list) + multiset{item}
  {
    hide DeleteBefore;
    if list != [] && DeleteBefore(list[0], item) {
      InsertDeepKeeps(item, list[1..]);
      assert list == [list[0]] + list[1..];
    }
  }

  lemma {:induction false} DeepestFirstKeeps(list: seq<Scanned>)
    ensures multiset(DeepestFirst(list)) == multiset(list)
  {
    hide InsertDeep;
    if list != [] {
      DeepestFirstKeeps(list[1..]);
      InsertDeepKeeps(list[0], DeepestFirst(list[1..]));
      assert list == [list[0]] + list[1..];
    }
  }

  predicate AtMost(depth: nat, list: seq<Scanned>) {
    forall i :: 0 <= i < |list| ==> Slashes(list[i].actual) <= depth
  }

  lemma DescendingCons(item: Scanned, list: seq<Scanned>)
    requires AtMost(Slashes(item.actual), list) && Descending(list)
    ensures Descending([item] + list)
  {
    hide Slashes;
    var all := [item] + list;
    forall i, j | 0 <= i < j < |all| ensures Slashes(all[i].actual) >= Slashes(all[j].actual) {
      assert all[j] == list[j - 1];
      assert i > 0 ==> all[i] == list[i - 1];
    }
  }

  lemma DescendingParts(list: seq<Scanned>)
    requires list != [] && Descending(list)
    ensures AtMost(Slashes(list[0].actual), list[1..]) && Descending(list[1..])
  {
    hide Slashes;
    forall i | 0 <= i < |list[1..]| ensures Slashes(list[1..][i].actual) <= Slashes(list[0].actual) {
      assert list[1..][i] == list[i + 1];
    }
    forall i, j | 0 <= i < j < |list[1..]| ensures Slashes(list[1..][i].actual) >= Slashes(list[1..][j].actual) {
      assert list[1..][i] == list[i + 1] && list[1..][j] == list[j + 1];
    }
  }

  lemma {:induction false} AtMostInsert(depth: nat, item: Scanned, list: seq<Scanned>)
    requires Slashes(item.actual) <= depth && AtMost(depth, list)
    ensures AtMost(depth, InsertDeep(item, list))
  {
    hide Slashes, DeleteBefore;
    if list != [] && DeleteBefore(list[0], item) {
      AtMostInsert(depth, item, list[1..]);
    }
  }

  lemma {:induction false} InsertDeepOrders(item: Scanned, list: seq<Scanned>)
    requires Descending(list)
    ensures Descending(InsertDeep(item, list))
  {
    hide Slashes, Descending, Less;
    if list == [] {
      DescendingOne(item);
    } else {
      DescendingParts(list);
      assert list == [list[0]] + list[1..];
      if DeleteBefore(list[0], item) {
        InsertDeepOrders(item, list[1..]);
        AtMostInsert(Slashes(list[0].actual), item, list[1..]);
        DescendingCons(list[0], InsertDeep(item, list[1..]));
      } else {
        AtMostHead(Slashes(item.actual), list);
        DescendingCons(item, list);
      }
    }
  }

  lemma DescendingOne(item: Scanned)
    ensures Descending([item])
  {
  }

  lemma AtMostHead(depth: nat, list: seq<Scanned>)
    requires list != [] && Slashes(list[0].actual) <= depth && AtMost(Slashes(list[0].actual), list[1..])
    ensures AtMost(depth, list)
  {
    hide Slashes;
    assert forall i :: 0 < i < |list| ==> list[i] == list[1..][i - 1];
  }

  lemma {:induction false} DeepestFirstOrders(list: seq<Scanned>)
    ensures Descending(DeepestFirst(list))
  {
    hide InsertDeep;
    if list != [] {
      DeepestFirstOrders(list[1..]);
      hide Descending;
      InsertDeepOrders(list[0], DeepestFirst(list[1..]));
    }
  }

  // The whole order: deepest first, and among equally deep ones the larger path first.
  predicate InDeleteOrder(list: seq<Scanned>) {
    forall i, j :: 0 <= i < j < |list| ==> !DeleteBefore(list[j], list[i])
  }

  predicate NoneBefore(list: seq<Scanned>, first: Scanned) {
    forall k :: 0 <= k < |list| ==> !DeleteBefore(list[k], first)
  }

  lemma BeforeSplits(a: Scanned, b: Scanned, c: Scanned)
    ensures DeleteBefore(a, c) ==> DeleteBefore(a, b) || DeleteBefore(b, c)
    ensures !(DeleteBefore(a, b) && DeleteBefore(b, a))
  {
    hide Slashes;
    LessTotal(a.actual, b.actual);
    LessTotal(b.actual, c.actual);
    if Less(a.actual, b.actual) && Less(b.actual, c.actual) { LessTrans(a.actual, b.actual, c.actual); }
    if Less(c.actual, a.actual) && Less(a.actual, b.actual) { LessTrans(c.actual, a.actual, b.actual); }
    LessTotal(a.actual, c.actual);
    hide Less;
  }

  lemma {:induction false} NoneInserted(item: Scanned, list: seq<Scanned>, first: Scanned)
    requires NoneBefore(list, first) && !DeleteBefore(item, first)
    ensures NoneBefore(InsertDeep(item, list), first)
  {
    hide DeleteBefore;
    if list != [] && DeleteBefore(list[0], item) {
      assert NoneBefore(list[1..], first) by {
        assert forall k :: 0 <= k < |list[1..]| ==> list[1..][k] == list[k + 1];
      }
      NoneInserted(item, list[1..], first);
    }
  }

  lemma OrderedCons(first: Scanned, list: seq<Scanned>)
    requires InDeleteOrder(list) && NoneBefore(list, first)
    ensures InDeleteOrder([first] + list)
  {
    hide DeleteBefore;
    var all := [first] + list;
    forall i, j | 0 <= i < j < |all| ensures !DeleteBefore(all[j], all[i]) {
      assert all[j] == list[j - 1];
      assert i > 0 ==> all[i] == list[i - 1];
    }
  }

  lemma {:induction false} InsertedInOrder(item: Scanned, list: seq<Scanned>)
    requires InDeleteOrder(list)
    ensures InDeleteOrder(InsertDeep(item, list))
  {
    hide DeleteBefore;
    if list == [] {
      OrderedCons(item, []);
      assert [item] + [] == [item];
    } else if DeleteBefore(list[0], item) {
      assert forall k :: 0 <= k < |list[1..]| ==> list[1..][k] == list[k + 1];
      assert InDeleteOrder(list[1..]) && NoneBefore(list[1..], list[0]);
      InsertedInOrder(item, list[1..]);
      BeforeSplits(list[0], item, item);
      NoneInserted(item, list[1..], list[0]);
      OrderedCons(list[0], InsertDeep(item, list[1..]));
    } else {
      forall k | 0 <= k < |list| ensures !DeleteBefore(list[k], item) {
        BeforeSplits(list[k], list[0], item);
      }
      OrderedCons(item, list);
    }
  }

  lemma {:induction false} DeepestFirstInOrder(list: seq<Scanned>)
    ensures InDeleteOrder(DeepestFirst(list))
  {
    if list != [] {
      DeepestFirstInOrder(list[1..]);
      InsertedInOrder(list[0], DeepestFirst(list[1..]));
      hide InDeleteOrder, InsertDeep;
    }
  }

  lemma {:induction false} SlashesAppend(a: string, b: string)
    ensures Slashes(a + b) == Slashes(a) + Slashes(b)
  {
    if a == "" {
      assert a + b == b;
    } else {
      SlashesAppend(a[1..], b);
      assert (a + b)[1..] == a[1..] + b;
    }
  }

  lemma DeeperUnder(directory: string, path: string)
    requires Under(directory, path)
    ensures Slashes(path) > Slashes(directory)
  {
    var rest := path[|directory| + 1..];
    assert path == directory + ("/" + rest);
    SlashesAppend(directory, "/" + rest);
    assert ("/" + rest)[1..] == rest;
  }

  // ---------------------------------------------------------------- deleting a whole tree

  // The list to delete is the whole content of the table at and below `root`.
  predicate Covers(fs: Files, root: string, ordered: seq<Scanned>) {
    && (forall i :: 0 <= i < |ordered| ==>
          ordered[i].actual in fs && fs[ordered[i].actual] == ordered[i].entry.attrs && Within(root, ordered[i].actual))
    && (forall p :: p in fs && Within(root, p) ==> exists i :: 0 <= i < |ordered| && ordered[i].actual == p)
    && (forall i, j :: 0 <= i < j < |ordered| ==> ordered[i].actual != ordered[j].actual)
  }

  function Gone(ordered: seq<Scanned>, k: nat): set<string>
    requires k <= |ordered|
  {
    set i | 0 <= i < k :: ordered[i].actual
  }

  // Whatever lies deeper has been deleted before.
  lemma DeeperGone(fs: Files, root: string, ordered: seq<Scanned>, k: nat, p: string)
    requires Covers(fs, root, ordered) && Descending(ordered) && k < |ordered|
    requires p in fs && Under(ordered[k].actual, p)
    ensures p in Gone(ordered, k)
  {
    hide Slashes;
    DeeperUnder(ordered[k].actual, p);
    WithinTrans(root, ordered[k].actual, p);
    var j :| 0 <= j < |ordered| && ordered[j].actual == p;
    assert j < k;
  }

  // At every step of the deletion the next directory is empty and the next file is there.
  lemma NextIsRemovable(fs: Files, root: string, ordered: seq<Scanned>, k: nat)
    requires Covers(fs, root, ordered) && Descending(ordered) && k < |ordered|
    ensures Removable(fs - Gone(ordered, k), ordered[k].actual, ordered[k].entry.attrs.kind == Directory)
  {
    hide Slashes, Descending;
    var left := fs - Gone(ordered, k);
    assert ordered[k].actual !in Gone(ordered, k);
    forall p | p in left ensures !Under(ordered[k].actual, p) {
      if Under(ordered[k].actual, p) { DeeperGone(fs, root, ordered, k, p); }
    }
  }

  lemma WithinTrans(a: string, b: string, p: string)
    requires Within(a, b) && Under(b, p)
    ensures Within(a, p)
  {
    if b != a {
      assert p[..|a| + 1] == a + "/";
    }
  }

  // The root itself goes last: as long as anything is left, it is left.
  lemma RootIsLast(fs: Files, root: string, ordered: seq<Scanned>)
    requires Covers(fs, root, ordered) && Descending(ordered) && root in fs
    ensures ordered != [] && ordered[|ordered| - 1].actual == root
  {
    hide Slashes;
    assert Within(root, root);
    var r :| 0 <= r < |ordered| && ordered[r].actual == root;
    var last := ordered[|ordered| - 1].actual;
    if last != root {
      DeeperUnder(root, last);
    }
  }

  lemma GoneAll(fs: Files, root: string, ordered: seq<Scanned>)
    requires Covers(fs, root, ordered)
    ensures Vacant(fs - Gone(ordered, |ordered|), root)
    ensures forall p :: !Within(root, p) ==> (p in fs - Gone(ordered, |ordered|) <==> p in fs)
  {
    forall p | p in fs && Within(root, p) ensures p in Gone(ordered, |ordered|) {
      var i :| 0 <= i < |ordered| && ordered[i].actual == p;
    }
  }

  lemma GoneNext(fs: Files, ordered: seq<Scanned>, k: nat)
    requires k < |ordered|
    ensures fs - Gone(ordered, k) - {ordered[k].actual} == fs - Gone(ordered, k + 1)
  {
    assert Gone(ordered, k + 1) == Gone(ordered, k) + {ordered[k].actual};
  }
}

/**
 A remote directory tree, its paths, and the manifest that identifies it: the scan that
 visits every entry in whatever order the server enumerates, sorted by path. Characters
 compare like the bytes of their UTF-8 encoding.
 */
module RemoteTree {
  import opened Wrappers

  // ---------------------------------------------------------------- names and paths

  predicate ValidName(name: string) {
    name != "" && name != "." && name != ".." && '/' !in name && '\0' !in name
  }

  // An absolute path written without a trailing slash.
  predicate PlainPath(path: string) {
    path != "" && path[0] == '/' && path[|path| - 1] != '/' && '\0' !in path
  }

  function JoinPath(directory: string, name: string): string {
    if directory != "" && directory[|directory| - 1] == '/' then directory + name else directory + "/" + name
  }

  function Suffix(names: seq<string>): string {
    if names == [] then "" else "/" + names[0] + Suffix(names[1..])
  }

  function Slashes(path: string): nat {
    if path == "" then 0 else (if path[0] == '/' then 1 else 0) + Slashes(path[1..])
  }

  predicate Under(directory: string, path: string) {
    directory + "/" <= path
  }

  predicate Within(directory: string, path: string) {
    path == directory || Under(directory, path)
  }

  // ---------------------------------------------------------------- trees

  datatype Kind = Directory | File | Symlink | Special

  datatype Attrs = Attrs(kind: Kind, size: Option<nat>, mode: nat, mtime: Option<nat>, link: Option<string>)

  datatype Tree = Tree(attrs: Attrs, children: Forest)
  datatype Forest = Nil | Cons(name: string, tree: Tree, rest: Forest)

  function Find(forest: Forest, name: string): Option<Tree> {
    match forest
    case Nil => None
    case Cons(other, tree, rest) => if other == name then Some(tree) else Find(rest, name)
  }

  // What stands at a relative place of the tree.
  function Lookup(tree: Tree, names: seq<string>): Option<Attrs>
    decreases |names|
  {
    if names == [] then Some(tree.attrs)
    else match Find(tree.children, names[0]) case None => None case Some(child) => Lookup(child, names[1..])
  }

  // Only directories have children, and a directory names each child once.
  predicate WellFormed(tree: Tree)
    decreases tree
  {
    (tree.attrs.kind != Directory ==> tree.children.Nil?) && WellFormedAll(tree.children)
  }

  predicate WellFormedAll(forest: Forest)
    decreases forest
  {
    match forest
    case Nil => true
    case Cons(name, tree, rest) => Find(rest, name).None? && WellFormed(tree) && WellFormedAll(rest)
  }

  predicate ValidNames(tree: Tree)
    decreases tree
  {
    ValidNamesAll(tree.children)
  }

  predicate ValidNamesAll(forest: Forest)
    decreases forest
  {
    match forest
    case Nil => true
    case Cons(name, tree, rest) => ValidName(name) && ValidNames(tree) && ValidNamesAll(rest)
  }

  function Count(tree: Tree): nat
    decreases tree
  {
    1 + CountAll(tree.children)
  }

  function CountAll(forest: Forest): nat
    decreases forest
  {
    match forest case Nil => 0 case Cons(_, tree, rest) => Count(tree) + CountAll(rest)
  }

  // The same entries at the same places, whatever the order of enumeration.
  ghost predicate SameTree(a: Tree, b: Tree) {
    forall names :: Lookup(a, names) == Lookup(b, names)
  }

  // ---------------------------------------------------------------- the scan

  const MAX_ENTRIES := 50000

  datatype ManifestEntry = ManifestEntry(path: string, attrs: Attrs)

  datatype Scanned = Scanned(entry: ManifestEntry, actual: string)

  datatype ScanError = EntryLimit | InvalidPath

  function Visit(tree: Tree, actual: string, projected: string): seq<Scanned>
    decreases tree
  {
    [Scanned(ManifestEntry(projected, tree.attrs), actual)] + VisitAll(tree.children, actual, projected)
  }

  function VisitAll(forest: Forest, actual: string, projected: string): seq<Scanned>
    decreases forest
  {
    match forest
    case Nil => []
    case Cons(name, tree, rest) =>
      Visit(tree, JoinPath(actual, name), JoinPath(projected, name)) + VisitAll(rest, actual, projected)
  }

  lemma {:induction false} VisitCount(tree: Tree, actual: string, projected: string)
    ensures |Visit(tree, actual, projected)| == Count(tree)
    decreases tree
  {
    VisitAllCount(tree.children, actual, projected);
  }

  lemma {:induction false} VisitAllCount(forest: Forest, actual: string, projected: string)
    ensures |VisitAll(forest, actual, projected)| == CountAll(forest)
    decreases forest
  {
    if forest.Cons? {
      VisitCount(forest.tree, JoinPath(actual, forest.name), JoinPath(projected, forest.name));
      VisitAllCount(forest.rest, actual, projected);
    }
  }

  // The recursive visitor, appending to one shared list.
  method VisitEntry(tree: Tree, actual: string, projected: string, scanned: seq<Scanned>)
    returns (result: Result<seq<Scanned>, ScanError>)
    requires WellFormed(tree)
    ensures result.Ok? <==> ValidNames(tree) && |scanned| + Count(tree) <= MAX_ENTRIES
    ensures result.Ok? ==> result.value == scanned + Visit(tree, actual, projected)
    decreases tree
  {
    if |scanned| >= MAX_ENTRIES {
      return Err(EntryLimit);
    }
    var list := scanned + [Scanned(ManifestEntry(projected, tree.attrs), actual)];
    assert list + VisitAll(tree.children, actual, projected) == scanned + Visit(tree, actual, projected);
    if tree.attrs.kind != Directory {
      assert tree.children == Nil && ValidNamesAll(tree.children) && CountAll(tree.children) == 0;
      assert list + [] == list;
      return Ok(list);
    }
    VisitAllCount(tree.children, actual, projected);
    result := VisitChildren(tree.children, actual, projected, list);
  }

  // What is left to visit, as the loop over a directory's listing sees it.
  predicate Remaining(children: Forest, left: Forest, actual: string, projected: string,
                      scanned: seq<Scanned>, list: seq<Scanned>) {
    && WellFormedAll(left) && |list| <= MAX_ENTRIES
    && (ValidNamesAll(children) && |scanned| + CountAll(children) <= MAX_ENTRIES <==>
        ValidNamesAll(left) && |list| + CountAll(left) <= MAX_ENTRIES)
    && list + VisitAll(left, actual, projected) == scanned + VisitAll(children, actual, projected)
  }

  lemma RemainingNext(children: Forest, left: Forest, actual: string, projected: string,
                      scanned: seq<Scanned>, list: seq<Scanned>)
    requires Remaining(children, left, actual, projected, scanned, list) && left.Cons?
    requires ValidName(left.name) && ValidNames(left.tree) && |list| + Count(left.tree) <= MAX_ENTRIES
    ensures Remaining(children, left.rest, actual, projected, scanned,
                      list + Visit(left.tree, JoinPath(actual, left.name), JoinPath(projected, left.name)))
  {
    hide Visit, Count, ValidNames, WellFormed, ValidName, JoinPath;
    var seen := Visit(left.tree, JoinPath(actual, left.name), JoinPath(projected, left.name));
    VisitCount(left.tree, JoinPath(actual, left.name), JoinPath(projected, left.name));
    var rest := VisitAll(left.rest, actual, projected);
    assert VisitAll(left, actual, projected) == seen + rest;
    assert list + (seen + rest) == (list + seen) + rest;
  }

  lemma RemainingFails(children: Forest, left: Forest, actual: string, projected: string,
                       scanned: seq<Scanned>, list: seq<Scanned>)
    requires Remaining(children, left, actual, projected, scanned, list) && left.Cons?
    requires !ValidName(left.name) || !ValidNames(left.tree) || |list| + Count(left.tree) > MAX_ENTRIES
    ensures !(ValidNamesAll(children) && |scanned| + CountAll(children) <= MAX_ENTRIES)
  {
    hide Visit, Count, ValidNames, WellFormed, ValidName, JoinPath;
  }

  method VisitChildren(children: Forest, actual: string, projected: string, scanned: seq<Scanned>)
    returns (result: Result<seq<Scanned>, ScanError>)
    requires WellFormedAll(children) && |scanned| <= MAX_ENTRIES
    ensures result.Ok? <==> ValidNamesAll(children) && |scanned| + CountAll(children) <= MAX_ENTRIES
    ensures result.Ok? ==> result.value == scanned + VisitAll(children, actual, projected)
    decreases children
  {
    hide Remaining, Visit, Count, ValidNames, ValidName, JoinPath, CountAll, ValidNamesAll, VisitAll;
    var list, left := scanned, children;
    RemainingStart(children, actual, projected, scanned);
    while left.Cons?
      invariant Remaining(children, left, actual, projected, scanned, list)
      invariant left == children || left < children
      decreases left
    {
      RemainingParts(children, left, actual, projected, scanned, list);
      if !ValidName(left.name) {
        RemainingFails(children, left, actual, projected, scanned, list);
        return Err(InvalidPath);
      }
      var next := VisitEntry(left.tree, JoinPath(actual, left.name), JoinPath(projected, left.name), list);
      if next.Err? {
        RemainingFails(children, left, actual, projected, scanned, list);
        return next;
      }
      RemainingNext(children, left, actual, projected, scanned, list);
      list, left := next.value, left.rest;
    }
    RemainingEnd(children, actual, projected, scanned, list);
    result := Ok(list);
  }

  lemma RemainingStart(children: Forest, actual: string, projected: string, scanned: seq<Scanned>)
    requires WellFormedAll(children) && |scanned| <= MAX_ENTRIES
    ensures Remaining(children, children, actual, projected, scanned, scanned)
  {
  }

  lemma RemainingParts(children: Forest, left: Forest, actual: string, projected: string,
                       scanned: seq<Scanned>, list: seq<Scanned>)
    requires Remaining(children, left, actual, projected, scanned, list) && left.Cons?
    ensures WellFormed(left.tree) && |list| <= MAX_ENTRIES
  {
  }

  lemma RemainingEnd(children: Forest, actual: string, projected: string, scanned: seq<Scanned>, list: seq<Scanned>)
    requires Remaining(children, Nil, actual, projected, scanned, list)
    ensures ValidNamesAll(children) && |scanned| + CountAll(children) <= MAX_ENTRIES
    ensures list == scanned + VisitAll(children, actual, projected)
  {
    assert list + [] == list;
  }

  // ---------------------------------------------------------------- paths identify places

  // Component names as they can appear between slashes.
  predicate Names(names: seq<string>) {
    forall i :: 0 <= i < |names| ==> names[i] != "" && '/' !in names[i]
  }

  lemma SuffixStart(names: seq<string>)
    ensures names != [] ==> Suffix(names) != "" && Suffix(names)[0] == '/'
  {
  }

  lemma {:induction false} SuffixAppend(a: seq<string>, b: seq<string>)
    ensures Suffix(a + b) == Suffix(a) + Suffix(b)
  {
    if a == [] {
      assert a + b == b;
    } else {
      SuffixAppend(a[1..], b);
      assert (a + b)[1..] == a[1..] + b;
    }
  }

  function UpToSlash(text: string): (n: nat)
    ensures n <= |text|
  {
    if text == "" || text[0] == '/' then 0 else 1 + UpToSlash(text[1..])
  }

  lemma {:induction false} ComponentLength(a: string, s: string)
    requires '/' !in a && (s == "" || s[0] == '/')
    ensures UpToSlash(a + s) == |a|
  {
    if a == "" {
      assert a + s == s;
    } else {
      assert a[0] in a;
      ComponentLength(a[1..], s);
      assert (a + s)[1..] == a[1..] + s;
    }
  }

  // The first component ends where the next slash stands.
  lemma FirstComponent(a: string, b: string, s: string, t: string)
    requires '/' !in a && '/' !in b && a + s == b + t
    requires (s == "" || s[0] == '/') && (t == "" || t[0] == '/')
    ensures a == b && s == t
  {
    ComponentLength(a, s);
    ComponentLength(b, t);
    assert (a + s)[..|a|] == a && (b + t)[..|b|] == b;
    assert (a + s)[|a|..] == s && (b + t)[|b|..] == t;
  }

  lemma {:induction false} SuffixInjective(a: seq<string>, b: seq<string>)
    requires Names(a) && Names(b) && Suffix(a) == Suffix(b)
    ensures a == b
  {
    SuffixStart(a);
    SuffixStart(b);
    if a != [] && b != [] {
      SuffixStart(a[1..]);
      SuffixStart(b[1..]);
      var s, t := a[0] + Suffix(a[1..]), b[0] + Suffix(b[1..]);
      assert Suffix(a)[1..] == s && Suffix(b)[1..] == t;
      FirstComponent(a[0], b[0], Suffix(a[1..]), Suffix(b[1..]));
      SuffixInjective(a[1..], b[1..]);
      assert a == [a[0]] + a[1..] && b == [b[0]] + b[1..];
    }
  }

  lemma JoinPlain(root: string, names: seq<string>, name: string)
    requires PlainPath(root) && Names(names) && name != ""
    ensures JoinPath(root + Suffix(names), name) == root + Suffix(names + [name])
  {
    SuffixAppend(names, [name]);
    assert Suffix([name]) == "/" + name + "";
    NoTrailingSlash(root, names);
    assert root + Suffix(names) + "/" + name == root + (Suffix(names) + ("/" + name));
  }

  lemma {:induction false} NoTrailingSlash(root: string, names: seq<string>)
    requires root != "" && root[|root| - 1] != '/' && Names(names)
    ensures var path := root + Suffix(names); path[|path| - 1] != '/'
  {
    if names != [] {
      var init, last := names[..|names| - 1], names[|names| - 1];
      SuffixAppend(init, [last]);
      assert init + [last] == names && Suffix([last]) == "/" + last + "";
      var path := root + Suffix(names);
      assert path[|path| - 1] == last[|last| - 1];
      assert last[|last| - 1] in last;
    }
  }

  // ---------------------------------------------------------------- what a scan contains

  ghost predicate Listed(tree: Tree, actual: string, projected: string, names: seq<string>, item: Scanned) {
    && Names(names) && Lookup(tree, names) == Some(item.entry.attrs)
    && item.entry.path == projected + Suffix(names) && item.actual == actual + Suffix(names)
  }

  lemma {:induction false} ValidChild(forest: Forest, name: string)
    requires Find(forest, name).Some? && ValidNamesAll(forest) && WellFormedAll(forest)
    ensures ValidName(name) && ValidNames(Find(forest, name).value) && WellFormed(Find(forest, name).value)
    decreases forest
  {
    if forest.name != name {
      ValidChild(forest.rest, name);
    }
  }

  lemma {:induction false} LookupNames(tree: Tree, names: seq<string>)
    requires WellFormed(tree) && ValidNames(tree) && Lookup(tree, names).Some?
    ensures Names(names)
    decreases |names|
  {
    if names != [] {
      ValidChild(tree.children, names[0]);
      LookupNames(Find(tree.children, names[0]).value, names[1..]);
      assert forall i :: 0 < i < |names| ==> names[i] == names[1..][i - 1];
    }
  }

  lemma NamesCons(name: string, names: seq<string>)
    requires ValidName(name) && Names(names)
    ensures Names([name] + names)
    ensures Suffix([name] + names) == "/" + name + Suffix(names)
  {
    assert ([name] + names)[1..] == names;
  }

  // An entry listed below a child is listed below its parent.
  lemma ListedUp(tree: Tree, root: string, projected: string, here: seq<string>, name: string, names: seq<string>,
                 item: Scanned)
    requires Find(tree.children, name).Some? && ValidName(name)
    requires Listed(Find(tree.children, name).value, root + Suffix(here + [name]), projected + Suffix(here + [name]),
                    names, item)
    ensures Listed(tree, root + Suffix(here), projected + Suffix(here), [name] + names, item)
  {
    NamesCons(name, names);
    SuffixAppend(here, [name]);
    assert Suffix([name]) == "/" + name + "" == "/" + name;
    assert ([name] + names)[1..] == names;
    Assoc(root, Suffix(here), "/" + name, Suffix(names));
    Assoc(projected, Suffix(here), "/" + name, Suffix(names));
  }

  lemma Assoc(a: string, b: string, c: string, d: string)
    ensures (a + (b + c)) + d == (a + b) + (c + d)
  {
  }

  predicate Roots(actual: string, projected: string, here: seq<string>) {
    PlainPath(actual) && PlainPath(projected) && Names(here)
  }

  // Every scanned item stands for a place of the tree.
  lemma {:induction false} VisitSound(tree: Tree, actual: string, projected: string, here: seq<string>, i: nat)
    returns (names: seq<string>)
    requires WellFormed(tree) && ValidNames(tree) && Roots(actual, projected, here)
    requires i < |Visit(tree, actual + Suffix(here), projected + Suffix(here))|
    ensures Listed(tree, actual + Suffix(here), projected + Suffix(here), names,
                   Visit(tree, actual + Suffix(here), projected + Suffix(here))[i])
    decreases tree
  {
    var a, p := actual + Suffix(here), projected + Suffix(here);
    if i == 0 {
      names := [];
      assert a + Suffix([]) == a && p + Suffix([]) == p;
    } else {
      var name, rest := VisitAllSound(tree.children, actual, projected, here, i - 1);
      names := [name] + rest;
      var item := VisitAll(tree.children, a, p)[i - 1];
      assert Visit(tree, a, p)[i] == item;
      ValidChild(tree.children, name);
      ListedUp(tree, actual, projected, here, name, rest, item);
    }
  }

  lemma {:induction false} VisitAllSound(forest: Forest, actual: string, projected: string, here: seq<string>, i: nat)
    returns (name: string, names: seq<string>)
    requires WellFormedAll(forest) && ValidNamesAll(forest) && Roots(actual, projected, here)
    requires i < |VisitAll(forest, actual + Suffix(here), projected + Suffix(here))|
    ensures Find(forest, name).Some?
    ensures Listed(Find(forest, name).value, actual + Suffix(here + [name]), projected + Suffix(here + [name]), names,
                   VisitAll(forest, actual + Suffix(here), projected + Suffix(here))[i])
    decreases forest
  {
    var a, p := actual + Suffix(here), projected + Suffix(here);
    JoinPlain(actual, here, forest.name);
    JoinPlain(projected, here, forest.name);
    NamesSnoc(here, forest.name);
    var first := Visit(forest.tree, JoinPath(a, forest.name), JoinPath(p, forest.name));
    if i < |first| {
      name := forest.name;
      names := VisitSound(forest.tree, actual, projected, here + [name], i);
    } else {
      name, names := VisitAllSound(forest.rest, actual, projected, here, i - |first|);
      assert forest.name != name;
    }
  }

  lemma NamesSnoc(here: seq<string>, name: string)
    requires Names(here) && ValidName(name)
    ensures Names(here + [name])
  {
  }

  // Every place of the tree is scanned.
  lemma {:induction false} VisitComplete(tree: Tree, actual: string, projected: string, here: seq<string>,
                                         names: seq<string>) returns (i: nat)
    requires WellFormed(tree) && ValidNames(tree) && Roots(actual, projected, here)
    requires Lookup(tree, names).Some?
    ensures i < |Visit(tree, actual + Suffix(here), projected + Suffix(here))|
    ensures Listed(tree, actual + Suffix(here), projected + Suffix(here), names,
                   Visit(tree, actual + Suffix(here), projected + Suffix(here))[i])
    decreases tree
  {
    var a, p := actual + Suffix(here), projected + Suffix(here);
    if names == [] {
      i := 0;
      assert a + Suffix([]) == a && p + Suffix([]) == p;
    } else {
      ValidChild(tree.children, names[0]);
      var k := VisitAllComplete(tree.children, actual, projected, here, names[0], names[1..]);
      i := k + 1;
      var item := VisitAll(tree.children, a, p)[k];
      assert Visit(tree, a, p)[i] == item;
      ListedUp(tree, actual, projected, here, names[0], names[1..], item);
      assert [names[0]] + names[1..] == names;
    }
  }

  lemma {:induction false} VisitAllComplete(forest: Forest, actual: string, projected: string, here: seq<string>,
                                            name: string, names: seq<string>) returns (i: nat)
    requires WellFormedAll(forest) && ValidNamesAll(forest) && Roots(actual, projected, here)
    requires Find(forest, name).Some? && Lookup(Find(forest, name).value, names).Some?
    ensures i < |VisitAll(forest, actual + Suffix(here), projected + Suffix(here))|
    ensures Listed(Find(forest, name).value, actual + Suffix(here + [name]), projected + Suffix(here + [name]), names,
                   VisitAll(forest, actual + Suffix(here), projected + Suffix(here))[i])
    decreases forest
  {
    var a, p := actual + Suffix(here), projected + Suffix(here);
    JoinPlain(actual, here, forest.name);
    JoinPlain(projected, here, forest.name);
    NamesSnoc(here, forest.name);
    var first := Visit(forest.tree, JoinPath(a, forest.name), JoinPath(p, forest.name));
    if forest.name == name {
      i := VisitComplete(forest.tree, actual, projected, here + [name], names);
    } else {
      var k := VisitAllComplete(forest.rest, actual, projected, here, name, names);
      i := |first| + k;
    }
  }

  lemma ConsDiffer(x: string, nx: seq<string>, y: string, ny: seq<string>)
    requires x != y || nx != ny
    ensures [x] + nx != [y] + ny
  {
    assert ([x] + nx)[0] == x && ([y] + ny)[0] == y;
    assert ([x] + nx)[1..] == nx && ([y] + ny)[1..] == ny;
  }

  lemma RootListed(tree: Tree, actual: string, projected: string)
    ensures Listed(tree, actual, projected, [], Visit(tree, actual, projected)[0])
  {
    assert actual + Suffix([]) == actual && projected + Suffix([]) == projected;
  }

  // No place is scanned twice.
  lemma {:induction false} VisitApart(tree: Tree, actual: string, projected: string, here: seq<string>, i: nat, j: nat)
    returns (ni: seq<string>, nj: seq<string>)
    requires WellFormed(tree) && ValidNames(tree) && Roots(actual, projected, here)
    requires i < j < |Visit(tree, actual + Suffix(here), projected + Suffix(here))|
    ensures var list := Visit(tree, actual + Suffix(here), projected + Suffix(here));
            && Listed(tree, actual + Suffix(here), projected + Suffix(here), ni, list[i])
            && Listed(tree, actual + Suffix(here), projected + Suffix(here), nj, list[j])
            && ni != nj
    decreases tree
  {
    hide Listed, Suffix, VisitAll, WellFormedAll, ValidNamesAll, Names, PlainPath, ValidName;
    var a, p := actual + Suffix(here), projected + Suffix(here);
    var rest := VisitAll(tree.children, a, p);
    assert Visit(tree, a, p)[j] == rest[j - 1];
    if i == 0 {
      var nb, more := VisitAllSound(tree.children, actual, projected, here, j - 1);
      ni, nj := [], [nb] + more;
      RootListed(tree, a, p);
      ValidChild(tree.children, nb);
      ListedUp(tree, actual, projected, here, nb, more, rest[j - 1]);
    } else {
      var x, nx, y, ny := VisitAllApart(tree.children, actual, projected, here, i - 1, j - 1);
      ni, nj := [x] + nx, [y] + ny;
      assert Visit(tree, a, p)[i] == rest[i - 1];
      assert ListedIn(tree.children, x, actual, projected, here, nx, rest[i - 1]);
      assert ListedIn(tree.children, y, actual, projected, here, ny, rest[j - 1]);
      ConsDiffer(x, nx, y, ny);
      ValidChild(tree.children, x);
      ValidChild(tree.children, y);
      ListedUp(tree, actual, projected, here, x, nx, rest[i - 1]);
      ListedUp(tree, actual, projected, here, y, ny, rest[j - 1]);
    }
  }

  ghost predicate ListedIn(forest: Forest, name: string, actual: string, projected: string, here: seq<string>,
                           names: seq<string>, item: Scanned) {
    Find(forest, name).Some?
    && Listed(Find(forest, name).value, actual + Suffix(here + [name]), projected + Suffix(here + [name]), names, item)
  }

  lemma FirstChild(forest: Forest, actual: string, projected: string, here: seq<string>)
    requires WellFormedAll(forest) && ValidNamesAll(forest) && Roots(actual, projected, here) && forest.Cons?
    ensures var a, p := actual + Suffix(here), projected + Suffix(here);
            VisitAll(forest, a, p) ==
            Visit(forest.tree, actual + Suffix(here + [forest.name]), projected + Suffix(here + [forest.name]))
            + VisitAll(forest.rest, a, p)
    ensures Roots(actual, projected, here + [forest.name]) && WellFormed(forest.tree) && ValidNames(forest.tree)
    ensures WellFormedAll(forest.rest) && ValidNamesAll(forest.rest) && Find(forest.rest, forest.name).None?
    ensures Find(forest, forest.name) == Some(forest.tree)
    ensures forall name :: name != forest.name ==> Find(forest, name) == Find(forest.rest, name)
  {
    JoinPlain(actual, here, forest.name);
    JoinPlain(projected, here, forest.name);
    NamesSnoc(here, forest.name);
    hide Visit, Suffix, JoinPath;
  }

  lemma {:induction false} VisitAllApart(forest: Forest, actual: string, projected: string, here: seq<string>, i: nat, j: nat)
    returns (x: string, nx: seq<string>, y: string, ny: seq<string>)
    requires WellFormedAll(forest) && ValidNamesAll(forest) && Roots(actual, projected, here)
    requires i < j < |VisitAll(forest, actual + Suffix(here), projected + Suffix(here))|
    ensures var list := VisitAll(forest, actual + Suffix(here), projected + Suffix(here));
            && ListedIn(forest, x, actual, projected, here, nx, list[i])
            && ListedIn(forest, y, actual, projected, here, ny, list[j])
    ensures x != y || nx != ny
    decreases forest
  {
    assert forest.Cons?;
    hide Listed, Suffix, Visit, VisitAll, WellFormed, WellFormedAll, ValidNames, ValidNamesAll, Roots, Find, ListedIn;
    FirstChild(forest, actual, projected, here);
    var a, p := actual + Suffix(here), projected + Suffix(here);
    var first := Visit(forest.tree, actual + Suffix(here + [forest.name]), projected + Suffix(here + [forest.name]));
    var rest := VisitAll(forest.rest, a, p);
    if j < |first| {
      x, y := forest.name, forest.name;
      nx, ny := VisitApart(forest.tree, actual, projected, here + [x], i, j);
      InFirst(forest, actual, projected, here, nx, first[i]);
      InFirst(forest, actual, projected, here, ny, first[j]);
    } else if i >= |first| {
      x, nx, y, ny := VisitAllApart(forest.rest, actual, projected, here, i - |first|, j - |first|);
      InRest(forest, x, actual, projected, here, nx, rest[i - |first|]);
      InRest(forest, y, actual, projected, here, ny, rest[j - |first|]);
    } else {
      x := forest.name;
      nx := VisitSound(forest.tree, actual, projected, here + [x], i);
      y, ny := VisitAllSound(forest.rest, actual, projected, here, j - |first|);
      InFirst(forest, actual, projected, here, nx, first[i]);
      ListedInIs(forest.rest, y, actual, projected, here, ny, rest[j - |first|]);
      InRest(forest, y, actual, projected, here, ny, rest[j - |first|]);
    }
  }

  lemma ListedInIs(forest: Forest, name: string, actual: string, projected: string, here: seq<string>,
                   names: seq<string>, item: Scanned)
    requires Find(forest, name).Some?
    requires Listed(Find(forest, name).value, actual + Suffix(here + [name]), projected + Suffix(here + [name]), names, item)
    ensures ListedIn(forest, name, actual, projected, here, names, item)
  {
  }

  lemma InFirst(forest: Forest, actual: string, projected: string, here: seq<string>, names: seq<string>, item: Scanned)
    requires forest.Cons?
    requires Listed(forest.tree, actual + Suffix(here + [forest.name]), projected + Suffix(here + [forest.name]), names, item)
    ensures ListedIn(forest, forest.name, actual, projected, here, names, item)
  {
    hide Listed, Suffix;
  }

  lemma InRest(forest: Forest, name: string, actual: string, projected: string, here: seq<string>,
               names: seq<string>, item: Scanned)
    requires forest.Cons? && Find(forest.rest, forest.name).None?
    requires ListedIn(forest.rest, name, actual, projected, here, names, item)
    ensures ListedIn(forest, name, actual, projected, here, names, item) && name != forest.name
  {
    hide Listed, Suffix;
  }

  // ---------------------------------------------------------------- one whole scan

  predicate DistinctPaths(list: seq<Scanned>) {
    forall i, j :: 0 <= i < j < |list| ==>
      list[i].actual != list[j].actual && list[i].entry.path != list[j].entry.path
  }

  lemma RootSuffix(root: string)
    ensures root + Suffix([]) == root
  {
  }

  lemma ScanDistinct(tree: Tree, actual: string, projected: string)
    requires WellFormed(tree) && ValidNames(tree) && PlainPath(actual) && PlainPath(projected)
    ensures DistinctPaths(Visit(tree, actual, projected))
  {
    var list := Visit(tree, actual, projected);
    RootSuffix(actual);
    RootSuffix(projected);
    forall i, j | 0 <= i < j < |list| ensures list[i].actual != list[j].actual && list[i].entry.path != list[j].entry.path {
      var ni, nj := VisitApart(tree, actual, projected, [], i, j);
      DifferentPlaces(actual, ni, nj);
      DifferentPlaces(projected, ni, nj);
    }
  }

  lemma DifferentPlaces(root: string, a: seq<string>, b: seq<string>)
    requires Names(a) && Names(b) && a != b
    ensures root + Suffix(a) != root + Suffix(b)
  {
    if root + Suffix(a) == root + Suffix(b) {
      assert Suffix(a) == (root + Suffix(a))[|root|..] == (root + Suffix(b))[|root|..] == Suffix(b);
      SuffixInjective(a, b);
    }
  }

  lemma ScanSound(tree: Tree, actual: string, projected: string, i: nat) returns (names: seq<string>)
    requires WellFormed(tree) && ValidNames(tree) && PlainPath(actual) && PlainPath(projected)
    requires i < |Visit(tree, actual, projected)|
    ensures Listed(tree, actual, projected, names, Visit(tree, actual, projected)[i])
  {
    RootSuffix(actual);
    RootSuffix(projected);
    names := VisitSound(tree, actual, projected, [], i);
  }

  lemma ScanComplete(tree: Tree, actual: string, projected: string, names: seq<string>) returns (i: nat)
    requires WellFormed(tree) && ValidNames(tree) && PlainPath(actual) && PlainPath(projected)
    requires Lookup(tree, names).Some?
    ensures i < |Visit(tree, actual, projected)|
    ensures Listed(tree, actual, projected, names, Visit(tree, actual, projected)[i])
  {
    RootSuffix(actual);
    RootSuffix(projected);
    i := VisitComplete(tree, actual, projected, [], names);
  }

  // ---------------------------------------------------------------- sorting

  // Strictly smaller in the order of the characters.
  predicate Less(a: string, b: string) {
    if b == "" then false
    else if a == "" then true
    else a[0] < b[0] || (a[0] == b[0] && Less(a[1..], b[1..]))
  }

  lemma {:induction false} LessTotal(a: string, b: string)
    ensures Less(a, b) || Less(b, a) || a == b
    ensures !(Less(a, b) && Less(b, a)) && !Less(a, a)
  {
    if a != "" {
      LessTotal(a[1..], a[1..]);
    }
    if a != "" && b != "" {
      LessTotal(a[1..], b[1..]);
      assert a == [a[0]] + a[1..] && b == [b[0]] + b[1..];
    }
  }

  // The order of dictionaries: a proper beginning first, else by the first difference.
  lemma {:induction false} LessIff(a: string, b: string)
    ensures Less(a, b) <==>
            (a <= b && a != b) || exists i :: 0 <= i < |a| && i < |b| && a[..i] == b[..i] && a[i] < b[i]
  {
    if a != "" && b != "" {
      LessIff(a[1..], b[1..]);
      assert a == [a[0]] + a[1..] && b == [b[0]] + b[1..];
      if a[0] == b[0] {
        assert a <= b <==> a[1..] <= b[1..];
        forall i | 0 <= i < |a[1..]| && i < |b[1..]| && a[1..][..i] == b[1..][..i] && a[1..][i] < b[1..][i]
          ensures a[..i + 1] == b[..i + 1] && a[i + 1] < b[i + 1]
        {
          assert a[..i + 1] == [a[0]] + a[1..][..i] && b[..i + 1] == [b[0]] + b[1..][..i];
        }
        forall i | 0 < i < |a| && i < |b| && a[..i] == b[..i] && a[i] < b[i]
          ensures a[1..][..i - 1] == b[1..][..i - 1] && a[1..][i - 1] < b[1..][i - 1]
        {
          assert a[..i][1..] == a[1..][..i - 1] && b[..i][1..] == b[1..][..i - 1];
        }
      } else {
        assert a[..0] == b[..0];
        forall i | 0 < i < |a| && i < |b| ensures a[..i] != b[..i] {
          if a[..i] == b[..i] { SameStart(a, b, i); }
        }
      }
    }
  }

  lemma SameStart(a: string, b: string, i: nat)
    requires 0 < i < |a| && i < |b| && a[..i] == b[..i]
    ensures a[0] == b[0]
  {
    assert a[..i][0] == a[0] && b[..i][0] == b[0];
  }

  lemma {:induction false} LessTrans(a: string, b: string, c: string)
    requires Less(a, b) && Less(b, c)
    ensures Less(a, c)
  {
    if a != "" && a[0] == b[0] && b[0] == c[0] {
      LessTrans(a[1..], b[1..], c[1..]);
    }
  }

  function Insert(item: Scanned, list: seq<Scanned>): seq<Scanned> {
    if list == [] then [item]
    else if Less(list[0].entry.path, item.entry.path) then [list[0]] + Insert(item, list[1..])
    else [item] + list
  }

  function Sorted(list: seq<Scanned>): seq<Scanned> {
    if list == [] then [] else Insert(list[0], Sorted(list[1..]))
  }

  predicate Ascending(list: seq<Scanned>) {
    forall i, j :: 0 <= i < j < |list| ==> Less(list[i].entry.path, list[j].entry.path)
  }

  lemma {:induction false} InsertKeeps(item: Scanned, list: seq<Scanned>)
    ensures |Insert(item, list)| == |list| + 1
    ensures multiset(Insert(item, list)) == multiset(list) + multiset{item}
  {
    hide Less;
    if list != [] && Less(list[0].entry.path, item.entry.path) {
      InsertKeeps(item, list[1..]);
      assert list == [list[0]] + list[1..];
    }
  }

  lemma {:induction false} SortedKeeps(list: seq<Scanned>)
    ensures multiset(Sorted(list)) == multiset(list) && |Sorted(list)| == |list|
  {
    hide Insert;
    if list != [] {
      SortedKeeps(list[1..]);
      InsertKeeps(list[0], Sorted(list[1..]));
      assert list == [list[0]] + list[1..];
    }
  }

  predicate Above(path: string, list: seq<Scanned>) {
    forall i :: 0 <= i < |list| ==> Less(path, list[i].entry.path)
  }

  lemma AscendingCons(item: Scanned, list: seq<Scanned>)
    ensures Ascending([item] + list) <==> Above(item.entry.path, list) && Ascending(list)
  {
    var all := [item] + list;
    assert forall i :: 0 <= i < |list| ==> list[i] == all[i + 1];
    hide Less;
    if Ascending(all) {
      forall i, j | 0 <= i < j < |list| ensures Less(list[i].entry.path, list[j].entry.path) {
        assert list[i] == all[i + 1] && list[j] == all[j + 1];
      }
      forall i | 0 <= i < |list| ensures Less(item.entry.path, list[i].entry.path) {
        assert all[0] == item && list[i] == all[i + 1];
      }
    }
    if Above(item.entry.path, list) && Ascending(list) {
      forall i, j | 0 <= i < j < |all| ensures Less(all[i].entry.path, all[j].entry.path) {
        assert all[j] == list[j - 1];
        assert i > 0 ==> all[i] == list[i - 1];
      }
    }
  }

  lemma {:induction false} AboveInsert(path: string, item: Scanned, list: seq<Scanned>)
    requires Less(path, item.entry.path) && Above(path, list)
    ensures Above(path, Insert(item, list))
  {
    hide Less;
    if list != [] && Less(list[0].entry.path, item.entry.path) {
      AboveInsert(path, item, list[1..]);
    }
  }

  lemma {:induction false} InsertAscending(item: Scanned, list: seq<Scanned>)
    requires Ascending(list) && forall i :: 0 <= i < |list| ==> list[i].entry.path != item.entry.path
    ensures Ascending(Insert(item, list))
  {
    hide Less, Ascending;
    if list == [] {
      AscendingCons(item, []);
      assert [item] + [] == [item] && Ascending([]) by { AscendingNothing(); }
    } else {
      var head, rest := list[0], list[1..];
      assert list == [head] + rest;
      AscendingCons(head, rest);
      LessTotal(head.entry.path, item.entry.path);
      if Less(head.entry.path, item.entry.path) {
        InsertAscending(item, rest);
        AboveInsert(head.entry.path, item, rest);
        AscendingCons(head, Insert(item, rest));
      } else {
        forall i | 0 <= i < |list| ensures Less(item.entry.path, list[i].entry.path) {
          if i > 0 {
            assert list[i] == rest[i - 1];
            LessTrans(item.entry.path, head.entry.path, list[i].entry.path);
          }
        }
        AscendingCons(item, list);
      }
    }
  }

  lemma AscendingNothing()
    ensures Ascending([])
  {
  }

  lemma {:induction false} SortedAscending(list: seq<Scanned>)
    requires DistinctPaths(list)
    ensures Ascending(Sorted(list))
  {
    if list == [] {
      AscendingNothing();
    } else {
      var rest := list[1..];
      assert list == [list[0]] + rest;
      forall i, j | 0 <= i < j < |rest|
        ensures rest[i].actual != rest[j].actual && rest[i].entry.path != rest[j].entry.path
      {
        assert rest[i] == list[i + 1] && rest[j] == list[j + 1];
      }
      SortedAscending(rest);
      SortedKeeps(rest);
      forall k | 0 <= k < |Sorted(rest)| ensures Sorted(rest)[k].entry.path != list[0].entry.path {
        assert Sorted(rest)[k] in multiset(Sorted(rest));
        assert Sorted(rest)[k] in rest;
        var i :| 0 <= i < |rest| && rest[i] == Sorted(rest)[k];
        assert rest[i] == list[i + 1];
      }
      hide Ascending, Less, Insert;
      InsertAscending(list[0], Sorted(rest));
    }
  }

  // ---------------------------------------------------------------- the manifest

  function Entries(list: seq<Scanned>): (entries: seq<ManifestEntry>)
    ensures |entries| == |list| && forall i :: 0 <= i < |entries| ==> entries[i] == list[i].entry
  {
    seq(|list|, i requires 0 <= i < |list| => list[i].entry)
  }

  // What is hashed: the entries of the scan in the order of their paths.
  function Manifest(tree: Tree, actual: string, projected: string): seq<ManifestEntry> {
    Entries(Sorted(Visit(tree, actual, projected)))
  }

  predicate InOrder(entries: seq<ManifestEntry>) {
    forall i, j :: 0 <= i < j < |entries| ==> Less(entries[i].path, entries[j].path)
  }

  lemma HeadsAgree(a: seq<ManifestEntry>, b: seq<ManifestEntry>)
    requires a != [] && InOrder(a) && InOrder(b) && (forall e :: e in a <==> e in b)
    ensures b != [] && a[0] == b[0]
  {
    assert a[0] in b;
    var i :| 0 <= i < |b| && b[i] == a[0];
    assert b[0] in a;
    var j :| 0 <= j < |a| && a[j] == b[0];
    hide Less;
    assert i > 0 ==> Less(b[0].path, b[i].path);
    assert j > 0 ==> Less(a[0].path, a[j].path);
    LessTotal(a[0].path, b[0].path);
  }

  lemma TailMembers(a: seq<ManifestEntry>, e: ManifestEntry)
    requires a != [] && InOrder(a)
    ensures e in a[1..] <==> e in a && e != a[0]
    ensures InOrder(a[1..])
  {
    if e in a[1..] {
      var i :| 0 <= i < |a[1..]| && a[1..][i] == e;
      assert Less(a[0].path, a[i + 1].path);
      LessTotal(a[0].path, a[0].path);
    }
    hide Less;
    assert a == [a[0]] + a[1..];
    forall i, j | 0 <= i < j < |a[1..]| ensures Less(a[1..][i].path, a[1..][j].path) {
      assert a[1..][i] == a[i + 1] && a[1..][j] == a[j + 1];
    }
  }

  lemma HasMember(list: seq<ManifestEntry>)
    requires list != []
    ensures exists e :: e in list
  {
    assert list[0] in list;
  }

  // An ordered list is determined by its members.
  lemma {:induction false} OrderIsUnique(a: seq<ManifestEntry>, b: seq<ManifestEntry>)
    requires InOrder(a) && InOrder(b) && (forall e :: e in a <==> e in b)
    ensures a == b
  {
    if a == [] {
      if b != [] { HasMember(b); }
    } else {
      HeadsAgree(a, b);
      forall e ensures e in a[1..] <==> e in b[1..] {
        TailMembers(a, e);
        TailMembers(b, e);
      }
      TailMembers(a, a[0]);
      TailMembers(b, b[0]);
      hide InOrder;
      OrderIsUnique(a[1..], b[1..]);
      assert a == [a[0]] + a[1..] && b == [b[0]] + b[1..];
    }
  }

  lemma ManifestInOrder(tree: Tree, actual: string, projected: string)
    requires WellFormed(tree) && ValidNames(tree) && PlainPath(actual) && PlainPath(projected)
    ensures InOrder(Manifest(tree, actual, projected))
  {
    hide Visit, Less, Sorted, WellFormed, ValidNames, PlainPath, DistinctPaths;
    ScanDistinct(tree, actual, projected);
    SortedAscending(Visit(tree, actual, projected));
  }

  ghost predicate Occurs(list: seq<Scanned>, e: ManifestEntry) {
    exists i :: 0 <= i < |list| && list[i].entry == e
  }

  lemma OccursInEntries(list: seq<Scanned>, e: ManifestEntry)
    ensures e in Entries(list) <==> Occurs(list, e)
  {
    if Occurs(list, e) {
      var i :| 0 <= i < |list| && list[i].entry == e;
      assert Entries(list)[i] == e;
    }
  }

  lemma OccursSame(a: seq<Scanned>, b: seq<Scanned>, e: ManifestEntry)
    requires multiset(a) == multiset(b) && Occurs(a, e)
    ensures Occurs(b, e)
  {
    var i :| 0 <= i < |a| && a[i].entry == e;
    assert a[i] in multiset(a);
    assert a[i] in b;
    var k :| 0 <= k < |b| && b[k] == a[i];
  }

  lemma ManifestMembers(tree: Tree, actual: string, projected: string, e: ManifestEntry)
    ensures e in Manifest(tree, actual, projected) <==> Occurs(Visit(tree, actual, projected), e)
  {
    hide Visit, Sorted, Occurs;
    var list := Visit(tree, actual, projected);
    SortedKeeps(list);
    OccursInEntries(Sorted(list), e);
    if Occurs(list, e) { OccursSame(list, Sorted(list), e); }
    if Occurs(Sorted(list), e) { OccursSame(Sorted(list), list, e); }
  }

  // An entry is in the manifest exactly when it is at its place in the tree.
  ghost predicate Stands(tree: Tree, projected: string, e: ManifestEntry) {
    exists names :: Names(names) && Lookup(tree, names) == Some(e.attrs) && e.path == projected + Suffix(names)
  }

  lemma ManifestIsTree(tree: Tree, actual: string, projected: string, e: ManifestEntry)
    requires WellFormed(tree) && ValidNames(tree) && PlainPath(actual) && PlainPath(projected)
    ensures e in Manifest(tree, actual, projected) <==> Stands(tree, projected, e)
  {
    hide Visit, Manifest, Suffix, WellFormed, ValidNames, PlainPath, Lookup;
    ManifestMembers(tree, actual, projected, e);
    if Occurs(Visit(tree, actual, projected), e) {
      var i :| 0 <= i < |Visit(tree, actual, projected)| && Visit(tree, actual, projected)[i].entry == e;
      var names := ScanSound(tree, actual, projected, i);
    }
    if Stands(tree, projected, e) {
      var names :| Names(names) && Lookup(tree, names) == Some(e.attrs) && e.path == projected + Suffix(names);
      var i := ScanComplete(tree, actual, projected, names);
      assert Visit(tree, actual, projected)[i].entry == e;
    }
  }

  lemma SameManifestSamePlace(a: Tree, b: Tree, actualA: string, actualB: string, projected: string, names: seq<string>)
    requires WellFormed(a) && ValidNames(a) && PlainPath(actualA)
    requires WellFormed(b) && ValidNames(b) && PlainPath(actualB) && PlainPath(projected)
    requires Manifest(a, actualA, projected) == Manifest(b, actualB, projected)
    ensures Lookup(a, names).Some? ==> Lookup(b, names) == Lookup(a, names)
  {
    if Lookup(a, names).Some? {
      LookupNames(a, names);
      var e := ManifestEntry(projected + Suffix(names), Lookup(a, names).value);
      hide Manifest, WellFormed, ValidNames, PlainPath;
      ManifestIsTree(a, actualA, projected, e);
      ManifestIsTree(b, actualB, projected, e);
      var other :| Names(other) && Lookup(b, other) == Some(e.attrs) && e.path == projected + Suffix(other);
      if other != names {
        DifferentPlaces(projected, other, names);
      }
    }
  }

  // The manifest is canonical: it depends neither on the order of enumeration nor on where
  // the tree stands while it is scanned, and two manifests are equal only for equal trees.
  lemma ManifestCanonical(a: Tree, b: Tree, actualA: string, actualB: string, projected: string)
    requires WellFormed(a) && ValidNames(a) && PlainPath(actualA)
    requires WellFormed(b) && ValidNames(b) && PlainPath(actualB) && PlainPath(projected)
    ensures Manifest(a, actualA, projected) == Manifest(b, actualB, projected) <==> SameTree(a, b)
  {
    hide WellFormed, ValidNames, PlainPath, Manifest, Lookup;
    if Manifest(a, actualA, projected) == Manifest(b, actualB, projected) {
      forall names ensures Lookup(a, names) == Lookup(b, names) {
        SameManifestSamePlace(a, b, actualA, actualB, projected, names);
        SameManifestSamePlace(b, a, actualB, actualA, projected, names);
      }
    }
    if SameTree(a, b) {
      forall e ensures e in Manifest(a, actualA, projected) <==> e in Manifest(b, actualB, projected) {
        ManifestIsTree(a, actualA, projected, e);
        ManifestIsTree(b, actualB, projected, e);
        SameStands(a, b, projected, e);
      }
      ManifestInOrder(a, actualA, projected);
      ManifestInOrder(b, actualB, projected);
      hide SameTree;
      OrderIsUnique(Manifest(a, actualA, projected), Manifest(b, actualB, projected));
    }
  }

  lemma SameStands(a: Tree, b: Tree, projected: string, e: ManifestEntry)
    requires SameTree(a, b)
    ensures Stands(a, projected, e) <==> Stands(b, projected, e)
  {
    hide Lookup, Suffix;
    if names :| Names(names) && Lookup(a, names) == Some(e.attrs) && e.path == projected + Suffix(names) {
      assert Lookup(b, names) == Some(e.attrs);
    }
    if names :| Names(names) && Lookup(b, names) == Some(e.attrs) && e.path == projected + Suffix(names) {
      assert Lookup(a, names) == Some(e.attrs);
    }
  }
}

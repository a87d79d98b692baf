/** The artifact scan as a whole: the walk, the filter, the tree, and what reading the tree back gives. */
module ArtifactListing {
  import opened Statuses
  import opened ArtifactTotals
  import opened ArtifactTree
  import opened ArtifactContents
  import ArtifactWalk

  // ---------- nothing lost, nothing invented ----------

  /** All files of the tree at `k`, in the order of a depth-first reading down to `depth` levels. */
  function Flatten(cells: map<Path, Cell>, kids: map<Path, seq<string>>, k: Path, depth: nat): seq<Item>
    decreases depth, 0, 0
  {
    if depth == 0 || k !in cells || k !in kids then []
    else cells[k].files + FlattenAll(cells, kids, k, kids[k], depth - 1)
  }

  function FlattenAll(cells: map<Path, Cell>, kids: map<Path, seq<string>>, k: Path, names: seq<string>, depth: nat): seq<Item>
    decreases depth, 1, |names|
  {
    if names == [] then []
    else FlattenAll(cells, kids, k, names[..|names| - 1], depth) + Flatten(cells, kids, k + [names[|names| - 1]], depth)
  }

  /** A finished tree no deeper than `bound`. */
  ghost predicate Complete(index: map<Path, Dir>, cells: map<Path, Cell>, kids: map<Path, seq<string>>, collected: seq<Item>, bound: nat) {
    && Shape(index, cells, kids) && DirsOf(index.Keys, collected)
    && forall l {:trigger cells[l]} :: l in index ==> |l| <= bound && Finished(cells[l], kids[l], collected, l)
  }

  predicate Indexed(index: map<Path, Dir>, k: Path, names: seq<string>) {
    forall i {:trigger names[i]} :: 0 <= i < |names| ==> k + [names[i]] in index
  }

  lemma ChildrenIndexed(index: map<Path, Dir>, cells: map<Path, Cell>, kids: map<Path, seq<string>>, k: Path)
    requires Shape(index, cells, kids) && k in index
    ensures k in kids && Indexed(index, k, kids[k])
  {
    assert NodeOk(index, cells, kids, k);
  }

  /** Every node holds its own files and those of its children. */
  predicate Splitting(index: map<Path, Dir>, cells: map<Path, Cell>, kids: map<Path, seq<string>>, collected: seq<Item>, bound: nat, w: Weight) {
    forall k {:trigger SplitsAt(index, cells, kids, collected, bound, w, k)} :: k in index ==> SplitsAt(index, cells, kids, collected, bound, w, k)
  }

  predicate SplitsAt(index: map<Path, Dir>, cells: map<Path, Cell>, kids: map<Path, seq<string>>, collected: seq<Item>, bound: nat, w: Weight, k: Path) {
    && k in cells && k in kids && |k| <= bound && Indexed(index, k, kids[k])
    && Below(collected, k, w) == Weigh(cells[k].files, w) + BelowAll(collected, k, kids[k], w)
  }

  lemma NodeSplits(index: map<Path, Dir>, cells: map<Path, Cell>, kids: map<Path, seq<string>>, collected: seq<Item>, bound: nat, k: Path, w: Weight)
    requires Complete(index, cells, kids, collected, bound) && k in index
    ensures SplitsAt(index, cells, kids, collected, bound, w, k)
  {
    assert k in cells;
    assert cells[k] == cells[k];
    ChildrenIndexed(index, cells, kids, k);
    WeighPermutes(cells[k].files, FilesAt(collected, k), w);
    NamesCover(index, cells, kids, collected, k);
    BelowSplits(collected, k, kids[k], w);
  }

  lemma {:induction false} FlattenWeighs(index: map<Path, Dir>, cells: map<Path, Cell>, kids: map<Path, seq<string>>,
                                         collected: seq<Item>, bound: nat, k: Path, depth: nat, w: Weight)
    requires Splitting(index, cells, kids, collected, bound, w) && k in index && |k| + depth > bound
    ensures Weigh(Flatten(cells, kids, k, depth), w) == Below(collected, k, w)
    decreases depth, 0, 0
  {
    assert SplitsAt(index, cells, kids, collected, bound, w, k);
    FlattenAllWeighs(index, cells, kids, collected, bound, k, kids[k], depth - 1, w);
    WeighJoins(cells[k].files, FlattenAll(cells, kids, k, kids[k], depth - 1), w);
  }

  lemma {:induction false} FlattenAllWeighs(index: map<Path, Dir>, cells: map<Path, Cell>, kids: map<Path, seq<string>>,
                                            collected: seq<Item>, bound: nat, k: Path, names: seq<string>, depth: nat, w: Weight)
    requires Splitting(index, cells, kids, collected, bound, w) && |k| + 1 + depth > bound
    requires Indexed(index, k, names)
    ensures Weigh(FlattenAll(cells, kids, k, names, depth), w) == BelowAll(collected, k, names, w)
    decreases depth, 1, |names|
  {
    if names != [] {
      var n := |names| - 1;
      IndexedFront(index, k, names);
      FlattenAllWeighs(index, cells, kids, collected, bound, k, names[..n], depth, w);
      FlattenWeighs(index, cells, kids, collected, bound, k + [names[n]], depth, w);
      WeighJoins(FlattenAll(cells, kids, k, names[..n], depth), Flatten(cells, kids, k + [names[n]], depth), w);
    }
  }

  lemma IndexedFront(index: map<Path, Dir>, k: Path, names: seq<string>)
    requires Indexed(index, k, names) && names != []
    ensures Indexed(index, k, names[..|names| - 1]) && k + [names[|names| - 1]] in index
  {
    assert k + [names[|names| - 1]] in index;
  }

  /** Reading the finished tree back gives exactly the collected files, each as often as it was
      collected. */
  lemma FlatteningGivesBack(index: map<Path, Dir>, cells: map<Path, Cell>, kids: map<Path, seq<string>>, collected: seq<Item>, bound: nat)
    requires Complete(index, cells, kids, collected, bound)
    ensures multiset(Flatten(cells, kids, [], bound + 1)) == multiset(collected)
  {
    var flat := Flatten(cells, kids, [], bound + 1);
    forall y: Item
      ensures multiset(flat)[y] == multiset(collected)[y]
    {
      forall k | k in index
        ensures SplitsAt(index, cells, kids, collected, bound, Copies(y), k)
      {
        NodeSplits(index, cells, kids, collected, bound, k, Copies(y));
      }
      FlattenWeighs(index, cells, kids, collected, bound, [], bound + 1, Copies(y));
      RootHoldsEverything(collected, Copies(y));
      WeighCopies(flat, y);
      WeighCopies(collected, y);
    }
  }

  // ---------- the scan ----------

  /** A path none of whose parts starts with a dot. */
  predicate Visible(p: Path) {
    forall i :: 0 <= i < |p| ==> p[i] == "" || p[i][0] != '.'
  }

  function SizeAt(node: ArtifactWalk.Node, p: Path): nat
    decreases |p|
  {
    if p == [] then (if node.File? then node.size else 0)
    else if !node.Dir? then 0
    else
      var child := ArtifactWalk.Lookup(node.children, p[0]);
      if child.Some? then SizeAt(child.value, p[1..]) else 0
  }

  /** The visible ones of the walked files. */
  function Collect(root: ArtifactWalk.Node, walked: seq<Path>): seq<Item> {
    if walked == [] then []
    else
      var p := walked[|walked| - 1];
      Collect(root, walked[..|walked| - 1]) + if Visible(p) then [Item(p, SizeAt(root, p))] else []
  }

  lemma {:induction false} CollectedFiles(root: ArtifactWalk.Node, walked: seq<Path>, x: Item)
    ensures x in Collect(root, walked) <==> x.path in walked && Visible(x.path) && x.size == SizeAt(root, x.path)
  {
    if walked != [] {
      var n := |walked| - 1;
      assert walked == walked[..n] + [walked[n]];
      CollectedFiles(root, walked[..n], x);
    }
  }

  /** The first loop of `_scan_artifacts`. */
  method CollectVisible(root: ArtifactWalk.Node, walked: seq<Path>) returns (collected: seq<Item>)
    ensures collected == Collect(root, walked)
  {
    collected := [];
    var i := 0;
    assert walked[..0] == [];
    while i < |walked|
      invariant 0 <= i <= |walked| && collected == Collect(root, walked[..i])
    {
      assert walked[..i + 1][..i] == walked[..i];
      if Visible(walked[i]) {
        collected := collected + [Item(walked[i], SizeAt(root, walked[i]))];
      }
      i := i + 1;
    }
    assert walked[..i] == walked;
  }

  /** The finished tree of a collection: exactly its directories, each sorted and with the totals of its
      subtree, and read back it gives exactly the collected files. */
  ghost predicate TreeOf(tree: Scan, collected: seq<Item>)
    reads tree, tree.index.Values
  {
    && tree.Valid() && DirsOf(tree.index.Keys, collected)
    && (forall l :: l in tree.index ==> Finished(tree.Cells()[l], tree.kids[l], collected, l))
    && multiset(Flatten(tree.Cells(), tree.kids, [], Longest(collected) + 1)) == multiset(collected)
  }

  method Plant(collected: seq<Item>) returns (tree: Scan)
    requires forall x :: x in collected ==> Relative(x)
    ensures fresh(tree) && TreeOf(tree, collected)
  {
    tree := new Scan();
    EmptyHolds(tree.Cells());
    tree.Fold(collected);
    FoldedIsComplete(tree.index, tree.Cells(), tree.kids, collected);
    FlatteningGivesBack(tree.index, tree.Cells(), tree.kids, collected, Longest(collected));
  }

  /** `_scan_artifacts`. */
  method ScanArtifacts(root: ArtifactWalk.Node) returns (tree: Scan, truncated: bool)
    requires ArtifactWalk.WellFormed(root)
    ensures fresh(tree)
    ensures truncated <==> ArtifactWalk.Truncated(root)
    ensures TreeOf(tree, Collect(root, ArtifactWalk.Limited(ArtifactWalk.Walk(root, []), Some(ArtifactWalk.MAX_FILES))))
    ensures !truncated ==> forall k, dir :: k in tree.index && LeadsInto(root, k, dir) ==>
              tree.Cells()[k].fileCount == Holdings(dir, Files) && tree.Cells()[k].totalSize == Holdings(dir, Bytes)
  {
    var walked := ArtifactWalk.IterArtifactFiles(root, Some(ArtifactWalk.MAX_FILES));
    var collected := CollectVisible(root, walked);
    WalkedFilesHaveNames(root, collected, walked);
    tree := Plant(collected);
    truncated := |walked| >= ArtifactWalk.MAX_FILES;
    if !truncated {
      forall k, dir | k in tree.index && LeadsInto(root, k, dir)
        ensures tree.Cells()[k].fileCount == Holdings(dir, Files) && tree.Cells()[k].totalSize == Holdings(dir, Bytes)
      {
        TotalsAreHoldings(root, k, dir);
        assert Finished(tree.Cells()[k], tree.kids[k], collected, k);
      }
    }
  }

  lemma FoldedIsComplete(index: map<Path, Dir>, cells: map<Path, Cell>, kids: map<Path, seq<string>>, collected: seq<Item>)
    requires Shape(index, cells, kids) && DirsOf(index.Keys, collected)
    requires forall l :: l in index ==> Finished(cells[l], kids[l], collected, l)
    ensures Complete(index, cells, kids, collected, Longest(collected))
  {
    forall l | l in index
      ensures |l| <= Longest(collected)
    {
      assert l in index.Keys;
      DirsAreShort(collected, l);
    }
  }

  lemma WalkedFilesHaveNames(root: ArtifactWalk.Node, collected: seq<Item>, walked: seq<Path>)
    requires ArtifactWalk.WellFormed(root) && collected == Collect(root, walked)
    requires walked <= ArtifactWalk.Walk(root, [])
    ensures forall x :: x in collected ==> Relative(x)
  {
    ArtifactWalk.WalkIsExact(root);
    forall x | x in collected
      ensures Relative(x)
    {
      CollectedFiles(root, walked, x);
      assert ArtifactWalk.Deliverable(root, x.path);
    }
  }

  lemma EmptyHolds(cells: map<Path, Cell>)
    requires cells == map[[] := Cell("", [], [], [], 0, 0)]
    ensures Holds(cells, [])
  {
  }

  // ---------- what the collection is of ----------

  lemma {:induction false} ListedIsDistinct(l: ArtifactWalk.Listing, name: string, child: ArtifactWalk.Node)
    requires ArtifactWalk.Distinct(l) && Lists(l, name, child)
    ensures ArtifactWalk.WellFormed(child)
  {
    match l
    case End =>
    case Entry(n, node, rest) =>
      if !(n == name && node == child) {
        ListedIsDistinct(rest, name, child);
      }
  }

  /** A path leads to a file of a size exactly if it is deliverable and that is its size. */
  lemma {:induction false} LeadsToFile(node: ArtifactWalk.Node, p: Path, size: nat)
    requires ArtifactWalk.WellFormed(node) && p != []
    ensures Leads(node, p, ArtifactWalk.File(size)) <==> ArtifactWalk.Deliverable(node, p) && SizeAt(node, p) == size
    decreases |p|
  {
    if node.Dir? && node.readable {
      var found := ArtifactWalk.Lookup(node.children, p[0]);
      forall child
        ensures Lists(node.children, p[0], child) <==> found.Some? && found.value == child
      {
        ListsLooksUp(node.children, p[0], child);
      }
      if found.Some? {
        assert Lists(node.children, p[0], found.value);
        ListedIsDistinct(node.children, p[0], found.value);
        EnteredLooksInto(p[0], found.value);
        if |p| > 1 {
          LeadsToFile(found.value, p[1..], size);
        } else {
          assert p[1..] == [];
        }
      }
    }
  }

  /** Without the truncation flag the scan lost nothing: a file is in the collection, hence in the tree,
      exactly if no part of its path is hidden and following the path through the directories ends at a file of
      that size. */
  lemma UntruncatedScanIsComplete(root: ArtifactWalk.Node, x: Item)
    requires ArtifactWalk.WellFormed(root) && !ArtifactWalk.Truncated(root)
    ensures x in Collect(root, ArtifactWalk.Limited(ArtifactWalk.Walk(root, []), Some(ArtifactWalk.MAX_FILES))) <==>
            && x.path != [] && Leads(root, x.path, ArtifactWalk.File(x.size))
            && forall i :: 0 <= i < |x.path| ==> !Hidden(x.path[i])
  {
    ArtifactWalk.TruncationExact(root);
    ArtifactWalk.WalkIsExact(root);
    CollectedFiles(root, ArtifactWalk.Walk(root, []), x);
    if x.path != [] {
      LeadsToFile(root, x.path, x.size);
    }
  }

  /** What is collected, truncated or not, is there. */
  lemma CollectedIsThere(root: ArtifactWalk.Node, x: Item)
    requires ArtifactWalk.WellFormed(root)
    requires x in Collect(root, ArtifactWalk.Limited(ArtifactWalk.Walk(root, []), Some(ArtifactWalk.MAX_FILES)))
    ensures x.path != [] && Leads(root, x.path, ArtifactWalk.File(x.size)) && forall i :: 0 <= i < |x.path| ==> !Hidden(x.path[i])
  {
    var walked := ArtifactWalk.Limited(ArtifactWalk.Walk(root, []), Some(ArtifactWalk.MAX_FILES));
    ArtifactWalk.TruncationExact(root);
    ArtifactWalk.WalkIsExact(root);
    CollectedFiles(root, walked, x);
    assert x.path in ArtifactWalk.Walk(root, []);
    LeadsToFile(root, x.path, x.size);
  }

  // ---------- the totals are those of the directories ----------

  function Share(root: ArtifactWalk.Node, p: Path, k: Path, m: Measure): nat {
    if Visible(p) && p != [] && k <= p[..|p| - 1] then Amount(m, SizeAt(root, p)) else 0
  }

  /** The visible files among `paths` below the directory `k`. */
  function Tallied(root: ArtifactWalk.Node, paths: seq<Path>, k: Path, m: Measure): nat {
    if paths == [] then 0 else Tallied(root, paths[..|paths| - 1], k, m) + Share(root, paths[|paths| - 1], k, m)
  }

  function Weighing(m: Measure): Weight {
    (x: Item) => Amount(m, x.size)
  }

  lemma CollectAppend(root: ArtifactWalk.Node, paths: seq<Path>, p: Path, k: Path, m: Measure)
    requires p != []
    ensures Below(Collect(root, paths + [p]), k, Weighing(m)) == Below(Collect(root, paths), k, Weighing(m)) + Share(root, p, k, m)
  {
    assert (paths + [p])[..|paths|] == paths;
    var before, x := Collect(root, paths), Item(p, SizeAt(root, p));
    if Visible(p) {
      assert Collect(root, paths + [p]) == before + [x];
      Appended(before, x, k, Weighing(m));
    } else {
      assert Collect(root, paths + [p]) == before + [] == before;
    }
  }

  lemma {:induction false} TalliedIsBelow(root: ArtifactWalk.Node, paths: seq<Path>, k: Path, m: Measure)
    requires forall i :: 0 <= i < |paths| ==> paths[i] != []
    ensures Tallied(root, paths, k, m) == Below(Collect(root, paths), k, Weighing(m))
  {
    if paths != [] {
      var front, p := paths[..|paths| - 1], paths[|paths| - 1];
      TalliedIsBelow(root, front, k, m);
      CollectAppend(root, front, p, k, m);
      assert paths == front + [p];
    }
  }

  lemma TalliedAppend(root: ArtifactWalk.Node, paths: seq<Path>, p: Path, k: Path, m: Measure)
    ensures Tallied(root, paths + [p], k, m) == Tallied(root, paths, k, m) + Share(root, p, k, m)
  {
    assert (paths + [p])[..|paths|] == paths;
  }

  lemma {:induction false} TalliedJoins(root: ArtifactWalk.Node, a: seq<Path>, b: seq<Path>, k: Path, m: Measure)
    ensures Tallied(root, a + b, k, m) == Tallied(root, a, k, m) + Tallied(root, b, k, m)
  {
    if b == [] {
      assert a + b == a;
    } else {
      var front, last := b[..|b| - 1], b[|b| - 1];
      TalliedJoins(root, a, front, k, m);
      assert a + b == (a + front) + [last] && b == front + [last];
      TalliedAppend(root, a + front, last, k, m);
      TalliedAppend(root, front, last, k, m);
    }
  }

  /** Files that are hidden or lie elsewhere do not count. */
  lemma {:induction false} NothingTallied(root: ArtifactWalk.Node, paths: seq<Path>, k: Path, m: Measure)
    requires forall i :: 0 <= i < |paths| ==> Share(root, paths[i], k, m) == 0
    ensures Tallied(root, paths, k, m) == 0
  {
    if paths != [] {
      NothingTallied(root, paths[..|paths| - 1], k, m);
      assert Share(root, paths[|paths| - 1], k, m) == 0;
    }
  }

  /** Below `at` the sizes are those of `node`. */
  ghost predicate SameSizes(root: ArtifactWalk.Node, at: Path, node: ArtifactWalk.Node) {
    forall q {:trigger SizeAt(node, q)} :: SizeAt(root, at + q) == SizeAt(node, q)
  }

  lemma ChildSizes(root: ArtifactWalk.Node, at: Path, node: ArtifactWalk.Node, name: string)
    requires SameSizes(root, at, node) && node.Dir? && ArtifactWalk.Lookup(node.children, name).Some?
    ensures SameSizes(root, at + [name], ArtifactWalk.Lookup(node.children, name).value)
  {
    var child := ArtifactWalk.Lookup(node.children, name).value;
    forall q
      ensures SizeAt(root, at + [name] + q) == SizeAt(child, q)
    {
      assert at + [name] + q == at + ([name] + q);
      assert ([name] + q)[1..] == q;
      assert SizeAt(node, [name] + q) == SizeAt(child, q);
    }
  }

  /** The entries of `l` are entries of the directory. */
  ghost predicate Within(l: ArtifactWalk.Listing, dir: ArtifactWalk.Node) {
    && dir.Dir? && ArtifactWalk.Distinct(l)
    && forall name :: ArtifactWalk.Lookup(l, name).Some? ==>
         ArtifactWalk.Lookup(dir.children, name) == ArtifactWalk.Lookup(l, name)
  }

  lemma RestWithin(l: ArtifactWalk.Listing, dir: ArtifactWalk.Node)
    requires l.Entry? && Within(l, dir)
    ensures Within(l.rest, dir) && ArtifactWalk.Lookup(dir.children, l.name) == Some(l.node)
    ensures ArtifactWalk.WellFormed(l.node)
  {
    assert ArtifactWalk.Lookup(l, l.name) == Some(l.node);
    forall name | ArtifactWalk.Lookup(l.rest, name).Some?
      ensures ArtifactWalk.Lookup(dir.children, name) == ArtifactWalk.Lookup(l.rest, name)
    {
      assert ArtifactWalk.Lookup(l, name) == ArtifactWalk.Lookup(l.rest, name);
    }
  }

  lemma VisibleChild(at: Path, name: string)
    requires Visible(at)
    ensures Visible(at + [name]) <==> !Hidden(name)
  {
    if !Hidden(name) {
      forall i | 0 <= i < |at + [name]|
        ensures (at + [name])[i] == "" || (at + [name])[i][0] != '.'
      {
        assert i < |at| ==> (at + [name])[i] == at[i];
      }
    } else {
      assert (at + [name])[|at|] == name;
    }
  }

  lemma FileShare(root: ArtifactWalk.Node, at: Path, k: Path, dir: ArtifactWalk.Node, name: string, file: ArtifactWalk.Node, m: Measure)
    requires dir.Dir? && ArtifactWalk.Lookup(dir.children, name) == Some(file) && file.File?
    requires SameSizes(root, at, dir) && Visible(at)
    ensures Share(root, at + [name], k, m) == if k <= at then EntryHoldings(name, file, m) else 0
  {
    var p := at + [name];
    VisibleChild(at, name);
    ChildSizes(root, at, dir, name);
    assert SizeAt(root, p + []) == SizeAt(file, []);
    assert p + [] == p && p[..|p| - 1] == at;
  }

  lemma {:induction false} FilesTallied(root: ArtifactWalk.Node, l: ArtifactWalk.Listing, at: Path, k: Path, dir: ArtifactWalk.Node, m: Measure)
    requires Within(l, dir) && SameSizes(root, at, dir) && Visible(at)
    ensures Tallied(root, ArtifactWalk.FilesIn(l, at), k, m) == if k <= at then FileHoldings(l, m) else 0
  {
    if l.Entry? {
      RestWithin(l, dir);
      FilesTallied(root, l.rest, at, k, dir, m);
      var rest := ArtifactWalk.FilesIn(l.rest, at);
      if l.node.File? {
        FileShare(root, at, k, dir, l.name, l.node, m);
        FirstTallied(root, at + [l.name], rest, k, m);
      } else {
        assert ArtifactWalk.FilesIn(l, at) == rest;
      }
    }
  }

  lemma FirstTallied(root: ArtifactWalk.Node, p: Path, rest: seq<Path>, k: Path, m: Measure)
    ensures Tallied(root, [p] + rest, k, m) == Share(root, p, k, m) + Tallied(root, rest, k, m)
  {
    TalliedJoins(root, [p], rest, k, m);
    TalliedAppend(root, [], p, k, m);
    assert [] + [p] == [p];
  }

  /** A whole directory, however it is walked. */
  lemma {:induction false} WalkTallied(root: ArtifactWalk.Node, node: ArtifactWalk.Node, at: Path, k: Path, m: Measure)
    requires ArtifactWalk.WellFormed(node) && SameSizes(root, at, node) && Visible(at) && k <= at
    ensures Tallied(root, ArtifactWalk.Walk(node, at), k, m) == Holdings(node, m)
    decreases node, 1
  {
    if node.Dir? && node.readable {
      FilesTallied(root, node.children, at, k, node, m);
      DirsTallied(root, node.children, at, k, node, m);
      HoldingsSplit(node.children, m);
      TalliedJoins(root, ArtifactWalk.FilesIn(node.children, at), ArtifactWalk.WalkDirs(node.children, at), k, m);
    }
  }

  lemma {:induction false} DirsTallied(root: ArtifactWalk.Node, l: ArtifactWalk.Listing, at: Path, k: Path, dir: ArtifactWalk.Node, m: Measure)
    requires Within(l, dir) && SameSizes(root, at, dir) && Visible(at) && k <= at
    ensures Tallied(root, ArtifactWalk.WalkDirs(l, at), k, m) == DirHoldings(l, m)
    decreases l, 0
  {
    if l.Entry? {
      RestWithin(l, dir);
      DirsTallied(root, l.rest, at, k, dir, m);
      EnteredLooksInto(l.name, l.node);
      var rest := ArtifactWalk.WalkDirs(l.rest, at);
      if ArtifactWalk.Entered(l.name, l.node) {
        ChildSizes(root, at, dir, l.name);
        VisibleChild(at, l.name);
        if Hidden(l.name) {
          HiddenTallied(root, l.node, at + [l.name], k, m);
        } else {
          WalkTallied(root, l.node, at + [l.name], k, m);
        }
        TalliedJoins(root, rest, ArtifactWalk.Walk(l.node, at + [l.name]), k, m);
      } else {
        assert ArtifactWalk.WalkDirs(l, at) == rest;
      }
    }
  }

  lemma HiddenTallied(root: ArtifactWalk.Node, node: ArtifactWalk.Node, at: Path, k: Path, m: Measure)
    requires ArtifactWalk.WellFormed(node) && !Visible(at)
    ensures Tallied(root, ArtifactWalk.Walk(node, at), k, m) == 0
  {
    var paths := ArtifactWalk.Walk(node, at);
    forall i | 0 <= i < |paths|
      ensures Share(root, paths[i], k, m) == 0
    {
      ArtifactWalk.WalkFound(node, at, paths[i]);
      var j :| 0 <= j < |at| && at[j] != "" && at[j][0] == '.';
      assert paths[i][j] == at[j];
    }
    NothingTallied(root, paths, k, m);
  }

  // ---------- a directory inside the workspace ----------

  lemma ElsewhereTallied(root: ArtifactWalk.Node, node: ArtifactWalk.Node, at: Path, k: Path, m: Measure)
    requires ArtifactWalk.WellFormed(node) && !(at <= k) && !(k <= at)
    ensures Tallied(root, ArtifactWalk.Walk(node, at), k, m) == 0
  {
    var paths := ArtifactWalk.Walk(node, at);
    forall i | 0 <= i < |paths|
      ensures Share(root, paths[i], k, m) == 0
    {
      var p := paths[i];
      ArtifactWalk.WalkFound(node, at, p);
      if p != [] && k <= p[..|p| - 1] {
        BothBegin(at, k, p);
      }
    }
    NothingTallied(root, paths, k, m);
  }

  lemma BothBegin(a: Path, b: Path, p: Path)
    requires a <= p && b <= p
    ensures a <= b || b <= a
  {
    if |a| <= |b| {
      assert b[..|a|] == p[..|a|] == a;
    } else {
      assert a[..|b|] == p[..|b|] == b;
    }
  }

  /** The directory a path leads to, if nothing on the way is hidden. */
  ghost predicate LeadsInto(node: ArtifactWalk.Node, p: Path, dir: ArtifactWalk.Node)
    decreases |p|
  {
    if p == [] then node == dir
    else
      && node.Dir? && node.readable && !Hidden(p[0])
      && exists child :: Lists(node.children, p[0], child) && LookedInto(p[0], child) && LeadsInto(child, p[1..], dir)
  }

  lemma {:induction false} InsideTallied(root: ArtifactWalk.Node, node: ArtifactWalk.Node, at: Path, k: Path, dir: ArtifactWalk.Node, m: Measure)
    requires ArtifactWalk.WellFormed(node) && SameSizes(root, at, node) && Visible(at)
    requires at <= k && LeadsInto(node, k[|at|..], dir)
    ensures Tallied(root, ArtifactWalk.Walk(node, at), k, m) == Holdings(dir, m)
    decreases node, 1
  {
    if |k| == |at| {
      WalkTallied(root, node, at, k, m);
    } else {
      FilesTallied(root, node.children, at, k, node, m);
      InsideDirs(root, node.children, at, k, node, dir, m);
      TalliedJoins(root, ArtifactWalk.FilesIn(node.children, at), ArtifactWalk.WalkDirs(node.children, at), k, m);
      var name := k[|at|];
      var child :| Lists(node.children, name, child) && LookedInto(name, child) && LeadsInto(child, k[|at|..][1..], dir);
      ListsLooksUp(node.children, name, child);
    }
  }

  lemma {:induction false} InsideDirs(root: ArtifactWalk.Node, l: ArtifactWalk.Listing, at: Path, k: Path, node: ArtifactWalk.Node,
                                      dir: ArtifactWalk.Node, m: Measure)
    requires Within(l, node) && SameSizes(root, at, node) && Visible(at)
    requires at < k && LeadsInto(node, k[|at|..], dir) && ArtifactWalk.WellFormed(node)
    ensures Tallied(root, ArtifactWalk.WalkDirs(l, at), k, m) == if ArtifactWalk.Lookup(l, k[|at|]).Some? then Holdings(dir, m) else 0
    decreases l, 0
  {
    if l.Entry? {
      RestWithin(l, node);
      InsideDirs(root, l.rest, at, k, node, dir, m);
      EnteredLooksInto(l.name, l.node);
      var below, rest := at + [l.name], ArtifactWalk.WalkDirs(l.rest, at);
      if l.name == k[|at|] {
        NextInside(node, k[|at|..], dir, l.node);
        ChildSizes(root, at, node, l.name);
        VisibleChild(at, l.name);
        assert k[|at|..][1..] == k[|below|..];
        InsideTallied(root, l.node, below, k, dir, m);
      } else if ArtifactWalk.Entered(l.name, l.node) {
        assert below[|at|] != k[|at|];
        ElsewhereTallied(root, l.node, below, k, m);
      }
      if ArtifactWalk.Entered(l.name, l.node) {
        TalliedJoins(root, rest, ArtifactWalk.Walk(l.node, below), k, m);
      } else {
        assert ArtifactWalk.WalkDirs(l, at) == rest;
      }
    }
  }

  lemma NextInside(node: ArtifactWalk.Node, p: Path, dir: ArtifactWalk.Node, child: ArtifactWalk.Node)
    requires p != [] && LeadsInto(node, p, dir) && node.Dir? && ArtifactWalk.Distinct(node.children)
    requires ArtifactWalk.Lookup(node.children, p[0]) == Some(child)
    ensures !Hidden(p[0]) && LookedInto(p[0], child) && LeadsInto(child, p[1..], dir)
  {
    var other :| Lists(node.children, p[0], other) && LookedInto(p[0], other) && LeadsInto(other, p[1..], dir);
    ListsLooksUp(node.children, p[0], other);
  }

  /** The totals of a directory in the tree of an untruncated scan are what lies in the directory of the workspace
      that its path leads to: the number of files and their bytes. */
  lemma TotalsAreHoldings(root: ArtifactWalk.Node, k: Path, dir: ArtifactWalk.Node)
    requires ArtifactWalk.WellFormed(root) && !ArtifactWalk.Truncated(root) && LeadsInto(root, k, dir)
    ensures var collected := Collect(root, ArtifactWalk.Limited(ArtifactWalk.Walk(root, []), Some(ArtifactWalk.MAX_FILES)));
            && Below(collected, k, Each()) == Holdings(dir, Files)
            && Below(collected, k, Size()) == Holdings(dir, Bytes)
  {
    var walked := ArtifactWalk.Walk(root, []);
    ArtifactWalk.TruncationExact(root);
    ArtifactWalk.WalkIsExact(root);
    forall i | 0 <= i < |walked|
      ensures walked[i] != []
    {
      assert walked[i] in walked;
    }
    assert SameSizes(root, [], root) by {
      forall q
        ensures SizeAt(root, [] + q) == SizeAt(root, q)
      {
        assert [] + q == q;
      }
    }
    assert k[0..] == k;
    InsideTallied(root, root, [], k, dir, Files);
    InsideTallied(root, root, [], k, dir, Bytes);
    TalliedIsBelow(root, walked, k, Files);
    TalliedIsBelow(root, walked, k, Bytes);
    SameBelow(Collect(root, walked), k, Weighing(Files), Each());
    SameBelow(Collect(root, walked), k, Weighing(Bytes), Size());
  }

  lemma {:induction false} SameBelow(collected: seq<Item>, k: Path, v: Weight, w: Weight)
    requires forall x :: v(x) == w(x)
    ensures Below(collected, k, v) == Below(collected, k, w)
  {
    if collected != [] {
      SameBelow(collected[..|collected| - 1], k, v, w);
    }
  }

  lemma {:induction false} WayLeads(node: ArtifactWalk.Node, p: Path, end: ArtifactWalk.Node, k: Path)
    requires p != [] && Leads(node, p, end) && (forall i :: 0 <= i < |p| ==> !Hidden(p[i])) && k <= p[..|p| - 1]
    ensures exists dir :: LeadsInto(node, k, dir)
    decreases |p|
  {
    if k == [] {
      assert LeadsInto(node, [], node);
    } else {
      assert k[0] == p[0] && |p| > 1;
      var child :| Lists(node.children, p[0], child) && LookedInto(p[0], child) && Leads(child, p[1..], end);
      assert k[1..] <= p[1..][..|p[1..]| - 1];
      assert forall i :: 0 <= i < |p[1..]| ==> p[1..][i] == p[i + 1];
      WayLeads(child, p[1..], end, k[1..]);
      var dir :| LeadsInto(child, k[1..], dir);
      assert LeadsInto(node, k, dir);
    }
  }

  /** Every directory of the tree is a directory of the workspace. */
  lemma DirectoriesAreThere(root: ArtifactWalk.Node, k: Path)
    requires ArtifactWalk.WellFormed(root)
    requires IsDir(Collect(root, ArtifactWalk.Limited(ArtifactWalk.Walk(root, []), Some(ArtifactWalk.MAX_FILES))), k)
    ensures exists dir :: LeadsInto(root, k, dir)
  {
    if k == [] {
      assert LeadsInto(root, [], root);
    } else {
      var x :| x in Collect(root, ArtifactWalk.Limited(ArtifactWalk.Walk(root, []), Some(ArtifactWalk.MAX_FILES))) && k <= Parent(x);
      CollectedIsThere(root, x);
      WayLeads(root, x.path, ArtifactWalk.File(x.size), k);
    }
  }
}

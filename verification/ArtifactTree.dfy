/** The directory tree the artifact scan returns: nodes found through an index, totals rolled up in
    place. */
module ArtifactTree {
  import opened ArtifactTotals
  import opened Sorting

  /** A directory node. */
  class Dir {
    var name: string
    var path: Path
    var dirs: seq<Dir>
    var files: seq<Item>
    var fileCount: nat
    var totalSize: nat

    /** `_new_dir`. */
    constructor (name: string, path: Path)
      ensures Snap() == Cell(name, path, [], [], 0, 0)
    {
      this.name, this.path, dirs, files, fileCount, totalSize := name, path, [], [], 0, 0;
    }

    ghost function Snap(): Cell
      reads this
    {
      Cell(name, path, dirs, files, fileCount, totalSize)
    }
  }

  /** The fields of a node at one moment. */
  datatype Cell = Cell(name: string, path: Path, dirs: seq<Dir>, files: seq<Item>, fileCount: nat, totalSize: nat)

  function NameOfPath(k: Path): string {
    if k == [] then "" else k[|k| - 1]
  }

  /** One node per directory path, each listed exactly once, below its parent; `kids` are the names. */
  predicate Shape(index: map<Path, Dir>, cells: map<Path, Cell>, kids: map<Path, seq<string>>) {
    && [] in index && cells.Keys == index.Keys && kids.Keys == index.Keys
    && NodesOk(index, cells, kids) && AllHang(index, kids)
  }

  predicate NodesOk(index: map<Path, Dir>, cells: map<Path, Cell>, kids: map<Path, seq<string>>) {
    forall k {:trigger NodeOk(index, cells, kids, k)} :: k in index ==> NodeOk(index, cells, kids, k)
  }

  predicate AllHang(index: map<Path, Dir>, kids: map<Path, seq<string>>) {
    forall k {:trigger HangsOn(index, kids, k)} :: k in index ==> HangsOn(index, kids, k)
  }

  predicate NodeOk(index: map<Path, Dir>, cells: map<Path, Cell>, kids: map<Path, seq<string>>, k: Path) {
    && k in cells && k in kids
    && cells[k].path == k && cells[k].name == NameOfPath(k)
    && Distinct(kids[k]) && |cells[k].dirs| == |kids[k]|
    && forall i {:trigger kids[k][i]} :: 0 <= i < |kids[k]| ==> k + [kids[k][i]] in index && cells[k].dirs[i] == index[k + [kids[k][i]]]
  }

  predicate HangsOn(index: map<Path, Dir>, kids: map<Path, seq<string>>, k: Path) {
    k != [] ==> k[..|k| - 1] in index && k[..|k| - 1] in kids && k[|k| - 1] in kids[k[..|k| - 1]]
  }

  class Scan {
    /** `index`, with the path for the joined key. */
    var index: map<Path, Dir>
    ghost var kids: map<Path, seq<string>>

    ghost function Cells(): map<Path, Cell>
      reads this, index.Values
    {
      map k | k in index :: index[k].Snap()
    }

    ghost predicate Valid()
      reads this, index.Values
    {
      Shape(index, Cells(), kids)
    }

    constructor ()
      ensures Valid() && index.Keys == {[]} && fresh(index.Values)
      ensures Cells() == map[[] := Cell("", [], [], [], 0, 0)]
    {
      var root := new Dir("", []);
      index := map[[] := root];
      kids := map[[] := []];
    }

    /** Every node carries its own path, so different keys have different nodes. */
    lemma PathsAreKeys()
      requires Valid()
      ensures forall k :: k in index ==> index[k].path == k
    {
      forall k | k in index
        ensures index[k].path == k
      {
        assert NodeOk(index, Cells(), kids, k);
      }
    }

    /** `_new_dir`, index entry and link from the parent. */
    method Attach(k: Path, name: string)
      requires k in index && k in kids && k + [name] !in index && forall l :: l in index ==> index[l].path == l
      modifies this, index[k]
      ensures Attaches(old(index), old(Cells()), old(kids), index, Cells(), kids, k, name)
      ensures fresh(index[k + [name]])
    {
      ghost var before := Cells();
      var child := new Dir(name, k + [name]);
      Append(k, child);
      assert k + [name] != k;
      index := index[k + [name] := child];
      kids := kids[k := kids[k] + [name]][k + [name] := []];
      assert Cells() == before[k := before[k].(dirs := before[k].dirs + [child])][k + [name] := Cell(name, k + [name], [], [], 0, 0)];
    }

    /** `node["dirs"].append(child)`. */
    method Append(k: Path, child: Dir)
      requires k in index && child !in index.Values && forall l :: l in index ==> index[l].path == l
      modifies index[k]
      ensures Cells() == old(Cells())[k := old(Cells())[k].(dirs := old(Cells())[k].dirs + [child])]
    {
      ghost var before := Cells();
      var node := index[k];
      node.dirs := node.dirs + [child];
      forall l | l in index && l != k
        ensures index[l].Snap() == before[l]
      {
        assert index[l] != node;
      }
    }

    /** The child `name` of the node at `k`, made and indexed if it is new. */
    method Child(k: Path, name: string)
      requires Valid() && k in index
      modifies this, index[k]
      ensures Valid() && Kept(old(index), index) && Widened(old(Cells()), Cells(), k + [name])
      ensures forall l :: l in index && l !in old(index) ==> fresh(index[l])
    {
      if k + [name] !in index {
        PathsAreKeys();
        ghost var index0, cells0, kids0 := index, Cells(), kids;
        Attach(k, name);
        Attached(index0, cells0, kids0, index, Cells(), kids, k, name);
      }
    }

    /** Makes the node of `parts`, walking down from the root. */
    method Open(parts: Path)
      requires Valid()
      modifies this, index.Values
      ensures Valid() && Kept(old(index), index) && Opened(old(Cells()), Cells(), parts)
      ensures forall l :: l in index && l !in old(index) ==> fresh(index[l])
    {
      ghost var before := Cells();
      var i := 0;
      assert parts[..0] == [];
      while i < |parts|
        invariant 0 <= i <= |parts| && Valid() && Kept(old(index), index) && parts[..i] in index
        invariant forall l :: l in index && l !in old(index) ==> fresh(index[l])
        invariant Opened(before, Cells(), parts[..i])
      {
        assert parts[..i] + [parts[i]] == parts[..i + 1];
        ghost var middle := Cells();
        Child(parts[..i], parts[i]);
        OpenedFurther(before, middle, Cells(), parts, i);
        i := i + 1;
      }
      assert parts[..i] == parts;
    }

    /** One file of the collection: walk down its parents, then file it. */
    method Add(x: Item)
      requires Valid() && Relative(x)
      modifies this, index.Values
      ensures Valid() && Kept(old(index), index)
      ensures forall l :: l in index && l !in old(index) ==> fresh(index[l])
      ensures Filed(old(Cells()), Cells(), x)
    {
      Open(Parent(x));
      assert Parent(x) in Cells();
      PathsAreKeys();
      FileIt(Parent(x), x);
    }

    method FileIt(k: Path, x: Item)
      requires Valid() && k in index && forall l :: l in index ==> index[l].path == l
      modifies index[k]
      ensures Cells() == old(Cells())[k := old(Cells())[k].(files := old(Cells())[k].files + [x])]
      ensures Valid()
    {
      ghost var before := Cells();
      var node := index[k];
      node.files := node.files + [x];
      forall l | l in index && l != k
        ensures index[l].Snap() == before[l]
      {
        assert index[l] != node;
      }
      assert Cells() == before[k := before[k].(files := before[k].files + [x])];
      SameShape(index, before, Cells(), kids);
    }

    method AddNext(collected: seq<Item>, n: nat)
      requires n < |collected| && Relative(collected[n]) && Valid() && Holds(Cells(), collected[..n])
      modifies this, index.Values
      ensures Valid() && Holds(Cells(), collected[..n + 1]) && fresh(index.Values - old(index.Values))
    {
      ghost var middle := Cells();
      Add(collected[n]);
      FiledNext(middle, Cells(), collected, n);
    }

    /** Files the whole collection into an empty tree. */
    method Build(collected: seq<Item>)
      requires Valid() && Holds(Cells(), []) && forall x :: x in collected ==> Relative(x)
      modifies this, index.Values
      ensures Valid() && Holds(Cells(), collected) && fresh(index.Values - old(index.Values))
    {
      var n := 0;
      assert collected[..0] == [];
      while n < |collected|
        invariant 0 <= n <= |collected| && Valid() && fresh(index.Values - old(index.Values))
        invariant Holds(Cells(), collected[..n])
      {
        AddNext(collected, n);
        n := n + 1;
      }
      assert collected[..n] == collected;
    }

    /** The children of a node with their names. */
    method NamedDirs(k: Path) returns (pairs: seq<(string, Dir)>)
      requires Valid() && k in index
      ensures k in kids && |kids[k]| == |index[k].dirs| && pairs == Pairs(kids[k], index[k].dirs)
    {
      var node := index[k];
      pairs := [];
      var i := 0;
      assert NodeOk(index, Cells(), kids, k);
      while i < |node.dirs|
        invariant 0 <= i <= |node.dirs| == |kids[k]|
        invariant pairs == Pairs(kids[k][..i], node.dirs[..i])
      {
        assert k + [kids[k][i]] in index && node.dirs[i] == index[k + [kids[k][i]]];
        assert NodeOk(index, Cells(), kids, k + [kids[k][i]]);
        pairs := pairs + [(node.dirs[i].name, node.dirs[i])];
        i := i + 1;
      }
      assert kids[k][..i] == kids[k] && node.dirs[..i] == node.dirs;
    }

    /** The last lines of `_finalize`: sort the children of one node and store its totals. */
    method Settle(k: Path, count: nat, size: nat)
      requires Valid() && k in index
      modifies this`kids, index[k]
      ensures Valid() && index == old(index)
      ensures Settled(old(Cells()), old(kids), Cells(), kids, k, count, size)
    {
      var pairs := NamedDirs(k);
      var sorted, files := SortByName(pairs, NameOfPair), SortByName(index[k].files, NameOf);
      SortSorts(pairs, NameOfPair);
      SortSorts(index[k].files, NameOf);
      Rearrange(k, sorted, files, count, size);
    }

    method Rearrange(k: Path, sorted: seq<(string, Dir)>, files: seq<Item>, count: nat, size: nat)
      requires Valid() && k in index && k in kids && |kids[k]| == |index[k].dirs|
      requires multiset(sorted) == multiset(Pairs(kids[k], index[k].dirs))
      modifies this`kids, index[k]
      ensures Valid() && index == old(index)
      ensures Cells() == old(Cells())[k := Cell(old(Cells())[k].name, old(Cells())[k].path, Dirs(sorted), files, count, size)]
      ensures kids == old(kids)[k := Names(sorted, NameOfPair)]
    {
      PathsAreKeys();
      ghost var before, names := Cells(), kids;
      StoreNode(k, Dirs(sorted), files, count, size);
      kids := kids[k := Names(sorted, NameOfPair)];
      Resorted(index, before, names, Cells(), kids, k, sorted);
    }

    /** `_finalize`: the totals of the subtree at `k`, stored in every node of it. */
    method Finalize(k: Path, ghost collected: seq<Item>, ghost bound: nat) returns (count: nat, size: nat)
      requires Valid() && k in index && (forall l :: l in index ==> |l| <= bound)
      requires DirsOf(index.Keys, collected) && Filled(Cells(), collected, k)
      modifies this`kids, index.Values
      ensures Valid() && index == old(index)
      ensures RolledUp(old(Cells()), old(kids), Cells(), kids, collected, k)
      ensures count == Below(collected, k, Each()) && size == Below(collected, k, Size())
      decreases bound - |k|, 1
    {
      ghost var cells0, kids0 := Cells(), kids;
      SameDirs(k, cells0, kids0);
      StartTotals(collected, k, kids0[k], index[k].files);
      count, size := |index[k].files|, Weigh(index[k].files, Size());
      var i, n := 0, |index[k].dirs|;
      while i < n
        invariant Valid() && index == old(index) && 0 <= i <= n == |kids0[k]|
        invariant Rolled(cells0, kids0, Cells(), kids, collected, k, kids0[k][..i])
        invariant Totals(collected, k, kids0[k], i, count, size)
      {
        var childCount, childSize := FinalizeChild(k, i, cells0, kids0, collected, bound);
        NextTotals(collected, k, kids0[k], i, count, size);
        count, size := count + childCount, size + childSize;
        i := i + 1;
      }
      assert kids0[k][..n] == kids0[k];
      FinishNode(k, count, size, cells0, kids0, collected);
    }

    /** The node keeps its children while they are being finalized. */
    lemma SameDirs(k: Path, cells0: map<Path, Cell>, kids0: map<Path, seq<string>>)
      requires Valid() && k in index && k in cells0 && k in kids0 && Cells()[k] == cells0[k] && kids[k] == kids0[k]
      ensures |index[k].dirs| == |kids0[k]| && Distinct(kids0[k]) && index[k].files == cells0[k].files
      ensures forall i :: 0 <= i < |kids0[k]| ==> k + [kids0[k][i]] in index && index[k].dirs[i].path == k + [kids0[k][i]]
    {
      assert NodeOk(index, Cells(), kids, k);
      forall i | 0 <= i < |kids0[k]|
        ensures k + [kids0[k][i]] in index && index[k].dirs[i].path == k + [kids0[k][i]]
      {
        assert k + [kids[k][i]] in index;
        assert NodeOk(index, Cells(), kids, k + [kids[k][i]]);
      }
    }

    /** The tree of a whole collection. */
    method Fold(collected: seq<Item>)
      requires Valid() && Holds(Cells(), []) && forall x :: x in collected ==> Relative(x)
      modifies this, index.Values
      ensures Valid() && DirsOf(index.Keys, collected)
      ensures forall l :: l in index ==> Finished(Cells()[l], kids[l], collected, l)
    {
      Build(collected);
      ghost var bound := Longest(collected);
      forall l | l in index
        ensures |l| <= bound
      {
        assert l in Cells() && IsDir(collected, l);
        DirsAreShort(collected, l);
      }
      assert forall l :: l in index <==> l in Cells();
      ghost var cells0, kids0 := Cells(), kids;
      var count, size := Finalize([], collected, bound);
      forall l | l in index
        ensures Finished(Cells()[l], kids[l], collected, l)
      {
        assert [] <= l && l in Cells();
      }
    }

    /** One turn of the loop over the children. */
    method FinalizeChild(k: Path, i: nat, ghost cells0: map<Path, Cell>, ghost kids0: map<Path, seq<string>>,
                         ghost collected: seq<Item>, ghost bound: nat) returns (count: nat, size: nat)
      requires Valid() && k in index && (forall l :: l in index ==> |l| <= bound) && DirsOf(index.Keys, collected)
      requires k in cells0 && k in kids0 && Filled(cells0, collected, k) && i < |kids0[k]|
      requires Rolled(cells0, kids0, Cells(), kids, collected, k, kids0[k][..i])
      modifies this`kids, index.Values
      ensures Valid() && index == old(index)
      ensures Rolled(cells0, kids0, Cells(), kids, collected, k, kids0[k][..i + 1])
      ensures count == Below(collected, k + [kids0[k][i]], Each()) && size == Below(collected, k + [kids0[k][i]], Size())
      decreases bound - |k|, 0
    {
      ghost var cells1, kids1 := Cells(), kids;
      assert cells1[k] == cells0[k];
      SameDirs(k, cells0, kids0);
      StillFilled(cells0, kids0, cells1, kids1, collected, k, kids0[k], i);
      var child := index[k].dirs[i];
      count, size := Finalize(child.path, collected, bound);
      RolledNext(cells0, kids0, cells1, kids1, Cells(), kids, collected, k, kids0[k], i);
    }

    /** All children done: the node itself. */
    method FinishNode(k: Path, count: nat, size: nat, ghost cells0: map<Path, Cell>, ghost kids0: map<Path, seq<string>>, ghost collected: seq<Item>)
      requires Valid() && k in index && DirsOf(index.Keys, collected)
      requires k in cells0 && k in kids0 && Filled(cells0, collected, k)
      requires Rolled(cells0, kids0, Cells(), kids, collected, k, kids0[k])
      requires Totals(collected, k, kids0[k], |kids0[k]|, count, size)
      modifies this`kids, index[k]
      ensures Valid() && index == old(index)
      ensures RolledUp(cells0, kids0, Cells(), kids, collected, k)
      ensures count == Below(collected, k, Each()) && size == Below(collected, k, Size())
    {
      ghost var cells1, kids1 := Cells(), kids;
      assert cells1[k] == cells0[k];
      NamesCover(index, cells1, kids1, collected, k);
      WholeTotals(collected, k, kids0[k], count, size);
      Settle(k, count, size);
      RolledWhole(cells0, kids0, cells1, kids1, Cells(), kids, collected, k, kids0[k], count, size);
    }

    method StoreNode(k: Path, dirs: seq<Dir>, files: seq<Item>, count: nat, size: nat)
      requires k in index && forall l :: l in index ==> index[l].path == l
      modifies index[k]
      ensures Cells() == old(Cells())[k := Cell(old(Cells())[k].name, old(Cells())[k].path, dirs, files, count, size)]
    {
      ghost var before := Cells();
      var node := index[k];
      node.dirs := dirs;
      node.files := files;
      node.fileCount := count;
      node.totalSize := size;
      forall l | l in index && l != k
        ensures index[l].Snap() == before[l]
      {
        assert index[l] != node;
      }
    }
  }

  /** The running totals of `_finalize` after `n` children. */
  predicate Totals(collected: seq<Item>, k: Path, names: seq<string>, n: nat, count: nat, size: nat) {
    && n <= |names|
    && count == Weigh(FilesAt(collected, k), Each()) + BelowAll(collected, k, names[..n], Each())
    && size == Weigh(FilesAt(collected, k), Size()) + BelowAll(collected, k, names[..n], Size())
  }

  lemma StartTotals(collected: seq<Item>, k: Path, names: seq<string>, files: seq<Item>)
    requires files == FilesAt(collected, k)
    ensures Totals(collected, k, names, 0, |files|, Weigh(files, Size()))
  {
    WeighEach(files);
  }

  lemma NextTotals(collected: seq<Item>, k: Path, names: seq<string>, n: nat, count: nat, size: nat)
    requires n < |names| && Totals(collected, k, names, n, count, size)
    ensures Totals(collected, k, names, n + 1, count + Below(collected, k + [names[n]], Each()), size + Below(collected, k + [names[n]], Size()))
  {
    assert names[..n + 1][..n] == names[..n];
  }

  lemma WholeTotals(collected: seq<Item>, k: Path, names: seq<string>, count: nat, size: nat)
    requires Totals(collected, k, names, |names|, count, size) && Distinct(names)
    requires forall x :: x in collected && k < Parent(x) ==> Parent(x)[|k|] in names
    ensures count == Below(collected, k, Each()) && size == Below(collected, k, Size())
  {
    assert names[..|names|] == names;
    BelowSplits(collected, k, names, Each());
    BelowSplits(collected, k, names, Size());
  }

  ghost predicate DirsOf(keys: set<Path>, collected: seq<Item>) {
    forall l {:trigger l in keys} {:trigger IsDir(collected, l)} :: l in keys <==> IsDir(collected, l)
  }

  /** The nodes from `k` down hold their own files, not sorted yet. */
  predicate Filled(cells: map<Path, Cell>, collected: seq<Item>, k: Path) {
    forall l :: l in cells && k <= l ==> cells[l].files == FilesAt(collected, l)
  }

  /** A node as the scan returns it. */
  predicate Finished(cell: Cell, names: seq<string>, collected: seq<Item>, l: Path) {
    && multiset(cell.files) == multiset(FilesAt(collected, l))
    && Sorted(Names(cell.files, NameOf)) && Sorted(names)
    && cell.fileCount == Below(collected, l, Each()) && cell.totalSize == Below(collected, l, Size())
  }

  /** Finished below the children `names` of `k`, untouched elsewhere. */
  predicate Rolled(cells0: map<Path, Cell>, kids0: map<Path, seq<string>>, cells: map<Path, Cell>, kids: map<Path, seq<string>>,
                   collected: seq<Item>, k: Path, names: seq<string>) {
    && cells.Keys == cells0.Keys == kids.Keys == kids0.Keys
    && forall l {:trigger cells[l]} :: l in cells ==>
         if k < l && l[|k|] in names then Finished(cells[l], kids[l], collected, l)
         else cells[l] == cells0[l] && kids[l] == kids0[l]
  }

  /** Finished from `k` down, untouched elsewhere. */
  predicate RolledUp(cells0: map<Path, Cell>, kids0: map<Path, seq<string>>, cells: map<Path, Cell>, kids: map<Path, seq<string>>,
                     collected: seq<Item>, k: Path) {
    && cells.Keys == cells0.Keys == kids.Keys == kids0.Keys
    && forall l {:trigger cells[l]} :: l in cells ==>
         if k <= l then Finished(cells[l], kids[l], collected, l)
         else cells[l] == cells0[l] && kids[l] == kids0[l]
  }

  lemma StillFilled(cells0: map<Path, Cell>, kids0: map<Path, seq<string>>, cells: map<Path, Cell>, kids: map<Path, seq<string>>,
                    collected: seq<Item>, k: Path, names: seq<string>, i: nat)
    requires i < |names| && Distinct(names) && Filled(cells0, collected, k)
    requires Rolled(cells0, kids0, cells, kids, collected, k, names[..i])
    ensures Filled(cells, collected, k + [names[i]])
  {
    forall l | l in cells && k + [names[i]] <= l
      ensures cells[l].files == FilesAt(collected, l)
    {
      Enters(l, k, names[i]);
      assert names[i] !in names[..i];
    }
  }

  lemma RolledNext(cells0: map<Path, Cell>, kids0: map<Path, seq<string>>, cells1: map<Path, Cell>, kids1: map<Path, seq<string>>,
                   cells: map<Path, Cell>, kids: map<Path, seq<string>>, collected: seq<Item>, k: Path, names: seq<string>, i: nat)
    requires i < |names| && Rolled(cells0, kids0, cells1, kids1, collected, k, names[..i])
    requires RolledUp(cells1, kids1, cells, kids, collected, k + [names[i]])
    ensures Rolled(cells0, kids0, cells, kids, collected, k, names[..i + 1])
    ensures k in cells ==> cells[k] == cells0[k] && kids[k] == kids0[k]
  {
    assert names[..i + 1] == names[..i] + [names[i]];
    forall l | l in cells
      ensures if k < l && l[|k|] in names[..i + 1] then Finished(cells[l], kids[l], collected, l)
              else cells[l] == cells0[l] && kids[l] == kids0[l]
    {
      Enters(l, k, names[i]);
      assert l in cells1 && cells1[l] == cells1[l];
    }
  }

  /** The children of a node are all directories below it, and the files below it lie in them. */
  lemma NamesCover(index: map<Path, Dir>, cells: map<Path, Cell>, kids: map<Path, seq<string>>, collected: seq<Item>, k: Path)
    requires Shape(index, cells, kids) && k in index && DirsOf(index.Keys, collected)
    ensures Distinct(kids[k])
    ensures forall l :: l in index && k < l ==> l[|k|] in kids[k]
    ensures forall x :: x in collected && k < Parent(x) ==> Parent(x)[|k|] in kids[k]
  {
    assert NodeOk(index, cells, kids, k);
    forall l | l in index && k < l
      ensures l[|k|] in kids[k]
    {
      var child := l[..|k| + 1];
      assert IsDir(collected, l);
      assert IsDir(collected, child);
      assert child in index && HangsOn(index, kids, child);
      assert child[..|child| - 1] == k;
    }
    forall x | x in collected && k < Parent(x)
      ensures Parent(x)[|k|] in kids[k]
    {
      assert IsDir(collected, Parent(x));
      assert Parent(x) in index;
    }
  }

  lemma RolledWhole(cells0: map<Path, Cell>, kids0: map<Path, seq<string>>, cells1: map<Path, Cell>, kids1: map<Path, seq<string>>,
                    cells: map<Path, Cell>, kids: map<Path, seq<string>>, collected: seq<Item>, k: Path, names: seq<string>, count: nat, size: nat)
    requires k in cells0 && Rolled(cells0, kids0, cells1, kids1, collected, k, names)
    requires Settled(cells1, kids1, cells, kids, k, count, size)
    requires forall l :: l in cells1 && k < l ==> l[|k|] in names
    requires cells0[k].files == FilesAt(collected, k)
    requires count == Below(collected, k, Each()) && size == Below(collected, k, Size())
    ensures RolledUp(cells0, kids0, cells, kids, collected, k)
  {
    forall l | l in cells
      ensures if k <= l then Finished(cells[l], kids[l], collected, l) else cells[l] == cells0[l] && kids[l] == kids0[l]
    {
      assert l in cells1 && cells1[l] == cells1[l];
      if l == k {
        FinishedHere(cells0[k], cells1[k], cells[k], kids[k], collected, k, count, size);
      }
    }
  }

  lemma FinishedHere(raw: Cell, before: Cell, cell: Cell, names: seq<string>, collected: seq<Item>, k: Path, count: nat, size: nat)
    requires before == raw && raw.files == FilesAt(collected, k) && multiset(cell.files) == multiset(before.files)
    requires Sorted(names) && Sorted(Names(cell.files, NameOf)) && cell.fileCount == count && cell.totalSize == size
    requires count == Below(collected, k, Each()) && size == Below(collected, k, Size())
    ensures Finished(cell, names, collected, k)
  {
  }

  function NameOfPair(p: (string, Dir)): string {
    p.0
  }

  function Pairs(names: seq<string>, dirs: seq<Dir>): seq<(string, Dir)>
    requires |names| == |dirs|
  {
    seq(|names|, i requires 0 <= i < |names| => (names[i], dirs[i]))
  }

  function Dirs(pairs: seq<(string, Dir)>): seq<Dir> {
    seq(|pairs|, i requires 0 <= i < |pairs| => pairs[i].1)
  }

  /** One node sorted and totalled, everything else as before. */
  predicate Settled(before: map<Path, Cell>, names: map<Path, seq<string>>, after: map<Path, Cell>, kids: map<Path, seq<string>>,
                    k: Path, count: nat, size: nat) {
    && k in before && k in after && k in names && k in kids
    && after == before[k := after[k]] && kids == names[k := kids[k]]
    && Sorted(kids[k]) && Sorted(Names(after[k].files, NameOf)) && multiset(after[k].files) == multiset(before[k].files)
    && after[k].fileCount == count && after[k].totalSize == size
  }

  /** The maps after the children of `k` were put into another order. */
  predicate Reorders(cells: map<Path, Cell>, kids: map<Path, seq<string>>,
                     cells': map<Path, Cell>, kids': map<Path, seq<string>>, k: Path, sorted: seq<(string, Dir)>) {
    && k in cells && k in kids && |kids[k]| == |cells[k].dirs|
    && multiset(sorted) == multiset(Pairs(kids[k], cells[k].dirs))
    && k in cells' && cells' == cells[k := cells'[k]] && kids' == kids[k := Names(sorted, NameOfPair)]
    && cells'[k].dirs == Dirs(sorted) && cells'[k].path == cells[k].path && cells'[k].name == cells[k].name
  }

  /** Reordering the children of a node keeps the shape. */
  lemma Resorted(index: map<Path, Dir>, cells: map<Path, Cell>, kids: map<Path, seq<string>>,
                 cells': map<Path, Cell>, kids': map<Path, seq<string>>, k: Path, sorted: seq<(string, Dir)>)
    requires Shape(index, cells, kids) && k in index && Reorders(cells, kids, cells', kids', k, sorted)
    ensures Shape(index, cells', kids')
  {
    assert NodeOk(index, cells, kids, k);
    ResortedNode(index, cells, kids, cells', kids', k, sorted);
    assert NodesOk(index, cells', kids') by {
      forall l | l in index
        ensures NodeOk(index, cells', kids', l)
      {
        if l != k {
          assert NodeOk(index, cells, kids, l);
          SameNode(index, cells, kids, cells', kids', l);
        }
      }
    }
    assert AllHang(index, kids') by {
      forall l | l in index
        ensures HangsOn(index, kids', l)
      {
        assert HangsOn(index, kids, l);
        StillHangs(index, kids, kids', k, l);
      }
    }
  }

  lemma SameNode(index: map<Path, Dir>, cells: map<Path, Cell>, kids: map<Path, seq<string>>,
                 cells': map<Path, Cell>, kids': map<Path, seq<string>>, l: Path)
    requires NodeOk(index, cells, kids, l) && l in cells' && l in kids' && cells'[l] == cells[l] && kids'[l] == kids[l]
    ensures NodeOk(index, cells', kids', l)
  {
  }

  lemma StillHangs(index: map<Path, Dir>, kids: map<Path, seq<string>>, kids': map<Path, seq<string>>, k: Path, l: Path)
    requires HangsOn(index, kids, l) && k in kids && k in kids' && kids' == kids[k := kids'[k]]
    requires forall name :: name in kids'[k] <==> name in kids[k]
    ensures HangsOn(index, kids', l)
  {
  }

  lemma ResortedNode(index: map<Path, Dir>, cells: map<Path, Cell>, kids: map<Path, seq<string>>,
                     cells': map<Path, Cell>, kids': map<Path, seq<string>>, k: Path, sorted: seq<(string, Dir)>)
    requires NodeOk(index, cells, kids, k) && Reorders(cells, kids, cells', kids', k, sorted)
    ensures NodeOk(index, cells', kids', k)
    ensures forall name :: name in kids'[k] <==> name in kids[k]
  {
    var pairs := Pairs(kids[k], cells[k].dirs);
    assert Names(pairs, NameOfPair) == kids[k];
    assert DistinctNames(pairs, NameOfPair);
    PermutedNames(pairs, sorted, NameOfPair);
    forall i | 0 <= i < |sorted|
      ensures k + [sorted[i].0] in index && sorted[i].1 == index[k + [sorted[i].0]]
    {
      assert sorted[i] in multiset(sorted);
      assert sorted[i] in pairs;
      var j :| 0 <= j < |pairs| && pairs[j] == sorted[i];
      assert kids[k][j] == sorted[i].0;
    }
    forall i, j | 0 <= i < j < |kids'[k]|
      ensures kids'[k][i] != kids'[k][j]
    {
      assert NameOfPair(sorted[i]) != NameOfPair(sorted[j]);
    }
  }

  /** Exactly the directories of the collection, each with its own files in order. */
  ghost predicate Holds(cells: map<Path, Cell>, collected: seq<Item>) {
    forall l {:trigger l in cells} {:trigger IsDir(collected, l)} ::
      (l in cells <==> IsDir(collected, l)) && (l in cells ==> cells[l].files == FilesAt(collected, l))
  }

  lemma FiledHolds(before: map<Path, Cell>, after: map<Path, Cell>, collected: seq<Item>, x: Item)
    requires Holds(before, collected) && Filed(before, after, x)
    ensures Holds(after, collected + [x])
  {
    forall l
      ensures IsDir(collected + [x], l) <==> IsDir(collected, l) || l <= Parent(x)
    {
      assert x in collected + [x];
      assert forall y :: y in collected + [x] <==> y in collected || y == x;
    }
    forall l | l in after
      ensures after[l].files == FilesAt(collected + [x], l)
    {
      Appended(collected, x, l, Each());
      if l !in before {
        NoFiles(collected, l);
      }
    }
  }

  lemma FiledNext(before: map<Path, Cell>, after: map<Path, Cell>, collected: seq<Item>, n: nat)
    requires n < |collected| && Holds(before, collected[..n]) && Filed(before, after, collected[n])
    ensures Holds(after, collected[..n + 1])
  {
    assert collected[..n + 1] == collected[..n] + [collected[n]];
    FiledHolds(before, after, collected[..n], collected[n]);
  }

  lemma {:induction false} NoFiles(collected: seq<Item>, l: Path)
    requires !IsDir(collected, l)
    ensures FilesAt(collected, l) == []
  {
    if collected != [] {
      var n := |collected| - 1;
      assert collected == collected[..n] + [collected[n]];
      assert collected[n] in collected;
      NoFiles(collected[..n], l);
    }
  }

  /** Changing files and totals keeps the shape. */
  lemma SameShape(index: map<Path, Dir>, cells: map<Path, Cell>, cells': map<Path, Cell>, kids: map<Path, seq<string>>)
    requires Shape(index, cells, kids) && cells'.Keys == cells.Keys
    requires forall k :: k in cells ==> cells'[k].path == cells[k].path && cells'[k].name == cells[k].name && cells'[k].dirs == cells[k].dirs
    ensures Shape(index, cells', kids)
  {
    forall k | k in index
      ensures NodeOk(index, cells', kids, k)
    {
      assert NodeOk(index, cells, kids, k);
    }
  }

  predicate Kept(before: map<Path, Dir>, after: map<Path, Dir>) {
    forall l :: l in before ==> l in after && after[l] == before[l]
  }

  /** At most the node `key` is new, and it holds no file. */
  predicate Widened(before: map<Path, Cell>, after: map<Path, Cell>, key: Path) {
    && after.Keys == before.Keys + {key}
    && forall l :: l in after ==> after[l].files == if l in before then before[l].files else []
  }

  /** Nodes were added for `p` and the directories above it, no files yet. */
  ghost predicate Opened(before: map<Path, Cell>, after: map<Path, Cell>, p: Path) {
    forall l {:trigger l in after} ::
      (l in after <==> l in before || l <= p) && (l in after ==> after[l].files == if l in before then before[l].files else [])
  }

  /** The file `x` is in its parent directory, and nothing else changed but new directories above it. */
  ghost predicate Filed(before: map<Path, Cell>, after: map<Path, Cell>, x: Item) {
    forall l {:trigger l in after} ::
      && (l in after <==> l in before || l <= Parent(x))
      && (l in after ==> after[l].files == (if l in before then before[l].files else []) + if l == Parent(x) then [x] else [])
  }

  lemma OpenedFurther(before: map<Path, Cell>, middle: map<Path, Cell>, after: map<Path, Cell>, parts: seq<string>, i: nat)
    requires i < |parts| && Opened(before, middle, parts[..i]) && parts[..i] in middle
    requires Widened(middle, after, parts[..i] + [parts[i]])
    ensures Opened(before, after, parts[..i + 1])
  {
    var key := parts[..i + 1];
    assert key == parts[..i] + [parts[i]];
    forall l {:trigger l in after}
      ensures l <= key <==> l <= parts[..i] || l == key
    {
      if l <= key && l != key {
        assert l == key[..|l|] == parts[..i][..|l|];
      }
    }
  }

  /** The three maps after a new child was attached. */
  predicate Attaches(index: map<Path, Dir>, cells: map<Path, Cell>, kids: map<Path, seq<string>>,
                     index': map<Path, Dir>, cells': map<Path, Cell>, kids': map<Path, seq<string>>, k: Path, name: string) {
    var key := k + [name];
    && k in index && k in cells && k in kids && key !in index && key in index'
    && index' == index[key := index'[key]]
    && cells' == cells[k := cells[k].(dirs := cells[k].dirs + [index'[key]])][key := Cell(name, key, [], [], 0, 0)]
    && kids' == kids[k := kids[k] + [name]][key := []]
  }

  /** Attaching a new child keeps the shape. */
  lemma Attached(index: map<Path, Dir>, cells: map<Path, Cell>, kids: map<Path, seq<string>>,
                 index': map<Path, Dir>, cells': map<Path, Cell>, kids': map<Path, seq<string>>, k: Path, name: string)
    requires Shape(index, cells, kids) && Attaches(index, cells, kids, index', cells', kids', k, name)
    ensures Shape(index', cells', kids')
  {
    AttachedKeys(index, cells, kids, index', cells', kids', k, name);
    assert NodesOk(index', cells', kids') by {
      forall l | l in index'
        ensures NodeOk(index', cells', kids', l)
      {
        AttachedNode(index, cells, kids, index', cells', kids', k, name, l);
      }
    }
    assert AllHang(index', kids') by {
      forall l | l in index'
        ensures HangsOn(index', kids', l)
      {
        AttachedHangs(index, cells, kids, index', cells', kids', k, name, l);
      }
    }
  }

  lemma AttachedKeys(index: map<Path, Dir>, cells: map<Path, Cell>, kids: map<Path, seq<string>>,
                     index': map<Path, Dir>, cells': map<Path, Cell>, kids': map<Path, seq<string>>, k: Path, name: string)
    requires [] in index && cells.Keys == index.Keys && kids.Keys == index.Keys
    requires Attaches(index, cells, kids, index', cells', kids', k, name)
    ensures [] in index' && cells'.Keys == index'.Keys && kids'.Keys == index'.Keys
  {
    assert index'.Keys == index.Keys + {k + [name]};
    assert cells'.Keys == cells.Keys + {k + [name]};
    assert kids'.Keys == kids.Keys + {k + [name]};
  }

  lemma AttachedHangs(index: map<Path, Dir>, cells: map<Path, Cell>, kids: map<Path, seq<string>>,
                      index': map<Path, Dir>, cells': map<Path, Cell>, kids': map<Path, seq<string>>, k: Path, name: string, l: Path)
    requires Shape(index, cells, kids) && Attaches(index, cells, kids, index', cells', kids', k, name) && l in index'
    ensures HangsOn(index', kids', l)
  {
    var key := k + [name];
    if l == key {
      assert key[..|key| - 1] == k;
      assert kids'[k][|kids[k]|] == name;
    } else {
      assert HangsOn(index, kids, l);
      if l != [] && l[..|l| - 1] == k {
        assert l[|l| - 1] in kids[k];
      }
    }
  }

  lemma AttachedNode(index: map<Path, Dir>, cells: map<Path, Cell>, kids: map<Path, seq<string>>,
                     index': map<Path, Dir>, cells': map<Path, Cell>, kids': map<Path, seq<string>>, k: Path, name: string, l: Path)
    requires Shape(index, cells, kids) && Attaches(index, cells, kids, index', cells', kids', k, name) && l in index'
    ensures NodeOk(index', cells', kids', l)
  {
    var key := k + [name];
    assert key != k;
    if l != key {
      assert NodeOk(index, cells, kids, l);
      if l == k {
        forall i | 0 <= i < |kids[k]|
          ensures kids[k][i] != name
        {
          assert k + [kids[k][i]] in index;
        }
      }
    }
  }

  function Longest(collected: seq<Item>): nat {
    if collected == [] then 0
    else
      var front, last := Longest(collected[..|collected| - 1]), |collected[|collected| - 1].path|;
      if front < last then last else front
  }

  lemma {:induction false} DirsAreShort(collected: seq<Item>, l: Path)
    requires IsDir(collected, l)
    ensures |l| <= Longest(collected)
  {
    if l != [] {
      var n := |collected| - 1;
      assert collected == collected[..n] + [collected[n]];
      if !(l <= Parent(collected[n])) {
        assert IsDir(collected[..n], l);
        DirsAreShort(collected[..n], l);
      }
    }
  }
}

/** A flat list of files seen as directories: what each directory holds, by number, by size, or file by
    file. */
module ArtifactTotals {
  type Path = seq<string>

  /** A collected file. */
  datatype Item = Item(path: Path, size: nat)

  predicate Relative(x: Item) {
    x.path != []
  }

  function Parent(x: Item): Path {
    if x.path == [] then [] else x.path[..|x.path| - 1]
  }

  function NameOf(x: Item): string {
    if x.path == [] then "" else x.path[|x.path| - 1]
  }

  // ---------- weights ----------

  type Weight = Item -> nat

  function Each(): Weight {
    (x: Item) => 1
  }

  function Size(): Weight {
    (x: Item) => x.size
  }

  function Copies(y: Item): Weight {
    (x: Item) => if x == y then 1 else 0
  }

  function Weigh(files: seq<Item>, w: Weight): nat {
    if files == [] then 0 else Weigh(files[..|files| - 1], w) + w(files[|files| - 1])
  }

  /** Everything in the directory `k` and below it. */
  function Below(collected: seq<Item>, k: Path, w: Weight): nat {
    if collected == [] then 0
    else
      var x := collected[|collected| - 1];
      Below(collected[..|collected| - 1], k, w) + if k <= Parent(x) then w(x) else 0
  }

  /** Everything in the subdirectories `names` of `k`. */
  function BelowAll(collected: seq<Item>, k: Path, names: seq<string>, w: Weight): nat {
    if names == [] then 0
    else BelowAll(collected, k, names[..|names| - 1], w) + Below(collected, k + [names[|names| - 1]], w)
  }

  /** The files directly in `k`, in collection order. */
  function FilesAt(collected: seq<Item>, k: Path): seq<Item> {
    if collected == [] then []
    else
      var x := collected[|collected| - 1];
      FilesAt(collected[..|collected| - 1], k) + if Parent(x) == k then [x] else []
  }

  predicate Distinct(names: seq<string>) {
    forall i, j :: 0 <= i < j < |names| ==> names[i] != names[j]
  }

  /** A directory of some collected file. */
  predicate IsDir(collected: seq<Item>, k: Path) {
    k == [] || exists x :: x in collected && k <= Parent(x)
  }

  lemma Appended(collected: seq<Item>, x: Item, k: Path, w: Weight)
    ensures Below(collected + [x], k, w) == Below(collected, k, w) + if k <= Parent(x) then w(x) else 0
    ensures FilesAt(collected + [x], k) == FilesAt(collected, k) + if Parent(x) == k then [x] else []
    ensures Weigh(collected + [x], w) == Weigh(collected, w) + w(x)
  {
    assert (collected + [x])[..|collected|] == collected;
  }

  /** A file lies in at most one of the subdirectories `names` of `k`. */
  lemma {:induction false} OneSubdirectory(collected: seq<Item>, x: Item, k: Path, names: seq<string>, w: Weight)
    requires Distinct(names)
    ensures BelowAll(collected + [x], k, names, w) ==
            BelowAll(collected, k, names, w) + if k < Parent(x) && Parent(x)[|k|] in names then w(x) else 0
  {
    if names != [] {
      var n := |names| - 1;
      var front, name := names[..n], names[n];
      assert names == front + [name];
      OneSubdirectory(collected, x, k, front, w);
      Appended(collected, x, k + [name], w);
      Enters(Parent(x), k, name);
      assert name !in front;
    }
  }

  lemma Enters(p: Path, k: Path, name: string)
    ensures k + [name] <= p <==> k < p && p[|k|] == name
  {
    if k + [name] <= p {
      assert p[..|k|] == k;
    }
  }

  lemma OwnFiles(collected: seq<Item>, x: Item, k: Path, w: Weight)
    ensures Weigh(FilesAt(collected + [x], k), w) == Weigh(FilesAt(collected, k), w) + if Parent(x) == k then w(x) else 0
  {
    Appended(collected, x, k, w);
    Appended(FilesAt(collected, k), x, k, w);
    assert FilesAt(collected, k) + [] == FilesAt(collected, k);
  }

  /** A directory holds its own files and those of its subdirectories, each once. */
  lemma {:induction false} BelowSplits(collected: seq<Item>, k: Path, names: seq<string>, w: Weight)
    requires Distinct(names)
    requires forall x :: x in collected && k < Parent(x) ==> Parent(x)[|k|] in names
    ensures Below(collected, k, w) == Weigh(FilesAt(collected, k), w) + BelowAll(collected, k, names, w)
  {
    if collected == [] {
      NothingBelow(k, names, w);
    } else {
      var n := |collected| - 1;
      var front, x := collected[..n], collected[n];
      assert collected == front + [x];
      BelowSplits(front, k, names, w);
      OneSubdirectory(front, x, k, names, w);
      Appended(front, x, k, w);
      OwnFiles(front, x, k, w);
      assert k <= Parent(x) <==> k == Parent(x) || k < Parent(x);
    }
  }

  lemma {:induction false} NothingBelow(k: Path, names: seq<string>, w: Weight)
    ensures BelowAll([], k, names, w) == 0
  {
    if names != [] {
      NothingBelow(k, names[..|names| - 1], w);
    }
  }

  lemma {:induction false} RootHoldsEverything(collected: seq<Item>, w: Weight)
    ensures Below(collected, [], w) == Weigh(collected, w)
  {
    if collected != [] {
      RootHoldsEverything(collected[..|collected| - 1], w);
    }
  }

  lemma {:induction false} WeighCopies(files: seq<Item>, y: Item)
    ensures Weigh(files, Copies(y)) == multiset(files)[y]
  {
    if files != [] {
      var n := |files| - 1;
      WeighCopies(files[..n], y);
      assert files == files[..n] + [files[n]];
    }
  }

  lemma {:induction false} WeighEach(files: seq<Item>)
    ensures Weigh(files, Each()) == |files|
  {
    if files != [] {
      WeighEach(files[..|files| - 1]);
    }
  }

  lemma {:induction false} WeighJoins(a: seq<Item>, b: seq<Item>, w: Weight)
    ensures Weigh(a + b, w) == Weigh(a, w) + Weigh(b, w)
  {
    if b == [] {
      assert a + b == a;
    } else {
      var n := |b| - 1;
      assert (a + b)[..|a| + n] == a + b[..n];
      WeighJoins(a, b[..n], w);
    }
  }

  lemma TakenOut(front: seq<Item>, x: Item, back: seq<Item>, w: Weight)
    ensures Weigh((front + [x]) + back, w) == Weigh(front + back, w) + w(x)
  {
    WeighJoins(front + [x], back, w);
    WeighJoins(front, back, w);
    assert (front + [x])[..|front|] == front;
  }

  /** The weight does not depend on the order. */
  lemma {:induction false} WeighPermutes(a: seq<Item>, b: seq<Item>, w: Weight)
    requires multiset(a) == multiset(b)
    ensures Weigh(a, w) == Weigh(b, w)
    decreases |a|
  {
    if a == [] {
      assert |b| == |multiset(b)| == 0;
    } else {
      var n := |a| - 1;
      var front, x := a[..n], a[n];
      assert a == front + [x];
      assert x in multiset(a);
      var i :| 0 <= i < |b| && b[i] == x;
      var left, right := b[..i], b[i + 1..];
      assert b == (left + [x]) + right;
      TakenOut(left, x, right, w);
      SameRest(front, left, x, right);
      WeighPermutes(front, left + right, w);
    }
  }

  lemma SameRest(front: seq<Item>, left: seq<Item>, x: Item, right: seq<Item>)
    requires multiset(front + [x]) == multiset((left + [x]) + right)
    ensures multiset(front) == multiset(left + right)
  {
    assert multiset(front) == multiset(front + [x]) - multiset{x};
    assert multiset(left + right) == multiset((left + [x]) + right) - multiset{x};
  }
}

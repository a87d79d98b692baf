/** The walk that collects the deliverable files of a workspace: a stack of directories, pruned by name
    and cut off at a file limit. */
module ArtifactWalk {
  import opened Statuses
  import opened ArtifactScope

  type Path = seq<string>

  /** A directory entry.  `Listing` is what `sorted(iterdir())` returns. */
  datatype Node = File(size: nat) | Dir(readable: bool, children: Listing) | Symlink | Special

  datatype Listing = End | Entry(name: string, node: Node, rest: Listing)

  // ---------- what the walk yields ----------

  /** The regular files directly in a listing. */
  function FilesIn(l: Listing, at: Path): seq<Path> {
    match l
    case End => []
    case Entry(name, node, rest) => (if node.File? then [at + [name]] else []) + FilesIn(rest, at)
  }

  predicate Entered(name: string, node: Node) {
    node.Dir? && name !in SKIP_DIRS
  }

  /** The directories a listing pushes on the stack. */
  function DirsIn(l: Listing, at: Path): seq<(Path, Node)> {
    match l
    case End => []
    case Entry(name, node, rest) => (if Entered(name, node) then [(at + [name], node)] else []) + DirsIn(rest, at)
  }

  /** The walk as a recursion: the files of a directory first, then its subdirectories, last one first. */
  function Walk(node: Node, at: Path): seq<Path> {
    if node.Dir? && node.readable then FilesIn(node.children, at) + WalkDirs(node.children, at) else []
  }

  function WalkDirs(l: Listing, at: Path): seq<Path> {
    match l
    case End => []
    case Entry(name, node, rest) => WalkDirs(rest, at) + if Entered(name, node) then Walk(node, at + [name]) else []
  }

  /** What a stack of directories still has to yield. */
  function WalkStack(stack: seq<(Path, Node)>): seq<Path> {
    if stack == [] then []
    else Walk(stack[|stack| - 1].1, stack[|stack| - 1].0) + WalkStack(stack[..|stack| - 1])
  }

  lemma {:induction false} StackJoins(a: seq<(Path, Node)>, b: seq<(Path, Node)>)
    ensures WalkStack(a + b) == WalkStack(b) + WalkStack(a)
  {
    if b == [] {
      assert a + b == a;
    } else {
      var n := |b| - 1;
      StackJoins(a, b[..n]);
      assert a + b == (a + b[..n]) + [b[n]];
      TopOfStack(a + b[..n], b[n]);
      TopOfStack(b[..n], b[n]);
      assert b == b[..n] + [b[n]];
      Regroup(Walk(b[n].1, b[n].0), WalkStack(b[..n]), WalkStack(a));
    }
  }

  lemma {:induction false} TopOfStack(stack: seq<(Path, Node)>, top: (Path, Node))
    ensures WalkStack(stack + [top]) == Walk(top.1, top.0) + WalkStack(stack)
  {
    assert (stack + [top])[..|stack|] == stack;
  }

  lemma Regroup(a: seq<Path>, b: seq<Path>, c: seq<Path>)
    ensures a + (b + c) == (a + b) + c
  {
  }

  lemma {:induction false} PushedDirs(l: Listing, at: Path)
    ensures WalkStack(DirsIn(l, at)) == WalkDirs(l, at)
  {
    match l
    case End =>
    case Entry(name, node, rest) =>
      PushedDirs(rest, at);
      if Entered(name, node) {
        var one := [(at + [name], node)];
        StackJoins(one, DirsIn(rest, at));
        assert WalkStack(one) == Walk(node, at + [name]) + WalkStack(one[..0]);
      } else {
        assert DirsIn(l, at) == DirsIn(rest, at) && WalkDirs(l, at) == WalkDirs(rest, at);
      }
  }

  /** In the middle of a listing: what is out, what the rest of the listing yields, what the stack will. */
  predicate Pending(out: seq<Path>, l: Listing, at: Path, stack: seq<(Path, Node)>, all: seq<Path>) {
    out + FilesIn(l, at) + WalkStack(stack + DirsIn(l, at)) == all
  }

  lemma DirStep(out: seq<Path>, l: Listing, at: Path, stack: seq<(Path, Node)>, all: seq<Path>)
    requires l.Entry? && l.node.Dir? && Pending(out, l, at, stack, all)
    ensures Pending(out, l.rest, at, if l.name in SKIP_DIRS then stack else stack + [(at + [l.name], l.node)], all)
  {
    assert FilesIn(l, at) == FilesIn(l.rest, at);
    var pushed := if l.name in SKIP_DIRS then stack else stack + [(at + [l.name], l.node)];
    assert stack + DirsIn(l, at) == pushed + DirsIn(l.rest, at);
  }

  lemma FileStep(out: seq<Path>, l: Listing, at: Path, stack: seq<(Path, Node)>, all: seq<Path>)
    requires l.Entry? && !l.node.Dir? && Pending(out, l, at, stack, all)
    ensures Pending(if l.node.File? then out + [at + [l.name]] else out, l.rest, at, stack, all)
    ensures l.node.File? ==> out < all
  {
    assert DirsIn(l, at) == DirsIn(l.rest, at);
    if l.node.File? {
      assert out + FilesIn(l, at) == (out + [at + [l.name]]) + FilesIn(l.rest, at);
    } else {
      assert FilesIn(l, at) == FilesIn(l.rest, at);
    }
  }

  lemma EndStep(out: seq<Path>, at: Path, stack: seq<(Path, Node)>, all: seq<Path>)
    requires Pending(out, End, at, stack, all)
    ensures out + WalkStack(stack) == all
  {
    assert stack + DirsIn(End, at) == stack;
    assert out + FilesIn(End, at) == out;
  }

  lemma StartStep(out: seq<Path>, at: Path, current: Node, stack: seq<(Path, Node)>, all: seq<Path>)
    requires out + WalkStack(stack + [(at, current)]) == all
    ensures if current.Dir? && current.readable then Pending(out, current.children, at, stack, all)
            else out + WalkStack(stack) == all
  {
    assert (stack + [(at, current)])[..|stack|] == stack;
    if current.Dir? && current.readable {
      PushedDirs(current.children, at);
      StackJoins(stack, DirsIn(current.children, at));
    }
  }

  function Size(node: Node): nat {
    match node
    case Dir(_, children) => 1 + ListingSize(children)
    case _ => 1
  }

  function ListingSize(l: Listing): nat {
    match l
    case End => 0
    case Entry(_, node, rest) => 1 + Size(node) + ListingSize(rest)
  }

  function StackSize(stack: seq<(Path, Node)>): nat {
    if stack == [] then 0 else Size(stack[|stack| - 1].1) + StackSize(stack[..|stack| - 1])
  }

  /** The yield of the whole walk under a limit. */
  function Limited(all: seq<Path>, maxFiles: Option<nat>): seq<Path> {
    if maxFiles.Some? && maxFiles.value < |all| then all[..maxFiles.value] else all
  }

  /** `iter_artifact_files`: the loop over the stack yields the recursive walk, cut off at the limit. */
  method IterArtifactFiles(root: Node, maxFiles: Option<nat>) returns (out: seq<Path>)
    ensures out == Limited(Walk(root, []), maxFiles)
  {
    out := [];
    var stack: seq<(Path, Node)> := [([], root)];
    ghost var all := Walk(root, []);
    assert stack[..0] == [];
    while stack != []
      invariant out + WalkStack(stack) == all
      invariant maxFiles.Some? ==> |out| <= maxFiles.value
      decreases StackSize(stack)
    {
      var (at, current) := stack[|stack| - 1];
      ghost var size := StackSize(stack);
      assert stack == stack[..|stack| - 1] + [(at, current)];
      stack := stack[..|stack| - 1];
      StartStep(out, at, current, stack, all);
      if !(current.Dir? && current.readable) {
        continue;
      }
      var l := current.children;
      while l.Entry?
        invariant Pending(out, l, at, stack, all)
        invariant maxFiles.Some? ==> |out| <= maxFiles.value
        invariant StackSize(stack) + ListingSize(l) < size
        decreases l
      {
        if l.node.Dir? {
          DirStep(out, l, at, stack, all);
          if l.name !in SKIP_DIRS {
            stack := stack + [(at + [l.name], l.node)];
            assert stack[..|stack| - 1] + [(at + [l.name], l.node)] == stack;
          }
        } else {
          FileStep(out, l, at, stack, all);
          if l.node.File? {
            if maxFiles.Some? && |out| >= maxFiles.value {
              return;
            }
            out := out + [at + [l.name]];
          }
        }
        l := l.rest;
      }
      EndStep(out, at, stack, all);
    }
    assert WalkStack(stack) == [];
  }

  // ---------- what that means ----------

  function Lookup(l: Listing, name: string): Option<Node> {
    match l
    case End => None
    case Entry(n, node, rest) => if n == name then Some(node) else Lookup(rest, name)
  }

  /** A directory does not list a name twice. */
  predicate Distinct(l: Listing) {
    match l
    case End => true
    case Entry(name, node, rest) =>
      Lookup(rest, name) == None && Distinct(rest) && (node.Dir? ==> Distinct(node.children))
  }

  predicate WellFormed(node: Node) {
    node.Dir? ==> Distinct(node.children)
  }

  /** A regular file, reached through readable directories none of which is excluded or a symlink. */
  predicate Deliverable(node: Node, p: Path)
    decreases |p|
  {
    && p != [] && node.Dir? && node.readable
    && var child := Lookup(node.children, p[0]);
    && child.Some?
    && if |p| == 1 then child.value.File? else Entered(p[0], child.value) && Deliverable(child.value, p[1..])
  }

  lemma {:induction false} FilesFound(l: Listing, at: Path, p: Path)
    requires Distinct(l)
    ensures p in FilesIn(l, at) <==>
            (|p| == |at| + 1 && p[..|at|] == at && Lookup(l, p[|at|]).Some? && Lookup(l, p[|at|]).value.File?)
  {
    match l
    case End =>
    case Entry(name, node, rest) =>
      FilesFound(rest, at, p);
      assert (at + [name])[..|at|] == at;
      if |p| == |at| + 1 && p[..|at|] == at && p[|at|] == name {
        assert p == at + [name];
      }
  }

  lemma {:induction false} WalkFound(node: Node, at: Path, p: Path)
    requires WellFormed(node)
    ensures p in Walk(node, at) <==> at <= p && Deliverable(node, p[|at|..])
    decreases node, 1
  {
    if node.Dir? && node.readable {
      FilesFound(node.children, at, p);
      DirsFound(node.children, at, p);
      if at <= p && |p| > |at| {
        assert p[|at|..][0] == p[|at|];
        assert p[|at|..][1..] == p[|at| + 1..];
        assert p[..|at|] == at;
      }
    }
  }

  lemma {:induction false} DirsFound(l: Listing, at: Path, p: Path)
    requires Distinct(l)
    ensures p in WalkDirs(l, at) <==>
            (&& at <= p && |p| > |at| + 1 && Lookup(l, p[|at|]).Some? && Entered(p[|at|], Lookup(l, p[|at|]).value)
             && Deliverable(Lookup(l, p[|at|]).value, p[|at| + 1..]))
    decreases l, 0
  {
    match l
    case End =>
    case Entry(name, node, rest) =>
      DirsFound(rest, at, p);
      if Entered(name, node) {
        var below := at + [name];
        WalkFound(node, below, p);
        if at <= p && |p| > |at| {
          assert below <= p <==> p[|at|] == name;
        }
      }
  }

  predicate NoDuplicates(s: seq<Path>) {
    forall i, k :: 0 <= i < k < |s| ==> s[i] != s[k]
  }

  lemma JoinDistinct(a: seq<Path>, b: seq<Path>)
    requires NoDuplicates(a) && NoDuplicates(b) && forall p :: p in a ==> p !in b
    ensures NoDuplicates(a + b)
  {
    forall i, k | 0 <= i < k < |a + b|
      ensures (a + b)[i] != (a + b)[k]
    {
      if i < |a| <= k {
        assert a[i] in a && b[k - |a|] in b;
      }
    }
  }

  lemma {:induction false} FilesOnce(l: Listing, at: Path)
    requires Distinct(l)
    ensures NoDuplicates(FilesIn(l, at))
  {
    match l
    case End =>
    case Entry(name, node, rest) =>
      FilesOnce(rest, at);
      FilesFound(rest, at, at + [name]);
      if node.File? {
        JoinDistinct([at + [name]], FilesIn(rest, at));
      }
  }

  lemma {:induction false} DirsOnce(l: Listing, at: Path)
    requires Distinct(l)
    ensures NoDuplicates(WalkDirs(l, at))
    decreases l, 0
  {
    match l
    case End =>
    case Entry(name, node, rest) =>
      DirsOnce(rest, at);
      if Entered(name, node) {
        WalkOnce(node, at + [name]);
        forall p | p in WalkDirs(rest, at)
          ensures p !in Walk(node, at + [name])
        {
          DirsFound(rest, at, p);
          WalkFound(node, at + [name], p);
        }
        JoinDistinct(WalkDirs(rest, at), Walk(node, at + [name]));
      }
  }

  lemma {:induction false} WalkOnce(node: Node, at: Path)
    requires WellFormed(node)
    ensures NoDuplicates(Walk(node, at))
    decreases node, 1
  {
    if node.Dir? && node.readable {
      FilesOnce(node.children, at);
      DirsOnce(node.children, at);
      forall p | p in FilesIn(node.children, at)
        ensures p !in WalkDirs(node.children, at)
      {
        FilesFound(node.children, at, p);
        DirsFound(node.children, at, p);
      }
      JoinDistinct(FilesIn(node.children, at), WalkDirs(node.children, at));
    }
  }

  /** The walk yields every deliverable file exactly once and nothing else. */
  lemma WalkIsExact(root: Node)
    requires WellFormed(root)
    ensures NoDuplicates(Walk(root, []))
    ensures forall p :: p in Walk(root, []) <==> Deliverable(root, p)
  {
    WalkOnce(root, []);
    forall p
      ensures p in Walk(root, []) <==> Deliverable(root, p)
    {
      WalkFound(root, [], p);
      assert p[0..] == p;
    }
  }

  // ---------- the limit of the scan ----------

  const MAX_FILES: nat := 2000

  /** The `truncated` flag of the scan: the number of yielded files reached the limit. */
  predicate Truncated(root: Node) {
    |Limited(Walk(root, []), Some(MAX_FILES))| >= MAX_FILES
  }

  /** Without the flag the scan saw every deliverable file; with it, it saw the first 2000 of the walk, and
      it is raised exactly if there are 2000 files or more, one short of exactly when files were cut. */
  lemma TruncationExact(root: Node)
    ensures Truncated(root) <==> |Walk(root, [])| >= 2000
    ensures !Truncated(root) ==> Limited(Walk(root, []), Some(2000)) == Walk(root, [])
    ensures Limited(Walk(root, []), Some(2000)) <= Walk(root, [])
    ensures Limited(Walk(root, []), Some(2000)) == Walk(root, []) <==> |Walk(root, [])| <= 2000
  {
    var all := Walk(root, []);
    if MAX_FILES < |all| {
      assert |all[..MAX_FILES]| == MAX_FILES;
    }
  }
}

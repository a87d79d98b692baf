/** What a snapshot takes and what it shares, said of names and files alone: without the predicates that the
    copying itself decides by. */
module SnapshotRules {
  import opened FileTrees

  /** The paths of a snapshot: everything of the attempt but its runtime directories, the directories that can
      be rebuilt, and the sidecars of a database that is rebuilt. */
  predicate TakesDeliverables(src: Tree, made: Tree) {
    forall p | p in src.Keys + made.Keys :: p in made <==>
      && p in src && p != []
      && p[0] !in {"sandbox_home", "sandbox_ro", ".opencode-iso-home"}
      && (forall i :: 0 <= i < |p| ==> p[i] !in {
            "node_modules", ".venv", "venv", "__pycache__", ".pytest_cache", ".mypy_cache", ".ruff_cache", ".cache",
            ".gradle", ".tox", "dist", "build", ".next", "target", ".output", ".turbo", ".git", ".svn", ".hg",
            ".agents", ".blade", ".octagon"})
      && (["env.db"] in src && src[["env.db"]].File? ==> p !in {["env.db-wal"], ["env.db-shm"], ["env.db-journal"]})
  }

  /** The ending of a name that somebody may still be writing to. */
  ghost predicate Unfinished(name: string) {
    exists stem: string, ending: string ::
      name == stem + ending && ending in {".partial", ".tmp", ".lock", "-wal", "-shm", "-journal"}
  }

  /** The window writes the file that `p` names. */
  predicate WrittenMeanwhile(src: Tree, window: seq<(Path, Bytes)>, p: Path)
    requires p in src
  {
    exists w | w in window :: w.0 in src && src[w.0].File? && src[w.0] == src[p]
  }

  /** A file of the snapshot that existed before the snapshot did. */
  predicate Linked(before: Disk, n: Node) {
    n.File? && n.ino < before.next
  }

  /** Whether a path of the snapshot is linked: exactly if the file system links it, it is not the database, it was
      not written meanwhile, and its name does not say that somebody may still write it. */
  ghost predicate DecidedByName(before: Disk, src: Tree, made: Tree, window: seq<(Path, Bytes)>, linkable: set<Path>, p: Path)
    requires p in made
  {
    && p in src && p != [] && (made[p].File? <==> src[p].File?)
    && (Linked(before, made[p]) ==> made[p] == src[p])
    && (Linked(before, made[p]) <==>
          && made[p].File? && p in linkable && p != ["env.db"]
          && !WrittenMeanwhile(src, window, p) && !Unfinished(p[|p| - 1]))
  }

  /** Every path is decided so; in particular, however deep it lies, no file with one of the six endings is
      linked. */
  ghost predicate LinksOnlyFinished(before: Disk, src: Tree, made: Tree, window: seq<(Path, Bytes)>, linkable: set<Path>) {
    && (forall p :: p in made ==> DecidedByName(before, src, made, window, linkable, p))
    && (forall dir: Path, stem: string, ending: string ::
          ending in {".partial", ".tmp", ".lock", "-wal", "-shm", "-journal"} && dir + [stem + ending] in made ==>
            !Linked(before, made[dir + [stem + ending]]))
  }

  lemma DecidedByNameIsEnough(before: Disk, src: Tree, made: Tree, window: seq<(Path, Bytes)>, linkable: set<Path>)
    requires forall p :: p in made ==> DecidedByName(before, src, made, window, linkable, p)
    ensures LinksOnlyFinished(before, src, made, window, linkable)
  {
    forall dir: Path, stem: string, ending: string |
      ending in {".partial", ".tmp", ".lock", "-wal", "-shm", "-journal"} && dir + [stem + ending] in made
      ensures !Linked(before, made[dir + [stem + ending]])
    {
      var p := dir + [stem + ending];
      assert p[|p| - 1] == stem + ending;
      assert Unfinished(p[|p| - 1]);
      assert DecidedByName(before, src, made, window, linkable, p);
    }
  }

  lemma EndingDecides(p: Path)
    requires p != []
    ensures StillWriting(p) <==> Unfinished(p[|p| - 1])
  {
    var name := p[|p| - 1];
    if StillWriting(p) {
      var ending :| ending in STILL_WRITING && EndsWith(name, ending);
      assert name == name[..|name| - |ending|] + ending;
    }
    if Unfinished(name) {
      var stem: string, ending: string :| name == stem + ending && ending in {".partial", ".tmp", ".lock", "-wal", "-shm", "-journal"};
      assert name[|name| - |ending|..] == ending;
    }
  }

  lemma WindowTargets(src: Tree, window: seq<(Path, Bytes)>, p: Path)
    requires p in src && src[p].File?
    ensures src[p].ino in Targets(src, window) <==> WrittenMeanwhile(src, window, p)
  {
    if src[p].ino in Targets(src, window) {
      var w :| w in window && w.0 in src && src[w.0].File? && src[w.0].ino == src[p].ino;
      assert src[w.0] == src[p];
    }
  }
}

/** Freezing an attempt into a scoring snapshot, checking it, and unpacking it for a scorer. */
module SnapshotStore {
  import opened ArtifactScope
  import opened FileTrees
  import opened SnapshotRules

  /** Runtime directories left out directly below the attempt root only. */
  const RUNTIME_DIRS: set<string> := {"sandbox_home", "sandbox_ro", ".opencode-iso-home"}

  /** `_ignore_non_deliverables` along a whole path: the names of files are tested like those of
      directories. */
  predicate Kept(p: Path) {
    p != [] && p[0] !in RUNTIME_DIRS && forall i :: 0 <= i < |p| ==> p[i] !in SKIP_DIRS
  }

  function KeptPaths(src: Tree): set<Path> {
    set p | p in src && Kept(p)
  }

  /** The paths of a snapshot of `src`: the deliverables, without the sidecars of a rebuilt database. */
  function FrozenPaths(src: Tree): set<Path> {
    if HasDatabase(src) then KeptPaths(src) - SIDECARS else KeptPaths(src)
  }

  predicate HasDatabase(src: Tree) {
    ENV_DB in src && src[ENV_DB].File?
  }

  /** Nothing that existed before has changed, apart from the tree being built. */
  predicate Grows(before: Disk, after: Disk, at: Place) {
    && Sound(after) && before.next <= after.next && at in after.trees
    && after.trees == before.trees[at := after.trees[at]]
    && forall i :: i in before.inodes ==> i in after.inodes && after.inodes[i] == before.inodes[i]
  }

  /** How an entry of the new tree relates to the entry it was made from: the same file if `shared`,
      otherwise a file of its own with the same bytes. */
  predicate Made(before: Disk, after: Disk, from: Node, to: Node, shared: bool) {
    match from
    case Folder => to.Folder? && !shared
    case File(i) =>
      && to.File? && to.ino in after.inodes && i in before.inodes
      && (shared ==> to == from)
      && (!shared ==> before.next <= to.ino && after.inodes[to.ino].bytes == before.inodes[i].bytes)
  }

  predicate Copies(before: Disk, after: Disk, src: Tree, at: Place, done: set<Path>, shared: set<Path>) {
    && Grows(before, after, at)
    && after.trees[at].Keys == done && done <= src.Keys
    && (forall p :: p in done ==> Made(before, after, src[p], after.trees[at][p], p in shared))
    && shared <= done && (forall p :: p in shared ==> !StillWriting(p))
  }

  /** A path whose file the snapshot shares with the attempt: the file system links it, its name is not
      that of a file still being written, it is not the database, and the window did not write it. */
  predicate SharedPath(src: Tree, window: seq<(Path, Bytes)>, linkable: set<Path>, p: Path) {
    p in src && src[p].File? && p in linkable && !StillWriting(p) && p != ENV_DB && src[p].ino !in Targets(src, window)
  }

  /** Files stay files, and those of the snapshot that existed before it did are exactly the shared ones. */
  predicate SharesExactly(before: Disk, src: Tree, t: Tree, window: seq<(Path, Bytes)>, linkable: set<Path>) {
    && (forall p :: p in t ==> p in src && (t[p].File? <==> src[p].File?))
    && forall p :: p in t && t[p].File? ==>
      (t[p].ino < before.next <==> SharedPath(src, window, linkable, p)) && (t[p].ino < before.next ==> t[p] == src[p])
  }

  /** The database is the backup; any other entry is what the attempt had before or after the writes of
      the window, and those are the same unless the window wrote the file. */
  predicate FrozenEntry(before: Disk, src: Tree, window: seq<(Path, Bytes)>, backup: Bytes, p: Path, seen: Seen) {
    if p == ENV_DB && HasDatabase(src) then seen == SeenFile(backup)
    else p in src && seen in {See(src[p], before.inodes), See(src[p], WriteAll(before, src, window).inodes)}
  }

  predicate FrozenManifest(before: Disk, src: Tree, window: seq<(Path, Bytes)>, backup: Bytes, hash: Manifest) {
    hash.Keys == FrozenPaths(src) && forall p :: p in hash ==> FrozenEntry(before, src, window, backup, p, hash[p])
  }

  function ChmodAll(d: Disk, files: set<Ino>, writable: bool): Disk {
    d.(inodes := map i | i in d.inodes :: if i in files then d.inodes[i].(writable := writable) else d.inodes[i])
  }

  /** How making a snapshot ends. */
  datatype Outcome = Frozen(hash: Manifest) | Mismatch(hash: Manifest) | Missing

  /** The paths that end up as links when everything in `paths` is copied. */
  function LinkedAmong(src: Tree, paths: set<Path>, linkable: set<Path>): set<Path> {
    set p | p in paths && p in src && src[p].File? && p in linkable && !StillWriting(p)
  }

  lemma LinkedGrows(src: Tree, paths: set<Path>, linkable: set<Path>, p: Path)
    requires p in src && p !in paths
    ensures LinkedAmong(src, paths + {p}, linkable) ==
            LinkedAmong(src, paths, linkable) + if src[p].File? && p in linkable && !StillWriting(p) then {p} else {}
  {
  }

  /** The tree has exactly the registered paths, each with what is registered for it. */
  predicate AsRegistered(t: Tree, inodes: map<Ino, Inode>, hash: Manifest) {
    t.Keys == hash.Keys && forall p :: p in hash ==> See(t[p], inodes) == hash[p]
  }

  lemma RegisteredManifest(t: Tree, inodes: map<Ino, Inode>, hash: Manifest)
    ensures AsRegistered(t, inodes, hash) <==> ManifestOf(t, inodes) == hash
  {
    if ManifestOf(t, inodes) == hash {
      assert t.Keys == ManifestOf(t, inodes).Keys;
      forall p | p in hash
        ensures See(t[p], inodes) == hash[p]
      {
        assert ManifestOf(t, inodes)[p] == See(t[p], inodes);
      }
    }
  }

  class Volume {
    var trees: map<Place, Tree>
    var inodes: map<Ino, Inode>
    var next: Ino
    /** The link statistics of the snapshot being made. */
    var linked: nat
    var copied: nat

    ghost function Now(): Disk
      reads this
    {
      Disk(trees, inodes, next)
    }

    constructor ()
      ensures Sound(Now()) && Now() == Disk(map[], map[], 0)
    {
      trees, inodes, next, linked, copied := map[], map[], 0, 0, 0;
    }

    /** `copy2`: bytes and permission bits into a file of its own, which looks like the original and which no
        other path names; nothing else on the disk changes. */
    method Copy(i: Ino, at: Place, p: Path)
      requires Sound(Now()) && i in inodes && at in trees
      modifies this`trees, this`inodes, this`next
      ensures Now() == NewFile(old(Now()), at, p, old(inodes)[i].bytes, old(inodes)[i].writable)
      ensures Grows(old(Now()), Now(), at)
      ensures See(trees[at][p], inodes) == See(File(i), old(inodes)) && !HasOtherName(at, p)
    {
      inodes := inodes[next := Inode(inodes[i].bytes, inodes[i].writable, 0)];
      trees := trees[at := trees[at][p := File(next)]];
      next := next + 1;
    }

    /** `_link_or_copy`: `linkable` is the file system's answer to the link request. */
    method LinkOrCopy(i: Ino, at: Place, p: Path, linkable: bool) returns (shared: bool)
      requires Sound(Now()) && i in inodes && at in trees
      modifies this
      ensures shared == (!StillWriting(p) && linkable)
      ensures p != [] ==> (shared <==> linkable && !Unfinished(p[|p| - 1]))
      ensures Now() == if shared then Put(old(Now()), at, p, File(i))
                       else NewFile(old(Now()), at, p, old(inodes)[i].bytes, old(inodes)[i].writable)
      ensures linked == old(linked) + (if shared then 1 else 0) && copied == old(copied) + (if shared then 0 else 1)
    {
      if p != [] {
        EndingDecides(p);
      }
      if StillWriting(p) || !linkable {
        Copy(i, at, p);
        copied := copied + 1;
        return false;
      }
      trees := trees[at := trees[at][p := File(i)]];
      linked := linked + 1;
      return true;
    }

    /** One directory entry of `shutil.copytree`. */
    method CopyEntry(n: Node, at: Place, p: Path, linkable: bool) returns (shared: bool)
      requires Sound(Now()) && at in trees && (n.File? ==> n.ino in inodes)
      modifies this
      ensures shared == (n.File? && !StillWriting(p) && linkable)
      ensures Now() == Entry(old(Now()), n, at, p, shared)
    {
      if n.Folder? {
        trees := trees[at := trees[at][p := Folder]];
        return false;
      }
      shared := LinkOrCopy(n.ino, at, p, linkable);
    }

    /** One turn of the loop of `CopyTree`. */
    method CopyNext(ghost before: Disk, tree: Tree, ghost src: Place, at: Place, ghost done: set<Path>, linkable: set<Path>, p: Path)
      requires Sound(before) && src in before.trees && before.trees[src] == tree && p in tree && p !in done
      requires Copies(before, Now(), tree, at, done, LinkedAmong(tree, done, linkable))
      modifies this
      ensures Copies(before, Now(), tree, at, done + {p}, LinkedAmong(tree, done + {p}, linkable))
    {
      ghost var middle := Now();
      KeepsNode(before, middle, tree[p], at, src);
      var asLink := CopyEntry(tree[p], at, p, p in linkable);
      LinkedGrows(tree, done, linkable, p);
      CopyGrows(before, middle, tree, at, done, LinkedAmong(tree, done, linkable), p, asLink);
    }

    /** `shutil.copytree` with links: `linkable` says which paths the file system agrees to link. */
    method CopyTree(src: Place, at: Place, linkable: set<Path>)
      requires Sound(Now()) && src in trees && at !in trees
      modifies this
      ensures var tree := old(trees)[src];
              Copies(old(Now()), Now(), tree, at, KeptPaths(tree), LinkedAmong(tree, KeptPaths(tree), linkable))
    {
      ghost var before := Now();
      var tree := trees[src];
      trees := trees[at := map[]];
      linked, copied := 0, 0;
      var todo := KeptPaths(tree);
      ghost var done: set<Path> := {};
      while todo != {}
        invariant done !! todo && done + todo == KeptPaths(tree)
        invariant Copies(before, Now(), tree, at, done, LinkedAmong(tree, done, linkable))
      {
        var p :| p in todo;
        CopyNext(before, tree, src, at, done, linkable, p);
        todo := todo - {p};
        done := done + {p};
      }
      assert done == KeptPaths(tree);
    }

    /** `_stabilize_env_db`: the copy of the database is unlinked first and rebuilt as a file of its own;
        `backup` is what SQLite's backup produces. */
    method StabilizeEnvDb(src: Place, at: Place, backup: Bytes)
      requires Sound(Now()) && src in trees && at in trees && src != at
      modifies this`trees, this`inodes, this`next
      ensures Grows(old(Now()), Now(), at)
      ensures !HasDatabase(old(trees)[src]) ==> Now() == old(Now())
      ensures HasDatabase(old(trees)[src]) ==>
                trees[at] == (old(trees)[at] - {ENV_DB})[ENV_DB := File(old(next))] - SIDECARS &&
                old(next) in inodes && inodes[old(next)].bytes == backup
    {
      if !(ENV_DB in trees[src] && trees[src][ENV_DB].File?) {
        return;
      }
      trees := trees[at := trees[at] - {ENV_DB}];
      inodes := inodes[next := Inode(backup, true, 0)];
      trees := trees[at := trees[at][ENV_DB := File(next)]];
      next := next + 1;
      trees := trees[at := trees[at] - SIDECARS];
    }

    /** Whether a file of the copy has another name: `st_nlink >= 2`. */
    predicate HasOtherName(at: Place, p: Path)
      requires at in trees && p in trees[at]
      reads this
    {
      exists other, q | other in trees && q in trees[other] :: (other, q) != (at, p) && trees[other][q] == trees[at][p]
    }

    /** First half of `_break_links_for_mutating_files`: remember the files that have another name. */
    method ObserveLinks(at: Place) returns (seen: map<Path, nat>)
      requires Sound(Now()) && at in trees
      ensures forall p :: p in seen <==> p in trees[at] && trees[at][p].File? && HasOtherName(at, p)
      ensures forall p :: p in seen ==> seen[p] == inodes[trees[at][p].ino].writes
    {
      seen := map[];
      var todo := trees[at].Keys;
      while todo != {}
        invariant todo <= trees[at].Keys
        invariant forall p :: p in seen <==> p in trees[at] && p !in todo && trees[at][p].File? && HasOtherName(at, p)
        invariant forall p :: p in seen ==> seen[p] == inodes[trees[at][p].ino].writes
      {
        var p :| p in todo;
        if trees[at][p].File? && HasOtherName(at, p) {
          seen := seen[p := inodes[trees[at][p].ino].writes];
        }
        todo := todo - {p};
      }
    }

    method BreakLink(at: Place, p: Path, stamp: nat) returns (broken: bool)
      requires Sound(Now()) && at in trees && p in trees[at] && trees[at][p].File? && trees[at][p].ino in inodes
      modifies this
      ensures broken == (stamp != old(inodes)[old(trees)[at][p].ino].writes)
      ensures Now() == if broken then Entry(old(Now()), old(trees)[at][p], at, p, false) else old(Now())
    {
      var i := trees[at][p].ino;
      broken := stamp != inodes[i].writes;
      if broken {
        Copy(i, at, p);
        linked := if linked > 0 then linked - 1 else 0;
        copied := copied + 1;
      }
    }

    /** Second half: a file that changed since gets its own copy. */
    method BreakLinks(at: Place, seen: map<Path, nat>)
      requires Sound(Now()) && at in trees
      requires forall p :: p in seen ==> p in trees[at] && trees[at][p].File?
      modifies this
      ensures Unlinked(old(Now()), Now(), at, Changed(old(Now()), at, seen))
    {
      ghost var before := Now();
      ghost var changed := Changed(before, at, seen);
      var todo := seen.Keys;
      ghost var done: set<Path> := {};
      while todo != {}
        invariant todo <= seen.Keys && done == changed - todo
        invariant Unlinked(before, Now(), at, done)
      {
        var p :| p in todo;
        ghost var middle := Now();
        Untouched(before, middle, at, done, p);
        var broken := BreakLink(at, p, seen[p]);
        if broken {
          UnlinkGrows(before, middle, at, done, p);
        }
        todo := todo - {p};
        done := if broken then done + {p} else done;
      }
      assert done == changed;
    }

    /** What the platform's own processing still writes into the attempt. */
    method WriteWindow(src: Place, window: seq<(Path, Bytes)>)
      requires src in trees
      modifies this`inodes
      ensures Now() == WriteAll(old(Now()), old(trees)[src], window)
    {
      ghost var before := Now();
      var tree := trees[src];
      var k := 0;
      while k < |window|
        invariant 0 <= k <= |window| && trees == before.trees && next == before.next
        invariant WriteAll(Now(), tree, window[k..]) == WriteAll(before, tree, window)
      {
        var (p, bytes) := window[k];
        assert window[k..][0] == window[k] && window[k..][1..] == window[k + 1..];
        if p in tree && tree[p].File? && tree[p].ino in inodes {
          var i := tree[p].ino;
          inodes := inodes[i := inodes[i].(bytes := bytes, writes := inodes[i].writes + 1)];
        }
        k := k + 1;
      }
    }

    /** One chmod per file, on the shared inode. */
    method ChmodTree(at: Place, writable: bool)
      requires at in trees
      modifies this`inodes
      ensures Now() == ChmodAll(old(Now()), InodesOf(trees[at]), writable)
    {
      ghost var before := Now();
      var tree := trees[at];
      var todo := tree.Keys;
      ghost var files: set<Ino> := {};
      while todo != {}
        invariant todo <= tree.Keys && trees == before.trees && next == before.next
        invariant files == set p | p in tree && p !in todo && tree[p].File? :: tree[p].ino
        invariant Now() == ChmodAll(before, files, writable)
      {
        var p :| p in todo;
        if tree[p].File? {
          var i := tree[p].ino;
          if i in inodes {
            inodes := inodes[i := inodes[i].(writable := writable)];
          }
          files := files + {i};
        }
        todo := todo - {p};
      }
    }

    /** `_remove_tree`: makes every file writable first, also those it shares with other trees. */
    method RemoveTree(at: Place)
      modifies this`trees, this`inodes
      ensures at !in old(trees) ==> Now() == old(Now())
      ensures at in old(trees) ==> Now() == ChmodAll(old(Now()), InodesOf(old(trees)[at]), true).(trees := old(trees) - {at})
    {
      if at !in trees {
        return;
      }
      ChmodTree(at, true);
      trees := trees - {at};
    }

    /** `_tree_manifest`: one entry per path. */
    method TreeManifest(at: Place) returns (entries: Manifest)
      requires at in trees
      ensures entries == ManifestOf(trees[at], inodes)
    {
      var tree := trees[at];
      var todo := tree.Keys;
      entries := map[];
      while todo != {}
        invariant todo <= tree.Keys
        invariant entries == map p | p in tree && p !in todo :: See(tree[p], inodes)
      {
        var p :| p in todo;
        entries := entries[p := See(tree[p], inodes)];
        todo := todo - {p};
      }
    }

    /** `verify_scoring_snapshot` for the snapshot registered under `hash`: it passes exactly if the published
        tree has the registered paths, no more and no less, and every file its registered bytes. */
    method Verify(hash: Manifest) returns (ok: bool)
      ensures ok <==> Published(hash) in trees && AsRegistered(trees[Published(hash)], inodes, hash)
      ensures ok <==> Published(hash) in trees && ManifestOf(trees[Published(hash)], inodes) == hash
    {
      if Published(hash) !in trees {
        return false;
      }
      var actual := TreeManifest(Published(hash));
      RegisteredManifest(trees[Published(hash)], inodes, hash);
      ok := actual == hash;
    }

    /** Copy, rebuild the database, break the links of files that still change. */
    method Freeze(id: nat, at: Place, linkable: set<Path>, window: seq<(Path, Bytes)>, backup: Bytes)
      requires Sound(Now()) && AttemptDir(id) in trees && at !in trees
      modifies this
      ensures at in trees && Sound(Now()) && trees == old(trees)[at := trees[at]]
      ensures OldFiles(old(Now()), Now(), old(trees)[AttemptDir(id)], window, {}, {})
      ensures SharesExactly(old(Now()), old(trees)[AttemptDir(id)], trees[at], window, linkable)
      ensures FrozenManifest(old(Now()), old(trees)[AttemptDir(id)], window, backup, ManifestOf(trees[at], inodes))
    {
      ghost var d0, src := Now(), trees[AttemptDir(id)];
      CopyTree(AttemptDir(id), at, linkable);
      ghost var shared := LinkedAmong(src, KeptPaths(src), linkable);
      ghost var d1 := Now();
      StabilizeEnvDb(AttemptDir(id), at, backup);
      ghost var d2 := Now();
      var seen := ObserveLinks(at);
      WriteWindow(AttemptDir(id), window);
      ghost var d3 := Now();
      WriteAllReaches(d2, src, window);
      BreakLinks(at, seen);
      FreezeKeepsOld(d0, d1, d2, d3, Now(), src, at, window);
      FreezeShares(d0, d1, d2, d3, Now(), src, AttemptDir(id), at, window, linkable, shared, seen);
      FreezeContent(d0, d1, d2, d3, Now(), src, at, window, backup, shared, Changed(d3, at, seen));
    }

    /** `create_scoring_snapshot`.  `made` is the tree built in the temporary place; `window` is what others
        write into the attempt while links are observed, `late` what they write between the hashing and the
        final verification. */
    method CreateSnapshot(id: nat, n: nat, linkable: set<Path>, window: seq<(Path, Bytes)>, late: seq<(Path, Bytes)>, backup: Bytes)
      returns (r: Outcome, ghost made: Tree)
      requires Sound(Now()) && Temporary(n) !in trees
      modifies this
      ensures Sound(Now())
      ensures r.Missing? <==> AttemptDir(id) !in old(trees)
      ensures r.Missing? ==> Now() == old(Now())
      ensures !r.Missing? ==>
                && Snapshotted(old(Now()), Now(), id, window, late, linkable, made, r.hash)
                && FrozenManifest(old(Now()), old(trees)[AttemptDir(id)], window, backup, r.hash)
                && TakesDeliverables(old(trees)[AttemptDir(id)], made)
                && LinksOnlyFinished(old(Now()), old(trees)[AttemptDir(id)], made, window, linkable)
      ensures r.Frozen? <==> !r.Missing? && ManifestOf(trees[Published(r.hash)], inodes) == r.hash
      ensures r.Mismatch? ==> Published(r.hash) in old(trees) || !(InodesOf(made) !! Targets(old(trees)[AttemptDir(id)], late))
      ensures r.Frozen? && Published(r.hash) !in old(trees) ==> forall i :: i in InodesOf(made) ==> i in inodes && !inodes[i].writable
    {
      if AttemptDir(id) !in trees {
        made := map[];
        return Missing, made;
      }
      ghost var src := trees[AttemptDir(id)];
      ghost var d0 := Now();
      made, r := Publish(id, n, linkable, window, backup);
      ghost var placed := Now();
      WriteWindow(AttemptDir(id), late);
      LateSnapshot(d0, placed, id, window, late, linkable, made, r.hash);
      assert TakesDeliverables(src, made) && LinksOnlyFinished(d0, src, made, window, linkable) by {
        DeliverablesTaken(src, made);
        FinishedLinked(d0, src, made, window, linkable);
      }
      assert InodesOf(made) !! Targets(src, late) && Published(r.hash) !in d0.trees ==> ManifestOf(made, inodes) == r.hash by {
        if InodesOf(made) !! Targets(src, late) && Published(r.hash) !in d0.trees {
          LateMatch(placed, src, late, made);
        }
      }
      var ok := Verify(r.hash);
      r := if ok then Frozen(r.hash) else Mismatch(r.hash);
    }

    /** Everything before the final verification: freeze, hash, make read-only, publish. */
    method Publish(id: nat, n: nat, linkable: set<Path>, window: seq<(Path, Bytes)>, backup: Bytes) returns (ghost made: Tree, r: Outcome)
      requires Sound(Now()) && AttemptDir(id) in trees && Temporary(n) !in trees
      modifies this
      ensures r.Frozen? && Snapshotted(old(Now()), Now(), id, window, [], linkable, made, r.hash)
      ensures FrozenManifest(old(Now()), old(trees)[AttemptDir(id)], window, backup, r.hash)
      ensures Published(r.hash) !in old(trees) ==>
                && ManifestOf(made, inodes) == r.hash
                && forall i :: i in InodesOf(made) ==> i in inodes && !inodes[i].writable
    {
      var at := Temporary(n);
      ghost var d0 := Now();
      Freeze(id, at, linkable, window, backup);
      made := trees[at];
      var hash := TreeManifest(at);
      var destination := Published(hash);
      ghost var frozen := Now();
      ChmodTree(at, false);
      ChmodKeepsManifests(frozen, InodesOf(made), false);
      if destination in trees {
        ghost var middle := Now();
        ChmodKeepsManifests(middle, InodesOf(made), true);
        RemoveTree(at);
        assert trees == d0.trees;
      } else {
        trees := (trees - {at})[destination := trees[at]];
        assert trees == d0.trees[destination := made];
      }
      assert window + [] == window;
      r := Frozen(hash);
    }

    /** One turn of the loop of `Materialize`. */
    method UnpackNext(ghost before: Disk, tree: Tree, ghost src: Place, at: Place, ghost done: set<Path>, p: Path)
      requires Sound(before) && src in before.trees && before.trees[src] == tree && p in tree && p !in done
      requires Copies(before, Now(), tree, at, done, {})
      modifies this
      ensures Copies(before, Now(), tree, at, done + {p}, {})
    {
      ghost var middle := Now();
      KeepsNode(before, middle, tree[p], at, src);
      if tree[p].Folder? {
        trees := trees[at := trees[at][p := Folder]];
      } else {
        Copy(tree[p].ino, at, p);
      }
      CopyGrows(before, middle, tree, at, done, {}, p, false);
    }

    /** `materialize_scoring_input`: a private, writable copy of the snapshot. */
    method Materialize(hash: Manifest, job: nat) returns (ok: bool)
      requires Sound(Now())
      modifies this
      ensures Sound(Now())
      ensures ok <==> Published(hash) in old(trees) && ManifestOf(old(trees)[Published(hash)], old(inodes)) == hash
      ensures !ok ==> Now() == old(Now())
      ensures ok ==> Unpacked(old(Now()), Now(), hash, job)
    {
      ok := Verify(hash);
      if !ok {
        return;
      }
      ghost var before := Now();
      RemoveTree(Work(job));
      ghost var cleared := Now();
      trees := trees[Work(job) := map[]];
      var tree := trees[Published(hash)];
      var todo := tree.Keys;
      ghost var done: set<Path> := {};
      while todo != {}
        invariant done !! todo && done + todo == tree.Keys
        invariant Copies(cleared, Now(), tree, Work(job), done, {})
      {
        var p :| p in todo;
        UnpackNext(cleared, tree, Published(hash), Work(job), done, p);
        todo := todo - {p};
        done := done + {p};
      }
      assert done == tree.Keys;
      ghost var copied := Now();
      ChmodTree(Work(job), true);
      UnpackedWhole(before, cleared, copied, Now(), hash, job);
    }
  }

  lemma DeliverablesTaken(src: Tree, made: Tree)
    requires made.Keys == FrozenPaths(src)
    ensures TakesDeliverables(src, made)
  {
    assert forall p :: p in made <==> p in FrozenPaths(src);
  }

  lemma SharingDecided(before: Disk, src: Tree, made: Tree, window: seq<(Path, Bytes)>, linkable: set<Path>, p: Path)
    requires made.Keys == FrozenPaths(src) && SharesExactly(before, src, made, window, linkable) && p in made
    ensures DecidedByName(before, src, made, window, linkable, p)
  {
    assert p in FrozenPaths(src) && p in src;
    EndingDecides(p);
    if src[p].File? {
      WindowTargets(src, window, p);
    }
  }

  /** The tree of a new snapshot links by the names of its files. */
  lemma FinishedLinked(before: Disk, src: Tree, made: Tree, window: seq<(Path, Bytes)>, linkable: set<Path>)
    requires made.Keys == FrozenPaths(src) && SharesExactly(before, src, made, window, linkable)
    ensures LinksOnlyFinished(before, src, made, window, linkable)
  {
    forall p | p in made
      ensures DecidedByName(before, src, made, window, linkable, p)
    {
      SharingDecided(before, src, made, window, linkable, p);
    }
    DecidedByNameIsEnough(before, src, made, window, linkable);
  }

  /** The disk after a snapshot: `made` is published under its hash unless an identical one was published
      before; then the temporary tree is dropped, which makes its files writable. */
  predicate Snapshotted(d: Disk, e: Disk, id: nat, window: seq<(Path, Bytes)>, late: seq<(Path, Bytes)>, linkable: set<Path>,
                        made: Tree, hash: Manifest) {
    && Sound(e) && AttemptDir(id) in d.trees
    && var src := d.trees[AttemptDir(id)];
    && made.Keys == FrozenPaths(src) && SharesExactly(d, src, made, window, linkable)
    && if Published(hash) in d.trees
       then e.trees == d.trees && OldFiles(d, e, src, window + late, InodesOf(made), {})
       else e.trees == d.trees[Published(hash) := made] && OldFiles(d, e, src, window + late, {}, InodesOf(made))
  }

  /** The disk `e` has the files of `d`, possibly with other permissions. */
  predicate AgreeOnBytes(d: Disk, e: Disk) {
    forall i :: i in d.inodes ==> i in e.inodes && e.inodes[i].(writable := d.inodes[i].writable) == d.inodes[i]
  }

  lemma {:induction false} WriteAllOnBytes(d: Disk, e: Disk, t: Tree, writes: seq<(Path, Bytes)>)
    requires AgreeOnBytes(d, e)
    ensures AgreeOnBytes(WriteAll(d, t, writes), WriteAll(e, t, writes))
    decreases |writes|
  {
    if writes != [] {
      var (p, bytes) := writes[0];
      if p in t && t[p].File? {
        assert AgreeOnBytes(Write(d, t[p].ino, bytes), Write(e, t[p].ino, bytes));
        WriteAllOnBytes(Write(d, t[p].ino, bytes), Write(e, t[p].ino, bytes), t, writes[1..]);
      } else {
        WriteAllOnBytes(d, e, t, writes[1..]);
      }
    }
  }

  lemma {:induction false} WriteAllJoins(d: Disk, t: Tree, first: seq<(Path, Bytes)>, second: seq<(Path, Bytes)>)
    ensures WriteAll(d, t, first + second) == WriteAll(WriteAll(d, t, first), t, second)
    decreases |first|
  {
    if first == [] {
      assert first + second == second;
    } else {
      var (p, bytes) := first[0];
      assert (first + second)[0] == first[0] && (first + second)[1..] == first[1..] + second;
      WriteAllJoins(if p in t && t[p].File? then Write(d, t[p].ino, bytes) else d, t, first[1..], second);
    }
  }

  /** More writes on top of a disk whose old files are known. */
  lemma LateOldFiles(before: Disk, placed: Disk, src: Tree, window: seq<(Path, Bytes)>, late: seq<(Path, Bytes)>, thawed: set<Ino>, chilled: set<Ino>)
    requires OldFiles(before, placed, src, window, thawed, chilled)
    ensures OldFiles(before, WriteAll(placed, src, late), src, window + late, thawed, chilled)
  {
    var d := WriteAll(before, src, window);
    WriteAllReaches(before, src, window);
    WriteAllReaches(d, src, late);
    WriteAllReaches(placed, src, late);
    WriteAllJoins(before, src, window, late);
    assert AgreeOnBytes(d, placed);
    WriteAllOnBytes(d, placed, src, late);
  }

  lemma LateSnapshot(d: Disk, placed: Disk, id: nat, window: seq<(Path, Bytes)>, late: seq<(Path, Bytes)>, linkable: set<Path>, made: Tree, hash: Manifest)
    requires Snapshotted(d, placed, id, window, [], linkable, made, hash)
    ensures Snapshotted(d, WriteAll(placed, d.trees[AttemptDir(id)], late), id, window, late, linkable, made, hash)
    ensures !(Published(hash) in d.trees) ==> forall i :: i in InodesOf(made) && i in placed.inodes ==>
              i in WriteAll(placed, d.trees[AttemptDir(id)], late).inodes &&
              WriteAll(placed, d.trees[AttemptDir(id)], late).inodes[i].writable == placed.inodes[i].writable
  {
    var src := d.trees[AttemptDir(id)];
    assert window + [] == window;
    WriteAllReaches(placed, src, late);
    if Published(hash) in d.trees {
      LateOldFiles(d, placed, src, window, late, InodesOf(made), {});
    } else {
      LateOldFiles(d, placed, src, window, late, {}, InodesOf(made));
    }
  }

  lemma LateMatch(placed: Disk, src: Tree, late: seq<(Path, Bytes)>, made: Tree)
    requires InodesOf(made) !! Targets(src, late)
    ensures ManifestOf(made, WriteAll(placed, src, late).inodes) == ManifestOf(made, placed.inodes)
  {
    WriteAllReaches(placed, src, late);
    UnwrittenManifest(placed, WriteAll(placed, src, late), made);
  }

  /** A tree none of whose files was written looks as before. */
  lemma UnwrittenManifest(d: Disk, e: Disk, t: Tree)
    requires e.inodes.Keys == d.inodes.Keys && forall i :: i in InodesOf(t) && i in d.inodes ==> e.inodes[i] == d.inodes[i]
    ensures ManifestOf(t, e.inodes) == ManifestOf(t, d.inodes)
  {
    forall p | p in t
      ensures See(t[p], e.inodes) == See(t[p], d.inodes)
    {
      assert t[p].File? ==> t[p].ino in InodesOf(t);
    }
  }

  lemma ChmodKeepsManifests(d: Disk, files: set<Ino>, writable: bool)
    ensures forall t :: ManifestOf(t, ChmodAll(d, files, writable).inodes) == ManifestOf(t, d.inodes)
  {
  }

  /** The state after unpacking: a new work tree of new writable files that looks like the snapshot; no
      other tree changed, nor any file except that an earlier work tree of the job was made writable. */
  predicate Unpacked(before: Disk, after: Disk, hash: Manifest, job: nat) {
    && Work(job) in after.trees && after.trees == before.trees[Work(job) := after.trees[Work(job)]]
    && ManifestOf(after.trees[Work(job)], after.inodes) == hash
    && before.next <= after.next
    && (forall i :: i in InodesOf(after.trees[Work(job)]) ==> before.next <= i && i in after.inodes && after.inodes[i].writable)
    && (forall i :: i in before.inodes ==>
          i in after.inodes && if Work(job) in before.trees && i in InodesOf(before.trees[Work(job)])
                               then after.inodes[i] == before.inodes[i].(writable := true)
                               else after.inodes[i] == before.inodes[i])
  }

  lemma UnpackedWhole(before: Disk, cleared: Disk, copied: Disk, after: Disk, hash: Manifest, job: nat)
    requires Sound(before) && Published(hash) in before.trees && ManifestOf(before.trees[Published(hash)], before.inodes) == hash
    requires cleared == if Work(job) !in before.trees then before
                        else ChmodAll(before, InodesOf(before.trees[Work(job)]), true).(trees := before.trees - {Work(job)})
    requires var tree := before.trees[Published(hash)]; Copies(cleared, copied, tree, Work(job), tree.Keys, {})
    requires after == ChmodAll(copied, InodesOf(copied.trees[Work(job)]), true)
    ensures Unpacked(before, after, hash, job) && Sound(after)
  {
    var tree, t := before.trees[Published(hash)], after.trees[Work(job)];
    forall p | p in t
      ensures See(t[p], after.inodes) == hash[p]
      ensures t[p].File? ==> before.next <= t[p].ino && t[p].ino in after.inodes
    {
      assert Made(cleared, copied, tree[p], t[p], p in {});
      assert See(tree[p], before.inodes) == hash[p];
    }
    assert ManifestOf(t, after.inodes).Keys == hash.Keys;
    assert after.trees == before.trees[Work(job) := t];
  }

  lemma Untouched(before: Disk, after: Disk, at: Place, broken: set<Path>, p: Path)
    requires Sound(before) && Unlinked(before, after, at, broken) && p in before.trees[at] && p !in broken
    ensures after.trees[at][p] == before.trees[at][p]
    ensures after.trees[at][p].File? ==>
              after.trees[at][p].ino in before.inodes && after.trees[at][p].ino in after.inodes &&
              after.inodes[after.trees[at][p].ino] == before.inodes[after.trees[at][p].ino]
  {
    assert Broken(before, after, at, p, false);
  }

  /** The paths whose file was written since it was observed. */
  function Changed(d: Disk, at: Place, seen: map<Path, nat>): set<Path> {
    set p | p in seen && at in d.trees && p in d.trees[at] && d.trees[at][p].File? && d.trees[at][p].ino in d.inodes &&
            d.inodes[d.trees[at][p].ino].writes != seen[p]
  }

  /** What `CopyEntry` does to the disk. */
  function Entry(d: Disk, n: Node, at: Place, p: Path, shared: bool): Disk {
    if n.Folder? || shared then Put(d, at, p, n)
    else if n.ino !in d.inodes then d
    else NewFile(d, at, p, d.inodes[n.ino].bytes, d.inodes[n.ino].writable)
  }

  lemma KeepsNode(before: Disk, after: Disk, n: Node, at: Place, src: Place)
    requires Sound(before) && Grows(before, after, at) && src in before.trees && n in before.trees[src].Values
    ensures n.File? ==> n.ino in before.inodes && n.ino in after.inodes
  {
  }

  /** One more path copied. */
  lemma CopyGrows(d0: Disk, d1: Disk, src: Tree, at: Place, done: set<Path>, shared: set<Path>, p: Path, asLink: bool)
    requires Sound(d0) && Copies(d0, d1, src, at, done, shared) && p in src && p !in done
    requires src[p].File? ==> src[p].ino in d0.inodes
    requires asLink ==> src[p].File? && !StillWriting(p)
    ensures Copies(d0, Entry(d1, src[p], at, p, asLink), src, at, done + {p}, if asLink then shared + {p} else shared)
  {
    var d2 := Entry(d1, src[p], at, p, asLink);
    EntryGrows(d0, d1, at, src[p], p, asLink);
    assert p !in shared;
    forall q | q in done
      ensures d2.trees[at][q] == d1.trees[at][q]
      ensures Made(d0, d2, src[q], d2.trees[at][q], q in shared)
    {
      assert Made(d0, d1, src[q], d1.trees[at][q], q in shared);
    }
  }

  lemma EntryGrows(d0: Disk, d1: Disk, at: Place, n: Node, p: Path, asLink: bool)
    requires Grows(d0, d1, at) && (n.File? ==> n.ino in d0.inodes)
    ensures Grows(d0, Entry(d1, n, at, p, asLink), at)
  {
    var d2 := Entry(d1, n, at, p, asLink);
    assert d2.trees == d0.trees[at := d2.trees[at]];
  }

  /** The tree at `at` after the files at `broken` were replaced by copies of their own. */
  predicate Unlinked(before: Disk, after: Disk, at: Place, broken: set<Path>) {
    && Grows(before, after, at) && at in before.trees && after.trees[at].Keys == before.trees[at].Keys
    && (forall p :: p in before.trees[at] ==> Broken(before, after, at, p, p in broken))
  }

  lemma UnlinkGrows(d0: Disk, d1: Disk, at: Place, broken: set<Path>, p: Path)
    requires Sound(d0) && Unlinked(d0, d1, at, broken) && p in d0.trees[at] && p !in broken && d0.trees[at][p].File?
    ensures var n := d0.trees[at][p];
            n.ino in d1.inodes && Unlinked(d0, Entry(d1, n, at, p, false), at, broken + {p})
  {
    var n := d0.trees[at][p];
    var d2 := Entry(d1, n, at, p, false);
    EntryGrows(d0, d1, at, n, p, false);
    forall q | q in d0.trees[at]
      ensures Broken(d0, d2, at, q, q in broken + {p})
    {
      assert Broken(d0, d1, at, q, q in broken);
    }
  }

  /** A file of the copy after link breaking: untouched, or replaced by a new file with the same bytes. */
  predicate Broken(before: Disk, after: Disk, at: Place, p: Path, broken: bool) {
    && at in before.trees && at in after.trees && p in before.trees[at] && p in after.trees[at]
    && var (was, now) := (before.trees[at][p], after.trees[at][p]);
    if broken then was.File? && now.File? && before.next <= now.ino && See(now, after.inodes) == See(was, before.inodes)
    else now == was
  }

  /** The files that existed before: the window wrote them, and `thawed` ones may be written from now
      on, `chilled` ones not. */
  predicate OldFiles(before: Disk, after: Disk, src: Tree, window: seq<(Path, Bytes)>, thawed: set<Ino>, chilled: set<Ino>) {
    && before.next <= after.next
    && forall i :: i in before.inodes ==>
         && i in after.inodes && i in WriteAll(before, src, window).inodes
         && after.inodes[i] == WriteAll(before, src, window).inodes[i].(
              writable := if i in thawed then true else if i in chilled then false else before.inodes[i].writable)
  }

  /** The files of `d` are on `e` too, as they are. */
  predicate Agree(d: Disk, e: Disk) {
    forall i :: i in d.inodes ==> i in e.inodes && e.inodes[i] == d.inodes[i]
  }

  lemma WriteAgrees(d: Disk, e: Disk, i: Ino, bytes: Bytes)
    requires Agree(d, e)
    ensures Agree(Write(d, i, bytes), Write(e, i, bytes)) && Write(d, i, bytes).inodes.Keys == d.inodes.Keys
  {
  }

  /** The same writes reach the same old files, whatever else is on the disk. */
  lemma {:induction false} WriteAllAgrees(d: Disk, e: Disk, t: Tree, writes: seq<(Path, Bytes)>)
    requires Agree(d, e)
    ensures Agree(WriteAll(d, t, writes), WriteAll(e, t, writes)) && WriteAll(d, t, writes).inodes.Keys == d.inodes.Keys
    decreases |writes|
  {
    if writes != [] {
      var (p, bytes) := writes[0];
      if p in t && t[p].File? {
        WriteAgrees(d, e, t[p].ino, bytes);
        WriteAllAgrees(Write(d, t[p].ino, bytes), Write(e, t[p].ino, bytes), t, writes[1..]);
      } else {
        WriteAllAgrees(d, e, t, writes[1..]);
      }
    }
  }

  /** The steps of `Freeze`, one after the other. */
  predicate Stages(d0: Disk, d1: Disk, d2: Disk, d3: Disk, d4: Disk, src: Tree, at: Place, window: seq<(Path, Bytes)>) {
    && Sound(d0) && at !in d0.trees && src in d0.trees.Values
    && Grows(d0, d1, at) && Grows(d1, d2, at) && d3 == WriteAll(d2, src, window) && Grows(d3, d4, at)
  }

  lemma FreezeKeepsOld(d0: Disk, d1: Disk, d2: Disk, d3: Disk, d4: Disk, src: Tree, at: Place, window: seq<(Path, Bytes)>)
    requires Stages(d0, d1, d2, d3, d4, src, at, window)
    ensures OldFiles(d0, d4, src, window, {}, {}) && d4.trees == d0.trees[at := d4.trees[at]]
  {
    WriteAllReaches(d2, src, window);
    WriteAllReaches(d0, src, window);
    WriteAllAgrees(d0, d2, src, window);
  }

  lemma FreezeShares(d0: Disk, d1: Disk, d2: Disk, d3: Disk, d4: Disk, src: Tree, from: Place, at: Place,
                     window: seq<(Path, Bytes)>, linkable: set<Path>, shared: set<Path>, seen: map<Path, nat>)
    requires Stages(d0, d1, d2, d3, d4, src, at, window) && from != at && from in d0.trees && d0.trees[from] == src
    requires Copies(d0, d1, src, at, KeptPaths(src), shared)
    requires shared == LinkedAmong(src, KeptPaths(src), linkable)
    requires HasDatabase(src) ==> d2.trees[at] == (d1.trees[at] - {ENV_DB})[ENV_DB := File(d1.next)] - SIDECARS
    requires !HasDatabase(src) ==> d2 == d1
    requires forall p :: p in seen <==>
               (p in d2.trees[at] && d2.trees[at][p].File? &&
                exists other, q | other in d2.trees && q in d2.trees[other] :: (other, q) != (at, p) && d2.trees[other][q] == d2.trees[at][p])
    requires forall p :: p in seen ==> d2.trees[at][p].ino in d2.inodes && seen[p] == d2.inodes[d2.trees[at][p].ino].writes
    requires Unlinked(d3, d4, at, Changed(d3, at, seen))
    ensures SharesExactly(d0, src, d4.trees[at], window, linkable)
  {
    WriteAllReaches(d2, src, window);
    var t := d4.trees[at];
    forall p | p in t
      ensures p in src && (t[p].File? <==> src[p].File?)
    {
      assert Broken(d3, d4, at, p, p in Changed(d3, at, seen));
      assert d3.trees[at][p] == d2.trees[at][p];
      if p != ENV_DB {
        assert d2.trees[at][p] == d1.trees[at][p];
      }
      assert p in KeptPaths(src) ==> Made(d0, d1, src[p], d1.trees[at][p], p in shared);
    }
    forall p | p in t && t[p].File?
      ensures t[p].ino < d0.next <==> SharedPath(src, window, linkable, p)
      ensures t[p].ino < d0.next ==> t[p] == src[p]
    {
      assert Broken(d3, d4, at, p, p in Changed(d3, at, seen));
      assert d3.trees[at][p] == d2.trees[at][p];
      if p != ENV_DB {
        assert d2.trees[at][p] == d1.trees[at][p];
        assert Made(d0, d1, src[p], d1.trees[at][p], p in shared);
        if p in shared {
          assert from in d2.trees && d2.trees[from] == src && p in d2.trees[from];
          assert (from, p) != (at, p) && d2.trees[from][p] == d2.trees[at][p];
          assert p in seen;
          assert p in Changed(d3, at, seen) <==> src[p].ino in Targets(src, window);
        }
      } else if !HasDatabase(src) {
        assert Made(d0, d1, src[p], d1.trees[at][p], p in shared);
      }
    }
  }

  /** The entries of the copy before link breaking. */
  lemma CopiedContent(d0: Disk, d1: Disk, d2: Disk, d3: Disk, src: Tree, at: Place,
                      window: seq<(Path, Bytes)>, shared: set<Path>, p: Path)
    requires Sound(d0) && src in d0.trees.Values && Grows(d0, d1, at) && Grows(d1, d2, at) && d3 == WriteAll(d2, src, window)
    requires p in src && p in d1.trees[at] && Made(d0, d1, src[p], d1.trees[at][p], p in shared)
    ensures See(d1.trees[at][p], d3.inodes) in {See(src[p], d0.inodes), See(src[p], WriteAll(d0, src, window).inodes)}
  {
    WriteAllReaches(d2, src, window);
    WriteAllAgrees(d0, d2, src, window);
    assert Targets(src, window) <= d0.inodes.Keys;
  }

  lemma FreezeContent(d0: Disk, d1: Disk, d2: Disk, d3: Disk, d4: Disk, src: Tree, at: Place,
                      window: seq<(Path, Bytes)>, backup: Bytes, shared: set<Path>, changed: set<Path>)
    requires Stages(d0, d1, d2, d3, d4, src, at, window)
    requires Copies(d0, d1, src, at, KeptPaths(src), shared)
    requires HasDatabase(src) ==>
               d2.trees[at] == (d1.trees[at] - {ENV_DB})[ENV_DB := File(d1.next)] - SIDECARS &&
               d1.next in d2.inodes && d2.inodes[d1.next].bytes == backup
    requires !HasDatabase(src) ==> d2 == d1
    requires Unlinked(d3, d4, at, changed)
    ensures FrozenManifest(d0, src, window, backup, ManifestOf(d4.trees[at], d4.inodes))
  {
    var hash := ManifestOf(d4.trees[at], d4.inodes);
    assert d3.trees == d2.trees by {
      WriteAllReaches(d2, src, window);
    }
    FrozenKeys(d1, d2, src, at);
    assert hash.Keys == FrozenPaths(src);
    forall p | p in hash
      ensures FrozenEntry(d0, src, window, backup, p, hash[p])
    {
      assert Broken(d3, d4, at, p, p in changed);
      assert hash[p] == See(d2.trees[at][p], d3.inodes) by {
        WriteAllReaches(d2, src, window);
      }
      if p == ENV_DB && HasDatabase(src) {
        FreshDatabase(d0, d1, d2, src, at, window);
      } else {
        assert d2.trees[at][p] == d1.trees[at][p] && p in src;
        CopiedContent(d0, d1, d2, d3, src, at, window, shared, p);
      }
    }
  }

  lemma FrozenKeys(d1: Disk, d2: Disk, src: Tree, at: Place)
    requires at in d1.trees && at in d2.trees && d1.trees[at].Keys == KeptPaths(src)
    requires HasDatabase(src) ==> d2.trees[at] == (d1.trees[at] - {ENV_DB})[ENV_DB := File(d1.next)] - SIDECARS
    requires !HasDatabase(src) ==> d2 == d1
    ensures d2.trees[at].Keys == FrozenPaths(src)
  {
    if HasDatabase(src) {
      assert Kept(ENV_DB);
      assert ENV_DB in KeptPaths(src) && ENV_DB !in SIDECARS;
    }
  }

  /** No write of the window reaches the rebuilt database. */
  lemma FreshDatabase(d0: Disk, d1: Disk, d2: Disk, src: Tree, at: Place, window: seq<(Path, Bytes)>)
    requires Sound(d0) && src in d0.trees.Values && Grows(d0, d1, at) && Grows(d1, d2, at) && d1.next in d2.inodes
    ensures d1.next in WriteAll(d2, src, window).inodes
    ensures WriteAll(d2, src, window).inodes[d1.next] == d2.inodes[d1.next]
  {
    WriteAllReaches(d2, src, window);
    assert Targets(src, window) <= d0.inodes.Keys;
  }
}

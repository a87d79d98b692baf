/** What can and what cannot change a scoring snapshot after it was published. */
module SnapshotIsolation {
  import opened FileTrees
  import opened SnapshotStore

  /** One thing that happens to the files of the service. */
  datatype Action =
    | WriteFile(at: Place, p: Path, bytes: Bytes)
    | ChmodFile(at: Place, p: Path, writable: bool)
    | Unlink(at: Place, p: Path)
    | Create(at: Place, p: Path, bytes: Bytes)
    | Rename(at: Place, p: Path, q: Path)
    | HardLink(at: Place, p: Path, q: Path)
    | Snapshot(id: nat, window: seq<(Path, Bytes)>, late: seq<(Path, Bytes)>, linkable: set<Path>, made: Tree, hash: Manifest)
    | Unpack(hash: Manifest, job: nat)
    | Clean(job: nat)

  /** Attempt directories and work copies are where agents, scorers and the platform work. */
  predicate Open(at: Place) {
    at.AttemptDir? || at.Work?
  }

  predicate IsFile(d: Disk, at: Place, p: Path) {
    at in d.trees && p in d.trees[at] && d.trees[at][p].File?
  }

  /** How an action may change the disk. */
  predicate Does(d: Disk, a: Action, e: Disk) {
    match a
    case WriteFile(at, p, bytes) => Open(at) && e == if IsFile(d, at, p) then Write(d, d.trees[at][p].ino, bytes) else d
    case ChmodFile(at, p, writable) => Open(at) && e == if IsFile(d, at, p) then Chmod(d, d.trees[at][p].ino, writable) else d
    case Unlink(at, p) => Open(at) && e == Drop(d, at, p)
    case Create(at, p, bytes) => Open(at) && at in d.trees && e == NewFile(d, at, p, bytes, true)
    case Rename(at, p, q) => Open(at) && e == if IsFile(d, at, p) then Put(Drop(d, at, p), at, q, d.trees[at][p]) else d
    case HardLink(at, p, q) => Open(at) && e == if IsFile(d, at, p) then Put(d, at, q, d.trees[at][p]) else d
    case Snapshot(id, window, late, linkable, made, hash) => Snapshotted(d, e, id, window, late, linkable, made, hash)
    case Unpack(hash, job) => Sound(e) && Unpacked(d, e, hash, job)
    case Clean(job) =>
      e == if Work(job) in d.trees then ChmodAll(d, InodesOf(d.trees[Work(job)]), true).(trees := d.trees - {Work(job)}) else d
  }

  /** Work copies share no file with anything else. */
  predicate Isolated(d: Disk) {
    && Sound(d)
    && forall at, other :: at in d.trees && other in d.trees && at.Work? && other != at ==>
         InodesOf(d.trees[at]) !! InodesOf(d.trees[other])
  }

  /** The files whose bytes an action writes. */
  function Written(d: Disk, a: Action): set<Ino> {
    match a
    case WriteFile(at, p, _) => if IsFile(d, at, p) then {d.trees[at][p].ino} else {}
    case Snapshot(id, window, late, _, _, _) =>
      if AttemptDir(id) in d.trees then Targets(d.trees[AttemptDir(id)], window + late) else {}
    case _ => {}
  }

  /** The action writes no file of the snapshot through a path of an attempt directory. */
  predicate Harmless(d: Disk, a: Action, hash: Manifest)
    requires Published(hash) in d.trees
  {
    (a.WriteFile? && a.at.Work?) || Written(d, a) !! InodesOf(d.trees[Published(hash)])
  }

  // ---------- one action ----------

  /** A tree gets one entry that is new or was there under another name. */
  lemma PutIsolates(d: Disk, e: Disk, at: Place, t: Tree)
    requires Isolated(d) && at in d.trees && e.trees == d.trees[at := t] && Sound(e)
    requires forall i :: i in InodesOf(t) ==> i in InodesOf(d.trees[at]) || d.next <= i
    ensures Isolated(e)
  {
    forall w, other | w in e.trees && other in e.trees && w.Work? && other != w
      ensures InodesOf(e.trees[w]) !! InodesOf(e.trees[other])
    {
      assert InodesOf(d.trees[w]) !! InodesOf(d.trees[other]);
      OldInodes(d, w);
      OldInodes(d, other);
    }
  }

  lemma OldInodes(d: Disk, at: Place)
    requires Sound(d) && at in d.trees
    ensures forall i :: i in InodesOf(d.trees[at]) ==> i in d.inodes && i < d.next
  {
  }

  lemma FileActionIsolates(d: Disk, a: Action, e: Disk)
    requires Isolated(d) && Does(d, a, e) && !a.Snapshot? && !a.Unpack? && !a.Clean?
    ensures Isolated(e)
  {
    if a.WriteFile? || a.ChmodFile? {
      assert e.trees == d.trees;
    } else if a.at in d.trees {
      assert e.trees == d.trees[a.at := e.trees[a.at]];
      PutIsolates(d, e, a.at, e.trees[a.at]);
    }
  }

  lemma SnapshotIsolates(d: Disk, a: Action, e: Disk)
    requires Isolated(d) && Does(d, a, e) && a.Snapshot?
    ensures Isolated(e)
  {
    var src := AttemptDir(a.id);
    if Published(a.hash) !in d.trees {
      forall w, other | w in e.trees && other in e.trees && w.Work? && other != w
        ensures InodesOf(e.trees[w]) !! InodesOf(e.trees[other])
      {
        OldInodes(d, w);
        if other == Published(a.hash) {
          assert InodesOf(d.trees[w]) !! InodesOf(d.trees[src]);
          forall i | i in InodesOf(a.made)
            ensures i !in InodesOf(d.trees[w])
          {
            if i < d.next {
              var p :| p in a.made && a.made[p].File? && a.made[p].ino == i;
              assert a.made[p] == d.trees[src][p];
              assert i in InodesOf(d.trees[src]);
            }
          }
        } else {
          assert InodesOf(d.trees[w]) !! InodesOf(d.trees[other]);
        }
      }
    }
  }

  lemma UnpackIsolates(d: Disk, a: Action, e: Disk)
    requires Isolated(d) && Does(d, a, e) && (a.Unpack? || a.Clean?)
    ensures Isolated(e)
  {
    forall w, other | w in e.trees && other in e.trees && w.Work? && other != w
      ensures InodesOf(e.trees[w]) !! InodesOf(e.trees[other])
    {
      if w in d.trees {
        OldInodes(d, w);
      }
      if other in d.trees {
        OldInodes(d, other);
      }
      if w in d.trees && other in d.trees {
        assert InodesOf(d.trees[w]) !! InodesOf(d.trees[other]);
      }
    }
  }

  lemma ActionIsolates(d: Disk, a: Action, e: Disk)
    requires Isolated(d) && Does(d, a, e)
    ensures Isolated(e)
  {
    if a.Snapshot? {
      SnapshotIsolates(d, a, e);
    } else if a.Unpack? || a.Clean? {
      UnpackIsolates(d, a, e);
    } else {
      FileActionIsolates(d, a, e);
    }
  }

  /** An action changes the bytes of a file only by writing it. */
  lemma BytesKept(d: Disk, a: Action, e: Disk, i: Ino)
    requires Isolated(d) && Does(d, a, e) && i in d.inodes && i !in Written(d, a)
    ensures i in e.inodes && e.inodes[i].bytes == d.inodes[i].bytes
  {
    if a.Snapshot? {
      WriteAllReaches(d, d.trees[AttemptDir(a.id)], a.window + a.late);
    }
  }

  lemma SnapshotTreeKept(d: Disk, a: Action, e: Disk, hash: Manifest)
    requires Isolated(d) && Does(d, a, e) && Published(hash) in d.trees
    ensures Published(hash) in e.trees && e.trees[Published(hash)] == d.trees[Published(hash)]
  {
  }

  /** No action changes which files a published snapshot consists of, and a harmless one changes none of
      its bytes: neither writes and chmods through the work copy, nor unlinking, renaming and creating
      files in the attempt directory, nor writes to attempt files the snapshot does not share, nor
      further snapshots. */
  lemma HarmlessKeepsSnapshot(d: Disk, a: Action, e: Disk, hash: Manifest)
    requires Isolated(d) && Does(d, a, e) && Published(hash) in d.trees && Harmless(d, a, hash)
    ensures Isolated(e)
    ensures Published(hash) in e.trees && e.trees[Published(hash)] == d.trees[Published(hash)]
    ensures ManifestOf(e.trees[Published(hash)], e.inodes) == ManifestOf(d.trees[Published(hash)], d.inodes)
  {
    ActionIsolates(d, a, e);
    SnapshotTreeKept(d, a, e, hash);
    var t := d.trees[Published(hash)];
    forall p | p in t && t[p].File?
      ensures See(t[p], e.inodes) == See(t[p], d.inodes)
    {
      assert t[p].ino in InodesOf(t);
      if a.WriteFile? && a.at.Work? && IsFile(d, a.at, a.p) {
        assert InodesOf(d.trees[a.at]) !! InodesOf(t);
        assert d.trees[a.at][a.p].ino in InodesOf(d.trees[a.at]);
      }
      BytesKept(d, a, e, t[p].ino);
    }
  }

  // ---------- whole histories ----------

  predicate History(disks: seq<Disk>, actions: seq<Action>) {
    |disks| == |actions| + 1 && forall k :: 0 <= k < |actions| ==> Does(disks[k], actions[k], disks[k + 1])
  }

  /** Whatever happens, in any order and any number of times: the snapshot keeps its files, and as long
      as nobody writes one of the files it shares, it keeps its manifest. */
  lemma {:induction false} SnapshotsAreFrozen(disks: seq<Disk>, actions: seq<Action>, hash: Manifest, n: nat)
    requires History(disks, actions) && n <= |actions|
    requires Isolated(disks[0]) && Published(hash) in disks[0].trees
    requires forall k :: 0 <= k < n && Published(hash) in disks[k].trees ==> Harmless(disks[k], actions[k], hash)
    ensures Isolated(disks[n]) && Published(hash) in disks[n].trees
    ensures disks[n].trees[Published(hash)] == disks[0].trees[Published(hash)]
    ensures ManifestOf(disks[n].trees[Published(hash)], disks[n].inodes) == ManifestOf(disks[0].trees[Published(hash)], disks[0].inodes)
  {
    if n > 0 {
      SnapshotsAreFrozen(disks, actions, hash, n - 1);
      HarmlessKeepsSnapshot(disks[n - 1], actions[n - 1], disks[n], hash);
    }
  }

  // ---------- exactly which writes leak ----------

  /** A write through a path of the attempt shows in the snapshot exactly if it changes the bytes of a
      file the snapshot shares; a path nobody linked leaks as well if another name of its file was. */
  lemma WriteLeaksExactly(d: Disk, at: Place, p: Path, bytes: Bytes, e: Disk, hash: Manifest)
    requires Isolated(d) && Does(d, WriteFile(at, p, bytes), e) && IsFile(d, at, p) && Published(hash) in d.trees
    ensures var (t, i) := (d.trees[Published(hash)], d.trees[at][p].ino);
            ManifestOf(t, e.inodes) != ManifestOf(t, d.inodes) <==>
            (bytes != d.inodes[i].bytes && exists q :: q in t && t[q] == File(i))
  {
    var t, i := d.trees[Published(hash)], d.trees[at][p].ino;
    if q :| q in t && t[q] == File(i) {
      assert ManifestOf(t, e.inodes)[q] == SeenFile(bytes);
      assert ManifestOf(t, d.inodes)[q] == SeenFile(d.inodes[i].bytes);
    }
    if !(bytes != d.inodes[i].bytes && exists q :: q in t && t[q] == File(i)) {
      forall q | q in t
        ensures See(t[q], e.inodes) == See(t[q], d.inodes)
      {
        if t[q].File? && t[q].ino == i {
          assert t[q] == File(i);
        }
      }
    }
  }

  /** The files that leak into a new snapshot are exactly those one of whose names is shared: that is linkable,
      not named like a file still being written, not the database, and of a file not written while the
      snapshot was being made.  The other names of such a file leak with it. */
  lemma SharedPathsLeakExactly(d: Disk, e: Disk, id: nat, window: seq<(Path, Bytes)>, late: seq<(Path, Bytes)>, linkable: set<Path>,
                                made: Tree, hash: Manifest, p: Path)
    requires Sound(d) && Snapshotted(d, e, id, window, late, linkable, made, hash) && Published(hash) !in d.trees
    requires IsFile(d, AttemptDir(id), p)
    ensures var src := d.trees[AttemptDir(id)];
            src[p].ino in InodesOf(e.trees[Published(hash)]) <==>
            exists q :: q in FrozenPaths(src) && src[q] == src[p] && SharedPath(src, window, linkable, q)
  {
    var src := d.trees[AttemptDir(id)];
    var i := src[p].ino;
    OldInodes(d, AttemptDir(id));
    assert i in InodesOf(src);
    if i in InodesOf(made) {
      var q :| q in made && made[q].File? && made[q].ino == i;
      assert made[q] == src[q] == src[p];
      assert q in FrozenPaths(src) && SharedPath(src, window, linkable, q);
    }
    if q :| q in FrozenPaths(src) && src[q] == src[p] && SharedPath(src, window, linkable, q) {
      SharedIsLinked(d, e, id, window, late, linkable, made, hash, q);
    }
  }

  lemma SharedIsLinked(d: Disk, e: Disk, id: nat, window: seq<(Path, Bytes)>, late: seq<(Path, Bytes)>, linkable: set<Path>,
                       made: Tree, hash: Manifest, q: Path)
    requires Sound(d) && Snapshotted(d, e, id, window, late, linkable, made, hash)
    requires q in made && SharedPath(d.trees[AttemptDir(id)], window, linkable, q)
    ensures made[q] == d.trees[AttemptDir(id)][q]
  {
  }

  // ---------- permission bits ----------

  /** Freezing identical content again makes every file of the published snapshot that the attempt
      linked again writable: the temporary tree is unfrozen on the shared inodes before it is dropped. */
  lemma RepublishingThaws(d: Disk, e: Disk, id: nat, window: seq<(Path, Bytes)>, late: seq<(Path, Bytes)>, linkable: set<Path>,
                                made: Tree, hash: Manifest, p: Path)
    requires Sound(d) && Snapshotted(d, e, id, window, late, linkable, made, hash) && Published(hash) in d.trees
    requires IsFile(d, Published(hash), p)
    ensures var i := d.trees[Published(hash)][p].ino;
            i in e.inodes && (e.inodes[i].writable <==> d.inodes[i].writable || i in InodesOf(made))
  {
    OldInodes(d, Published(hash));
    WriteAllReaches(d, d.trees[AttemptDir(id)], window + late);
  }
}

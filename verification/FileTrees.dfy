/** Directory trees over a shared store of inodes: two paths, in one tree or in two, may name the same
    file.  Everything about scoring snapshots that is not trivial comes from that sharing. */
module FileTrees {
  type Path = seq<string>
  type Ino = nat
  type Bytes = string

  datatype Node = Folder | File(ino: Ino)

  type Tree = map<Path, Node>

  /** `writes` counts the changes of a file: it stands for size and mtime taken together. */
  datatype Inode = Inode(bytes: Bytes, writable: bool, writes: nat)

  /** One entry of `_tree_manifest`; size and digest are functions of the bytes. */
  datatype Seen = SeenFolder | SeenFile(bytes: Bytes)

  type Manifest = map<Path, Seen>

  /** Where a tree lives.  The hash of a manifest is taken to be injective, so a manifest is its own hash. */
  datatype Place = AttemptDir(id: nat) | Temporary(n: nat) | Published(hash: Manifest) | Work(job: nat)

  datatype Disk = Disk(trees: map<Place, Tree>, inodes: map<Ino, Inode>, next: Ino)

  predicate Sound(d: Disk) {
    && (forall at, p :: at in d.trees && p in d.trees[at] && d.trees[at][p].File? ==> d.trees[at][p].ino in d.inodes)
    && (forall i :: i in d.inodes ==> i < d.next)
  }

  function InodesOf(t: Tree): set<Ino> {
    set p | p in t && t[p].File? :: t[p].ino
  }

  function See(n: Node, inodes: map<Ino, Inode>): Seen {
    if n.File? && n.ino in inodes then SeenFile(inodes[n.ino].bytes) else SeenFolder
  }

  /** `_tree_manifest`. */
  function ManifestOf(t: Tree, inodes: map<Ino, Inode>): Manifest {
    map p | p in t :: See(t[p], inodes)
  }

  // ---------- single file operations ----------

  function Write(d: Disk, i: Ino, bytes: Bytes): Disk {
    if i in d.inodes then d.(inodes := d.inodes[i := d.inodes[i].(bytes := bytes, writes := d.inodes[i].writes + 1)]) else d
  }

  function Chmod(d: Disk, i: Ino, writable: bool): Disk {
    if i in d.inodes then d.(inodes := d.inodes[i := d.inodes[i].(writable := writable)]) else d
  }

  function Put(d: Disk, at: Place, p: Path, n: Node): Disk {
    if at in d.trees then d.(trees := d.trees[at := d.trees[at][p := n]]) else d
  }

  function Drop(d: Disk, at: Place, p: Path): Disk {
    if at in d.trees then d.(trees := d.trees[at := d.trees[at] - {p}]) else d
  }

  /** A new file with its own inode. */
  function NewFile(d: Disk, at: Place, p: Path, bytes: Bytes, writable: bool): Disk {
    Put(d.(inodes := d.inodes[d.next := Inode(bytes, writable, 0)], next := d.next + 1), at, p, File(d.next))
  }

  /** Writes to files of one tree, in order, each through a path. */
  function WriteAll(d: Disk, t: Tree, writes: seq<(Path, Bytes)>): Disk
    decreases |writes|
  {
    if writes == [] then d
    else
      var (p, bytes) := writes[0];
      WriteAll(if p in t && t[p].File? then Write(d, t[p].ino, bytes) else d, t, writes[1..])
  }

  /** The inodes such writes reach. */
  function Targets(t: Tree, writes: seq<(Path, Bytes)>): set<Ino> {
    set w | w in writes && w.0 in t && t[w.0].File? :: t[w.0].ino
  }

  lemma {:induction false} WriteAllReaches(d: Disk, t: Tree, writes: seq<(Path, Bytes)>)
    ensures var after := WriteAll(d, t, writes);
            && after.trees == d.trees && after.next == d.next && after.inodes.Keys == d.inodes.Keys
            && (forall i :: i in d.inodes ==> after.inodes[i].writable == d.inodes[i].writable)
            && (forall i :: i in d.inodes && i !in Targets(t, writes) ==> after.inodes[i] == d.inodes[i])
            && (forall i :: i in d.inodes && i in Targets(t, writes) ==> after.inodes[i].writes > d.inodes[i].writes)
    decreases |writes|
  {
    if writes != [] {
      var (p, bytes) := writes[0];
      var first := if p in t && t[p].File? then Write(d, t[p].ino, bytes) else d;
      WriteAllReaches(first, t, writes[1..]);
      assert forall w :: w in writes <==> w == writes[0] || w in writes[1..];
      assert Targets(t, writes) == Targets(t, writes[1..]) + if p in t && t[p].File? then {t[p].ino} else {};
    }
  }

  /** The last write to a file, through whichever of its names, is what the file holds. */
  lemma {:induction false} LastWriteShows(d: Disk, t: Tree, writes: seq<(Path, Bytes)>, k: nat)
    requires k < |writes| && writes[k].0 in t && t[writes[k].0].File? && t[writes[k].0].ino in d.inodes
    requires forall l :: k < l < |writes| && writes[l].0 in t ==> t[writes[l].0] != t[writes[k].0]
    ensures var i := t[writes[k].0].ino;
            i in WriteAll(d, t, writes).inodes && WriteAll(d, t, writes).inodes[i].bytes == writes[k].1
    decreases |writes|
  {
    var (p, bytes) := writes[0];
    var first := if p in t && t[p].File? then Write(d, t[p].ino, bytes) else d;
    var rest := writes[1..];
    if k == 0 {
      WriteAllReaches(first, t, rest);
      assert forall w :: w in rest ==> exists l :: 0 < l < |writes| && writes[l] == w;
      assert t[p].ino !in Targets(t, rest);
    } else {
      assert forall l :: 0 <= l < |rest| ==> rest[l] == writes[l + 1];
      LastWriteShows(first, t, rest, k - 1);
    }
  }

  /** Trees have one manifest exactly if they have the same paths, with folders at the same ones and the same
      bytes in the files at all others. */
  lemma ManifestsAgreeExactly(t: Tree, inodes: map<Ino, Inode>, u: Tree, inodes': map<Ino, Inode>)
    requires forall p :: p in t && t[p].File? ==> t[p].ino in inodes
    requires forall p :: p in u && u[p].File? ==> u[p].ino in inodes'
    ensures ManifestOf(t, inodes) == ManifestOf(u, inodes') <==>
            && t.Keys == u.Keys
            && forall p :: p in t ==> && (t[p].File? <==> u[p].File?)
                                      && (t[p].File? ==> inodes[t[p].ino].bytes == inodes'[u[p].ino].bytes)
  {
    var a, b := ManifestOf(t, inodes), ManifestOf(u, inodes');
    assert a.Keys == t.Keys && b.Keys == u.Keys;
    if a == b {
      forall p | p in t
        ensures See(t[p], inodes) == See(u[p], inodes')
      {
        assert a[p] == b[p];
      }
    }
  }

  // ---------- which files a snapshot copies ----------

  predicate EndsWith(s: string, suffix: string) {
    |suffix| <= |s| && s[|s| - |suffix|..] == suffix
  }

  const STILL_WRITING: set<string> := {".partial", ".tmp", ".lock", "-wal", "-shm", "-journal"}

  /** `_is_still_writing`: decided by the name alone. */
  predicate StillWriting(p: Path) {
    p != [] && exists suffix | suffix in STILL_WRITING :: EndsWith(p[|p| - 1], suffix)
  }

  const ENV_DB: Path := ["env.db"]
  const SIDECARS: set<Path> := {["env.db-wal"], ["env.db-shm"], ["env.db-journal"]}
}

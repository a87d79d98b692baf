/** What a score was computed from: the two checks of the snapshot around the unpacking and the
    evaluation of one scoring job, with anything else happening in between. */
module FrozenScoring {
  import Statuses
  import opened FileTrees
  import opened SnapshotStore
  import opened SnapshotIsolation

  /** `Unpacking`: checked once, `copy` is what has been copied so far.  `Evaluated`: the scorer saw
      `copy`.  The snapshot is registered under `hash`. */
  datatype Phase = Waiting | Unpacking | Evaluated | Scored | Rejected

  datatype Scoring = Scoring(disk: Disk, phase: Phase, copy: Manifest)

  datatype Event = World(a: Action, e: Disk) | CheckFirst | CopyOne(p: Path) | Evaluate | CheckLast

  function SnapshotOf(s: Scoring, hash: Manifest): Tree {
    if Published(hash) in s.disk.trees then s.disk.trees[Published(hash)] else map[]
  }

  predicate Intact(s: Scoring, hash: Manifest) {
    Published(hash) in s.disk.trees && ManifestOf(SnapshotOf(s, hash), s.disk.inodes) == hash
  }

  predicate Possible(s: Scoring, v: Event, hash: Manifest) {
    match v
    case World(a, e) => Does(s.disk, a, e)
    case CheckFirst => s.phase == Waiting
    case CopyOne(p) => s.phase == Unpacking && p in SnapshotOf(s, hash) && p !in s.copy
    case Evaluate => s.phase == Unpacking && SnapshotOf(s, hash).Keys <= s.copy.Keys
    case CheckLast => s.phase == Evaluated
  }

  function Happen(s: Scoring, v: Event, hash: Manifest): Scoring
    requires Possible(s, v, hash)
  {
    match v
    case World(_, e) => s.(disk := e)
    case CheckFirst => if Intact(s, hash) then s.(phase := Unpacking, copy := map[]) else s.(phase := Rejected)
    case CopyOne(p) => s.(copy := s.copy[p := See(SnapshotOf(s, hash)[p], s.disk.inodes)])
    case Evaluate => s.(phase := Evaluated)
    case CheckLast => s.(phase := if Intact(s, hash) then Scored else Rejected)
  }

  predicate Story(s: Scoring, events: seq<Event>, hash: Manifest)
    decreases |events|
  {
    events == [] || (Possible(s, events[0], hash) && Story(Happen(s, events[0], hash), events[1..], hash))
  }

  function End(s: Scoring, events: seq<Event>, hash: Manifest): Scoring
    requires Story(s, events, hash)
    decreases |events|
  {
    if events == [] then s else End(Happen(s, events[0], hash), events[1..], hash)
  }

  predicate Registered(s: Scoring, hash: Manifest) {
    s.phase == Waiting && Isolated(s.disk) && Published(hash) in s.disk.trees
  }

  // ---------- no leak while unpacking ----------

  /** No shared file is written between the first check and the end of the unpacking. */
  predicate QuietStory(s: Scoring, events: seq<Event>, hash: Manifest)
    requires Story(s, events, hash)
    decreases |events|
  {
    events == [] ||
    (&& (events[0].World? && s.phase == Unpacking && Published(hash) in s.disk.trees ==> Harmless(s.disk, events[0].a, hash))
     && QuietStory(Happen(s, events[0], hash), events[1..], hash))
  }

  predicate Faithful(s: Scoring, hash: Manifest) {
    && Isolated(s.disk) && Published(hash) in s.disk.trees
    && (s.phase == Unpacking ==> Intact(s, hash) && s.copy.Keys <= hash.Keys && forall p :: p in s.copy ==> s.copy[p] == hash[p])
    && (s.phase in {Evaluated, Scored} ==> s.copy == hash)
  }

  lemma FaithfulStep(s: Scoring, v: Event, hash: Manifest)
    requires Faithful(s, hash) && Possible(s, v, hash)
    requires v.World? && s.phase == Unpacking ==> Harmless(s.disk, v.a, hash)
    ensures Faithful(Happen(s, v, hash), hash)
  {
    match v {
      case World(a, e) =>
        ActionIsolates(s.disk, a, e);
        SnapshotTreeKept(s.disk, a, e, hash);
        if s.phase == Unpacking {
          HarmlessKeepsSnapshot(s.disk, a, e, hash);
        }
      case CopyOne(p) =>
        assert See(SnapshotOf(s, hash)[p], s.disk.inodes) == ManifestOf(SnapshotOf(s, hash), s.disk.inodes)[p];
      case Evaluate =>
        assert hash.Keys == SnapshotOf(s, hash).Keys;
        assert s.copy.Keys == hash.Keys;
      case CheckFirst =>
      case CheckLast =>
    }
  }

  /** If no shared file is written while the job unpacks its input, a score was computed on exactly the
      tree registered when the job was queued. */
  lemma {:induction false} QuietScoresAreFaithful(s: Scoring, events: seq<Event>, hash: Manifest)
    requires Faithful(s, hash) && Story(s, events, hash) && QuietStory(s, events, hash)
    ensures Faithful(End(s, events, hash), hash)
    ensures End(s, events, hash).phase == Scored ==> End(s, events, hash).copy == hash
    decreases |events|
  {
    if events != [] {
      FaithfulStep(s, events[0], hash);
      QuietScoresAreFaithful(Happen(s, events[0], hash), events[1..], hash);
    }
  }

  // ---------- writers that only append ----------

  function Length(x: Seen): nat {
    if x.SeenFile? then |x.bytes| else 0
  }

  /** Whoever writes a shared file makes it longer: capture files that keep growing, logs. */
  predicate Appends(d: Disk, e: Disk, hash: Manifest)
    requires Published(hash) in d.trees
  {
    forall p {:trigger d.trees[Published(hash)][p]} :: p in d.trees[Published(hash)] ==>
      var (was, now) := (See(d.trees[Published(hash)][p], d.inodes), See(d.trees[Published(hash)][p], e.inodes));
      now == was || Length(now) > Length(was)
  }

  predicate AppendingStory(s: Scoring, events: seq<Event>, hash: Manifest)
    requires Story(s, events, hash)
    decreases |events|
  {
    events == [] ||
    (&& (events[0].World? && Published(hash) in s.disk.trees ==> Appends(s.disk, events[0].e, hash))
     && AppendingStory(Happen(s, events[0], hash), events[1..], hash))
  }

  /** An entry that is as registered or has grown, now and when it was copied. */
  predicate Sized(s: Scoring, hash: Manifest, p: Path)
    requires p in SnapshotOf(s, hash)
  {
    && p in hash
    && var now := See(SnapshotOf(s, hash)[p], s.disk.inodes);
    && (now == hash[p] || Length(now) > Length(hash[p]))
    && (p in s.copy ==> s.copy[p] == hash[p] || Length(now) > Length(hash[p]))
  }

  predicate Growing(s: Scoring, hash: Manifest) {
    && Isolated(s.disk) && Published(hash) in s.disk.trees
    && (s.phase in {Unpacking, Evaluated} ==>
          hash.Keys == SnapshotOf(s, hash).Keys && s.copy.Keys <= hash.Keys &&
          forall p :: p in SnapshotOf(s, hash) ==> Sized(s, hash, p))
    && (s.phase == Evaluated ==> s.copy.Keys == hash.Keys)
    && (s.phase == Scored ==> s.copy == hash)
  }

  lemma GrowingStep(s: Scoring, v: Event, hash: Manifest)
    requires Growing(s, hash) && Possible(s, v, hash) && (v.World? ==> Appends(s.disk, v.e, hash))
    ensures Growing(Happen(s, v, hash), hash)
  {
    var t := Happen(s, v, hash);
    match v {
      case World(a, e) =>
        ActionIsolates(s.disk, a, e);
        SnapshotTreeKept(s.disk, a, e, hash);
        if s.phase in {Unpacking, Evaluated} {
          forall p | p in SnapshotOf(t, hash)
            ensures Sized(t, hash, p)
          {
            assert Sized(s, hash, p);
            assert s.disk.trees[Published(hash)][p] == SnapshotOf(t, hash)[p];
          }
        }
      case CheckFirst =>
        if t.phase == Unpacking {
          forall p | p in SnapshotOf(t, hash)
            ensures Sized(t, hash, p)
          {
            assert ManifestOf(SnapshotOf(s, hash), s.disk.inodes)[p] == See(SnapshotOf(s, hash)[p], s.disk.inodes);
          }
        }
      case CopyOne(p) =>
        forall q | q in SnapshotOf(t, hash)
          ensures Sized(t, hash, q)
        {
          assert Sized(s, hash, q);
        }
      case Evaluate =>
        forall q | q in SnapshotOf(t, hash)
          ensures Sized(t, hash, q)
        {
          assert Sized(s, hash, q);
        }
      case CheckLast =>
        if t.phase == Scored {
          forall p | p in hash
            ensures s.copy[p] == hash[p]
          {
            assert Sized(s, hash, p);
            assert ManifestOf(SnapshotOf(s, hash), s.disk.inodes)[p] == See(SnapshotOf(s, hash)[p], s.disk.inodes);
          }
        }
    }
  }

  /** With writers that only append, whatever the interleaving: a leak into the snapshot can only end in a
      rejection, and a score was computed on exactly the registered tree. */
  lemma {:induction false} AppendsNeverScoreWrongly(s: Scoring, events: seq<Event>, hash: Manifest)
    requires Growing(s, hash) && Story(s, events, hash) && AppendingStory(s, events, hash)
    ensures Growing(End(s, events, hash), hash)
    ensures End(s, events, hash).phase == Scored ==> End(s, events, hash).copy == hash
    decreases |events|
  {
    if events != [] {
      GrowingStep(s, events[0], hash);
      AppendsNeverScoreWrongly(Happen(s, events[0], hash), events[1..], hash);
    }
  }

  lemma JobsStartWell(s: Scoring, hash: Manifest)
    requires Registered(s, hash)
    ensures Faithful(s, hash) && Growing(s, hash)
  {
  }

  // ---------- exactly ----------

  type Last = Statuses.Option<Bytes>

  /** The last of some writes that goes to file `i`. */
  function LastTo(t: Tree, writes: seq<(Path, Bytes)>, i: Ino): Last {
    if writes == [] then Statuses.None
    else
      var rest := LastTo(t, writes[1..], i);
      if rest.Some? then rest
      else if writes[0].0 in t && t[writes[0].0] == File(i) then Statuses.Some(writes[0].1)
      else Statuses.None
  }

  lemma {:induction false} LastToDecides(d: Disk, t: Tree, writes: seq<(Path, Bytes)>, i: Ino)
    requires i in d.inodes
    ensures var last := LastTo(t, writes, i);
            && i in WriteAll(d, t, writes).inodes
            && WriteAll(d, t, writes).inodes[i].bytes == if last.Some? then last.value else d.inodes[i].bytes
    decreases |writes|
  {
    if writes != [] {
      var (p, bytes) := writes[0];
      LastToDecides(if p in t && t[p].File? then Write(d, t[p].ino, bytes) else d, t, writes[1..], i);
    }
  }

  /** What an action writes last into file `i`, if it writes it. */
  function Wrote(d: Disk, a: Action, i: Ino): Last {
    match a
    case WriteFile(at, p, bytes) => if IsFile(d, at, p) && d.trees[at][p].ino == i then Statuses.Some(bytes) else Statuses.None
    case Snapshot(id, window, late, _, _, _) =>
      if AttemptDir(id) in d.trees then LastTo(d.trees[AttemptDir(id)], window + late, i) else Statuses.None
    case _ => Statuses.None
  }

  lemma WroteDecides(d: Disk, a: Action, e: Disk, i: Ino)
    requires Isolated(d) && Does(d, a, e) && i in d.inodes
    ensures i in e.inodes && e.inodes[i].bytes == if Wrote(d, a, i).Some? then Wrote(d, a, i).value else d.inodes[i].bytes
  {
    if a.Snapshot? {
      WriteAllReaches(d, d.trees[AttemptDir(a.id)], a.window + a.late);
      LastToDecides(d, d.trees[AttemptDir(a.id)], a.window + a.late, i);
    } else if !a.WriteFile? {
      BytesKept(d, a, e, i);
    }
  }

  /** The last write to the file of snapshot path `p` after one more event. */
  function Later(s: Scoring, v: Event, hash: Manifest, p: Path, last: Last): Last {
    if v.World? && p in SnapshotOf(s, hash) && SnapshotOf(s, hash)[p].File? then
      var wrote := Wrote(s.disk, v.a, SnapshotOf(s, hash)[p].ino);
      if wrote.Some? then wrote else last
    else last
  }

  /** No write, or one of the registered bytes. */
  predicate Clean(last: Last, registered: Seen) {
    last.None? || registered == SeenFile(last.value)
  }

  /** The last write to `p` since the first check and before `p` is copied leaves the registered bytes. */
  predicate CopiedClean(s: Scoring, events: seq<Event>, hash: Manifest, p: Path, last: Last)
    requires Story(s, events, hash) && p in hash
    decreases |events|
  {
    if events == [] then true
    else if events[0] == CopyOne(p) then Clean(last, hash[p])
    else CopiedClean(Happen(s, events[0], hash), events[1..], hash, p, Later(s, events[0], hash, p, last))
  }

  /** The last write to `p` in the whole story. */
  function LastWrite(s: Scoring, events: seq<Event>, hash: Manifest, p: Path, last: Last): Last
    requires Story(s, events, hash)
    decreases |events|
  {
    if events == [] then last
    else LastWrite(Happen(s, events[0], hash), events[1..], hash, p, Later(s, events[0], hash, p, last))
  }

  /** The entry `p` of the snapshot shows the last write, or what is registered. */
  predicate Shows(s: Scoring, hash: Manifest, p: Path, last: Last) {
    && Isolated(s.disk) && Published(hash) in s.disk.trees && SnapshotOf(s, hash).Keys == hash.Keys && p in hash
    && See(SnapshotOf(s, hash)[p], s.disk.inodes) == (if last.Some? then SeenFile(last.value) else hash[p])
    && (last.Some? ==> SnapshotOf(s, hash)[p].File?)
  }

  lemma EventShows(s: Scoring, v: Event, hash: Manifest, p: Path, last: Last)
    requires Shows(s, hash, p, last) && Possible(s, v, hash)
    ensures Shows(Happen(s, v, hash), hash, p, Later(s, v, hash, p, last))
    ensures SnapshotOf(Happen(s, v, hash), hash) == SnapshotOf(s, hash)
  {
    if v.World? {
      ActionIsolates(s.disk, v.a, v.e);
      SnapshotTreeKept(s.disk, v.a, v.e, hash);
      var n := SnapshotOf(s, hash)[p];
      if n.File? {
        assert n.ino in s.disk.inodes;
        WroteDecides(s.disk, v.a, v.e, n.ino);
      }
    }
  }

  lemma {:induction false} StoryShows(s: Scoring, events: seq<Event>, hash: Manifest, p: Path, last: Last)
    requires Shows(s, hash, p, last) && Story(s, events, hash)
    ensures Shows(End(s, events, hash), hash, p, LastWrite(s, events, hash, p, last))
    decreases |events|
  {
    if events != [] {
      EventShows(s, events[0], hash, p, last);
      StoryShows(Happen(s, events[0], hash), events[1..], hash, p, Later(s, events[0], hash, p, last));
    }
  }

  /** What was copied stays copied. */
  lemma {:induction false} CopyStays(s: Scoring, events: seq<Event>, hash: Manifest, p: Path)
    requires Story(s, events, hash) && s.phase != Waiting && p in s.copy
    ensures p in End(s, events, hash).copy && End(s, events, hash).copy[p] == s.copy[p]
    decreases |events|
  {
    if events != [] {
      CopyStays(Happen(s, events[0], hash), events[1..], hash, p);
    }
  }

  lemma {:induction false} CopiedExactly(s: Scoring, events: seq<Event>, hash: Manifest, p: Path, last: Last)
    requires Shows(s, hash, p, last) && Story(s, events, hash) && s.phase != Waiting && p !in s.copy
    ensures p in End(s, events, hash).copy ==>
              (End(s, events, hash).copy[p] == hash[p] <==> CopiedClean(s, events, hash, p, last))
    decreases |events|
  {
    if events != [] {
      var t := Happen(s, events[0], hash);
      EventShows(s, events[0], hash, p, last);
      if events[0] == CopyOne(p) {
        CopyStays(t, events[1..], hash, p);
      } else {
        CopiedExactly(t, events[1..], hash, p, Later(s, events[0], hash, p, last));
      }
    }
  }

  /** A job that passed the first check and has copied nothing yet. */
  predicate Unpacks(s: Scoring, hash: Manifest) {
    s.phase == Unpacking && s.copy == map[] && Isolated(s.disk) && Intact(s, hash)
  }

  lemma UnpackingShows(s: Scoring, hash: Manifest, p: Path)
    requires Unpacks(s, hash) && p in hash
    ensures Shows(s, hash, p, Statuses.None)
  {
    assert ManifestOf(SnapshotOf(s, hash), s.disk.inodes)[p] == See(SnapshotOf(s, hash)[p], s.disk.inodes);
  }

  /** What is evaluated has every registered path and no other. */
  lemma {:induction false} EvaluatedPaths(s: Scoring, events: seq<Event>, hash: Manifest)
    requires Isolated(s.disk) && Published(hash) in s.disk.trees && SnapshotOf(s, hash).Keys == hash.Keys
    requires s.copy.Keys <= hash.Keys && s.phase != Waiting && (s.phase in {Evaluated, Scored} ==> s.copy.Keys == hash.Keys)
    requires Story(s, events, hash)
    ensures End(s, events, hash).phase in {Evaluated, Scored} ==> End(s, events, hash).copy.Keys == hash.Keys
    ensures Published(hash) in End(s, events, hash).disk.trees && SnapshotOf(End(s, events, hash), hash) == SnapshotOf(s, hash)
    decreases |events|
  {
    if events != [] {
      if events[0].World? {
        ActionIsolates(s.disk, events[0].a, events[0].e);
        SnapshotTreeKept(s.disk, events[0].a, events[0].e, hash);
      }
      EvaluatedPaths(Happen(s, events[0], hash), events[1..], hash);
    }
  }

  /** Exactly which writes spoil a score, file by file and under any interleaving: what the scorer saw is
      the registered tree exactly if, for every path, the last write to its file between the first check
      and the copying of that path left the registered bytes; and the last check passes exactly if the
      last write of the whole story did. */
  lemma ScoredExactly(s: Scoring, events: seq<Event>, hash: Manifest)
    requires Unpacks(s, hash) && Story(s, events, hash) && End(s, events, hash).phase == Evaluated
    ensures End(s, events, hash).copy == hash <==> forall p :: p in hash ==> CopiedClean(s, events, hash, p, Statuses.None)
    ensures Intact(End(s, events, hash), hash) <==> forall p :: p in hash ==> Clean(LastWrite(s, events, hash, p, Statuses.None), hash[p])
    ensures Possible(End(s, events, hash), CheckLast, hash)
    ensures Happen(End(s, events, hash), CheckLast, hash).phase == Scored <==> Intact(End(s, events, hash), hash)
  {
    var end := End(s, events, hash);
    assert SnapshotOf(s, hash).Keys == hash.Keys;
    EvaluatedPaths(s, events, hash);
    forall p | p in hash
      ensures end.copy[p] == hash[p] <==> CopiedClean(s, events, hash, p, Statuses.None)
      ensures Shows(end, hash, p, LastWrite(s, events, hash, p, Statuses.None))
    {
      UnpackingShows(s, hash, p);
      CopiedExactly(s, events, hash, p, Statuses.None);
      StoryShows(s, events, hash, p, Statuses.None);
    }
    RestoredExactly(s, events, hash);
  }

  /** A registered job: it is rejected at once exactly if its snapshot is not intact, and otherwise what its scorer
      sees is decided as above; and if nothing leaks while it unpacks, a score means the registered tree. */
  lemma RegisteredJobsExactly(s: Scoring, events: seq<Event>, hash: Manifest)
    requires Registered(s, hash) && Story(Happen(s, CheckFirst, hash), events, hash)
    ensures var t := Happen(s, CheckFirst, hash);
            && (t.phase == Rejected <==> !Intact(s, hash))
            && (t.phase == Unpacking && End(t, events, hash).phase == Evaluated ==>
                  (End(t, events, hash).copy == hash <==> forall p :: p in hash ==> CopiedClean(t, events, hash, p, Statuses.None)))
            && (QuietStory(t, events, hash) && End(t, events, hash).phase == Scored ==> End(t, events, hash).copy == hash)
  {
    var t := Happen(s, CheckFirst, hash);
    JobsStartWell(s, hash);
    FaithfulStep(s, CheckFirst, hash);
    if QuietStory(t, events, hash) {
      QuietScoresAreFaithful(t, events, hash);
    }
    if t.phase == Unpacking && End(t, events, hash).phase == Evaluated {
      ScoredExactly(t, events, hash);
    }
  }

  lemma RestoredExactly(s: Scoring, events: seq<Event>, hash: Manifest)
    requires Story(s, events, hash) && Published(hash) in End(s, events, hash).disk.trees
    requires SnapshotOf(End(s, events, hash), hash).Keys == hash.Keys
    requires forall p :: p in hash ==> Shows(End(s, events, hash), hash, p, LastWrite(s, events, hash, p, Statuses.None))
    ensures Intact(End(s, events, hash), hash) <==> forall p :: p in hash ==> Clean(LastWrite(s, events, hash, p, Statuses.None), hash[p])
  {
    var end := End(s, events, hash);
    var now := ManifestOf(SnapshotOf(end, hash), end.disk.inodes);
    assert now.Keys == hash.Keys;
    forall p | p in hash
      ensures now[p] == hash[p] <==> Clean(LastWrite(s, events, hash, p, Statuses.None), hash[p])
    {
      assert Shows(end, hash, p, LastWrite(s, events, hash, p, Statuses.None));
    }
  }

  // ---------- a write that is taken back ----------

  ghost predicate CanEnd(s: Scoring, t: Scoring, hash: Manifest) {
    exists events :: Story(s, events, hash) && End(s, events, hash) == t
  }

  lemma Ends(s: Scoring, hash: Manifest)
    ensures CanEnd(s, s, hash)
  {
    assert Story(s, [], hash) && End(s, [], hash) == s;
  }

  lemma Before(s: Scoring, v: Event, t: Scoring, end: Scoring, hash: Manifest)
    requires Possible(s, v, hash) && Happen(s, v, hash) == t && CanEnd(t, end, hash)
    ensures CanEnd(s, end, hash)
  {
    var rest :| Story(t, rest, hash) && End(t, rest, hash) == end;
    assert ([v] + rest)[1..] == rest;
    assert Story(s, [v] + rest, hash) && End(s, [v] + rest, hash) == end;
  }

  const REPORT: Path := ["report"]

  /** An attempt and its snapshot share the file `report`. */
  function SharedReport(bytes: Bytes, writes: nat, hash: Manifest): Disk {
    var t: Tree := map[REPORT := File(0)];
    Disk(map[AttemptDir(0) := t, Published(hash) := t], map[0 := Inode(bytes, true, writes)], 1)
  }

  function Holds(bytes: Bytes): Manifest {
    map[REPORT := SeenFile(bytes)]
  }

  lemma ReportManifest(bytes: Bytes, writes: nat, hash: Manifest, phase: Phase, copy: Manifest)
    ensures var s := Scoring(SharedReport(bytes, writes, hash), phase, copy);
            && SnapshotOf(s, hash) == map[REPORT := File(0)] && (Intact(s, hash) <==> hash == Holds(bytes))
            && See(File(0), s.disk.inodes) == SeenFile(bytes)
  {
    assert ManifestOf(map[REPORT := File(0)], SharedReport(bytes, writes, hash).inodes) == Holds(bytes);
  }

  lemma Overwrite(was: Bytes, writes: nat, bytes: Bytes, hash: Manifest)
    ensures Does(SharedReport(was, writes, hash), WriteFile(AttemptDir(0), REPORT, bytes), SharedReport(bytes, writes + 1, hash))
  {
  }

  /** Neither condition can be dropped: a shared file that is overwritten before it is copied and written
      back before the last check gives a score for bytes that were never registered. */
  lemma WrittenBackUnnoticed(registered: Bytes, other: Bytes) returns (s: Scoring, end: Scoring)
    requires registered != other
    ensures var hash := Holds(registered);
            && Registered(s, hash) && Intact(s, hash) && CanEnd(s, end, hash)
            && end.phase == Scored && Intact(end, hash) && end.copy == Holds(other) && end.copy != hash
  {
    var hash, copy := Holds(registered), Holds(other);
    var d0, d1, d2 := SharedReport(registered, 0, hash), SharedReport(other, 1, hash), SharedReport(registered, 2, hash);
    s, end := Scoring(d0, Waiting, map[]), Scoring(d2, Scored, copy);
    assert hash[REPORT] != copy[REPORT];
    Ends(end, hash);
    ReportManifest(registered, 2, hash, Evaluated, copy);
    ReportManifest(registered, 2, hash, Scored, copy);
    Before(Scoring(d2, Evaluated, copy), CheckLast, end, end, hash);
    Overwrite(other, 1, registered, hash);
    Before(Scoring(d1, Evaluated, copy), World(WriteFile(AttemptDir(0), REPORT, registered), d2), Scoring(d2, Evaluated, copy), end, hash);
    UnpackReport(d0, d1, s, end, hash, registered, other);
  }

  lemma UnpackReport(d0: Disk, d1: Disk, s: Scoring, end: Scoring, hash: Manifest, registered: Bytes, other: Bytes)
    requires hash == Holds(registered) && d0 == SharedReport(registered, 0, hash) && d1 == SharedReport(other, 1, hash)
    requires s == Scoring(d0, Waiting, map[]) && CanEnd(Scoring(d1, Evaluated, Holds(other)), end, hash)
    ensures CanEnd(s, end, hash) && Intact(s, hash)
  {
    ReportManifest(other, 1, hash, Unpacking, Holds(other));
    Before(Scoring(d1, Unpacking, Holds(other)), Evaluate, Scoring(d1, Evaluated, Holds(other)), end, hash);
    ReportManifest(other, 1, hash, Unpacking, map[]);
    Before(Scoring(d1, Unpacking, map[]), CopyOne(REPORT), Scoring(d1, Unpacking, Holds(other)), end, hash);
    Overwrite(registered, 0, other, hash);
    Before(Scoring(d0, Unpacking, map[]), World(WriteFile(AttemptDir(0), REPORT, other), d1), Scoring(d1, Unpacking, map[]), end, hash);
    ReportManifest(registered, 0, hash, Waiting, map[]);
    Before(s, CheckFirst, Scoring(d0, Unpacking, map[]), end, hash);
  }
}

/** What the integrity columns of an attempt mean after a whole run, and what they decide. */
module IntegrityLatch {
  import opened Statuses
  import opened ModelIntegrity

  /** Recording one verdict after the other. */
  function RecordAll(row: Row, marks: seq<(Verdict, nat)>): Row {
    if marks == [] then row
    else
      var n := |marks| - 1;
      Recorded(RecordAll(row, marks[..n]), marks[n].0, marks[n].1)
  }

  /** The non-empty observed names, in the order of the observations. */
  function Names(marks: seq<(Verdict, nat)>): seq<string> {
    if marks == [] then []
    else
      var n := |marks| - 1;
      var name := Key(marks[n].0);
      Names(marks[..n]) + if name == "" then [] else [name]
  }

  function Violations(marks: seq<(Verdict, nat)>): nat {
    if marks == [] then 0
    else Violations(marks[..|marks| - 1]) + if marks[|marks| - 1].0.violation then 1 else 0
  }

  /** The code of the last violation. */
  function LastCode(marks: seq<(Verdict, nat)>): Option<Code> {
    if marks == [] then None
    else if marks[|marks| - 1].0.violation then marks[|marks| - 1].0.code
    else LastCode(marks[..|marks| - 1])
  }

  /** Each name once, where it first occurs. */
  function FirstSeen(names: seq<string>): seq<string> {
    if names == [] then []
    else
      var front := FirstSeen(names[..|names| - 1]);
      if names[|names| - 1] in front then front else front + [names[|names| - 1]]
  }

  function IndexOf(names: seq<string>, x: string): (i: nat)
    requires x in names
    ensures i < |names| && names[i] == x && forall k :: 0 <= k < i ==> names[k] != x
  {
    if names[0] == x then 0 else IndexOf(names[1..], x) + 1
  }

  lemma {:induction false} FirstSeenMembers(names: seq<string>)
    ensures forall x :: x in FirstSeen(names) <==> x in names
  {
    if names != [] {
      var n := |names| - 1;
      FirstSeenMembers(names[..n]);
      assert names == names[..n] + [names[n]];
    }
  }

  /** No duplicates, the same members, and the order of first occurrence. */
  lemma {:induction false} FirstSeenOrder(names: seq<string>, i: nat, k: nat)
    requires i < k < |FirstSeen(names)|
    ensures FirstSeen(names)[i] != FirstSeen(names)[k]
    ensures FirstSeen(names)[i] in names && FirstSeen(names)[k] in names
    ensures IndexOf(names, FirstSeen(names)[i]) < IndexOf(names, FirstSeen(names)[k])
  {
    var n := |names| - 1;
    var front, seen := names[..n], FirstSeen(names);
    assert names == front + [names[n]];
    FirstSeenMembers(names);
    FirstSeenMembers(front);
    assert seen[i] in front;
    if k < |FirstSeen(front)| {
      FirstSeenOrder(front, i, k);
      assert seen[k] in front;
      assert IndexOf(front, seen[i]) == IndexOf(names, seen[i]) && IndexOf(front, seen[k]) == IndexOf(names, seen[k]) by {
        SameIndex(front, names, seen[i]);
        SameIndex(front, names, seen[k]);
      }
    } else {
      SameIndex(front, names, seen[i]);
    }
  }

  lemma SameIndex(front: seq<string>, whole: seq<string>, x: string)
    requires front <= whole && x in front
    ensures x in whole && IndexOf(front, x) == IndexOf(whole, x)
  {
    assert whole[IndexOf(front, x)] == x;
  }

  lemma {:induction false} FirstSeenAppends(names: seq<string>, x: string)
    ensures FirstSeen(names + [x]) == if x in names then FirstSeen(names) else FirstSeen(names) + [x]
  {
    assert (names + [x])[..|names|] == names;
    FirstSeenMembers(names);
  }

  lemma {:induction false} LatchNames(row: Row, marks: seq<(Verdict, nat)>)
    requires row.observed == []
    ensures RecordAll(row, marks).observed == FirstSeen(Names(marks)) && RecordAll(row, marks).model == row.model
  {
    if marks != [] {
      var n := |marks| - 1;
      var front := marks[..n];
      LatchNames(row, front);
      FirstSeenMembers(Names(front));
      if Key(marks[n].0) != "" {
        FirstSeenAppends(Names(front), Key(marks[n].0));
      } else {
        assert Names(marks) == Names(front) + [] == Names(front);
      }
    }
  }

  lemma {:induction false} LatchCounts(row: Row, marks: seq<(Verdict, nat)>)
    requires row.status == NotObserved && row.violations == 0 && row.code == None
    ensures var end := RecordAll(row, marks);
            && end.violations == Violations(marks) && end.code == LastCode(marks)
            && end.status == (if marks == [] then NotObserved else if Violations(marks) > 0 then Violated else Verified)
            && (Violations(marks) == 0 ==> LastCode(marks) == None)
  {
    if marks != [] {
      LatchCounts(row, marks[..|marks| - 1]);
    }
  }

  lemma {:induction false} ViolationsCount(marks: seq<(Verdict, nat)>)
    ensures Violations(marks) > 0 <==> exists m | m in marks :: m.0.violation
  {
    if marks != [] {
      var n := |marks| - 1;
      ViolationsCount(marks[..n]);
      assert marks == marks[..n] + [marks[n]];
      assert forall m :: m in marks <==> m in marks[..n] || m == marks[n];
    }
  }

  /** The whole-run meaning of the columns: violated exactly if some observation violated, verified
      exactly if something was observed and nothing violated; every name once in first-seen order; the
      number of violations and the last violation's code. */
  lemma LatchMeaning(row: Row, marks: seq<(Verdict, nat)>)
    requires row == Row(row.model, NotObserved, [], 0, None, None, None)
    ensures var end := RecordAll(row, marks);
            && (end.status == Violated <==> exists m | m in marks :: m.0.violation)
            && (end.status == Verified <==> marks != [] && forall m | m in marks :: !m.0.violation)
            && end.observed == FirstSeen(Names(marks))
            && end.violations == Violations(marks)
            && (end.status == Violated <==> end.violations > 0)
            && end.code == LastCode(marks)
            && end.model == row.model
  {
    LatchNames(row, marks);
    LatchCounts(row, marks);
    ViolationsCount(marks);
  }

  // ---------- the recorder's rows ----------

  /** The verdicts on one attempt in a sequence of events. */
  function MarksOf(events: seq<Event>, a: Id, contract: string): seq<(Verdict, nat)> {
    if events == [] then []
    else
      (match events[0]
       case Seen(o, now) => if o.attempt == a then [(Judge(contract, o), now)] else []
       case CachesEmptied => []) + MarksOf(events[1..], a, contract)
  }

  lemma RecordOneMore(row: Row, marks: seq<(Verdict, nat)>, m: (Verdict, nat))
    ensures RecordAll(row, marks + [m]) == Recorded(RecordAll(row, marks), m.0, m.1)
  {
    assert (marks + [m])[..|marks|] == marks;
  }

  lemma {:induction false} RecordAllJoins(row: Row, first: seq<(Verdict, nat)>, second: seq<(Verdict, nat)>)
    ensures RecordAll(row, first + second) == RecordAll(RecordAll(row, first), second)
  {
    if second == [] {
      assert first + second == first;
    } else {
      var front, last := second[..|second| - 1], second[|second| - 1];
      RecordAllJoins(row, first, front);
      RecordOneMore(row, first + front, last);
      assert first + second == first + front + [last];
    }
  }

  lemma {:induction false} RowsRecordTheirMarks(rows: Rows, events: seq<Event>, a: Id)
    requires a in rows && Contract(rows[a]).Some?
    ensures a in RunUncached(rows, events)
    ensures RunUncached(rows, events)[a] == RecordAll(rows[a], MarksOf(events, a, Contract(rows[a]).value))
    decreases |events|
  {
    if events != [] {
      var contract := Contract(rows[a]).value;
      var rest := MarksOf(events[1..], a, contract);
      match events[0] {
        case Seen(o, now) =>
          RowsRecordTheirMarks(Observe(rows, o, now), events[1..], a);
          if o.attempt == a {
            var mark := [(Judge(contract, o), now)];
            assert RecordAll(rows[a], mark) == Observe(rows, o, now)[a] by {
              assert mark[..0] == [];
            }
            RecordAllJoins(rows[a], mark, rest);
          } else {
            assert [] + rest == rest;
          }
        case CachesEmptied =>
          RowsRecordTheirMarks(rows, events[1..], a);
          assert [] + rest == rest;
      }
    }
  }

  /** The recorder with its caches, over any sequence of observations of any attempts and any emptying of
      the caches: an attempt with a contract ends up violated exactly if one of its observations did not
      match, and the list, the count and the code are those of the whole sequence. */
  lemma CachedLatchMeaning(rows: Rows, events: seq<Event>, a: Id)
    requires Fresh(rows) && a in rows && Contract(rows[a]).Some?
    ensures var end := RunCached(Cached(rows, map[], {}), events).rows;
            var marks := MarksOf(events, a, Contract(rows[a]).value);
            && a in end
            && (end[a].status == Violated <==> exists m | m in marks :: m.0.violation)
            && (end[a].status == Verified <==> marks != [] && forall m | m in marks :: !m.0.violation)
            && end[a].observed == FirstSeen(Names(marks))
            && end[a].violations == Violations(marks) && end[a].code == LastCode(marks)
  {
    CachesAreInvisible(Cached(rows, map[], {}), rows, events);
    RowsRecordTheirMarks(rows, events, a);
    LatchMeaning(rows[a], MarksOf(events, a, Contract(rows[a]).value));
  }

  // ---------- over the observations themselves ----------

  /** An observation of attempt `a`. */
  predicate Of(e: Event, a: Id) {
    e.Seen? && e.o.attempt == a
  }

  predicate Breaks(e: Event, a: Id, m: string) {
    Of(e, a) && !Conforms(m, e.o)
  }

  /** How many observations of `a` named no model or another one. */
  function Breaches(events: seq<Event>, a: Id, m: string): nat {
    if events == [] then 0 else (if Breaks(events[0], a, m) then 1 else 0) + Breaches(events[1..], a, m)
  }

  lemma {:induction false} MarksAreObservations(events: seq<Event>, a: Id, m: string)
    ensures MarksOf(events, a, m) == [] <==> forall e :: e in events ==> !Of(e, a)
  {
    if events != [] {
      MarksAreObservations(events[1..], a, m);
      assert forall e :: e in events <==> e == events[0] || e in events[1..];
      assert events[0] in events;
      if Of(events[0], a) {
        assert MarksOf(events, a, m) == [(Judge(m, events[0].o), events[0].now)] + MarksOf(events[1..], a, m);
      } else {
        assert MarksOf(events, a, m) == [] + MarksOf(events[1..], a, m);
      }
    }
  }

  lemma {:induction false} BreachesOccur(events: seq<Event>, a: Id, m: string)
    ensures Breaches(events, a, m) > 0 <==> exists e :: e in events && Breaks(e, a, m)
  {
    if events != [] {
      BreachesOccur(events[1..], a, m);
      assert forall e :: e in events <==> e == events[0] || e in events[1..];
    }
  }

  lemma {:induction false} ViolationsJoin(first: seq<(Verdict, nat)>, second: seq<(Verdict, nat)>)
    ensures Violations(first + second) == Violations(first) + Violations(second)
    ensures Names(first + second) == Names(first) + Names(second)
  {
    if second == [] {
      assert first + second == first;
    } else {
      var front, last := second[..|second| - 1], second[|second| - 1];
      ViolationsJoin(first, front);
      assert (first + second)[..|first + second| - 1] == first + front;
    }
  }

  lemma {:induction false} BreachesCounted(events: seq<Event>, a: Id, m: string)
    ensures Violations(MarksOf(events, a, m)) == Breaches(events, a, m)
    ensures forall x :: x in Names(MarksOf(events, a, m)) <==> x != "" && exists e :: e in events && Of(e, a) && Carried(e.o) == x
  {
    if events != [] {
      BreachesCounted(events[1..], a, m);
      assert forall e :: e in events <==> e == events[0] || e in events[1..];
      var rest := MarksOf(events[1..], a, m);
      if Of(events[0], a) {
        JudgedByConformity(m, events[0].o);
        var mark := [(Judge(m, events[0].o), events[0].now)];
        assert MarksOf(events, a, m) == mark + rest;
        ViolationsJoin(mark, rest);
        assert mark[..0] == [];
      } else {
        assert MarksOf(events, a, m) == rest;
      }
    }
  }

  /** The recorder with its caches, over any sequence of observations of any attempts and any emptying of the
      caches: an attempt made for `m` ends up violated exactly if some observation of it named no model or
      another one, verified exactly if there was one and all named that model; the list holds exactly the names
      observed, and the count is that of the breaches. */
  lemma LatchOverObservations(rows: Rows, events: seq<Event>, a: Id, m: string)
    requires Fresh(rows) && a in rows && MadeFor(rows[a], m)
    ensures var end := RunCached(Cached(rows, map[], {}), events).rows;
            && a in end
            && (end[a].status == Violated <==> exists e :: e in events && Breaks(e, a, m))
            && (end[a].status == Verified <==> (exists e :: e in events && Of(e, a)) && forall e :: e in events ==> !Breaks(e, a, m))
            && end[a].violations == Breaches(events, a, m)
            && (forall x :: x in end[a].observed <==> x != "" && exists e :: e in events && Of(e, a) && Carried(e.o) == x)
  {
    MadeForIsContract(rows[a], m);
    CachedLatchMeaning(rows, events, a);
    MarksAreObservations(events, a, m);
    BreachesCounted(events, a, m);
    BreachesOccur(events, a, m);
    ViolationsCount(MarksOf(events, a, m));
    FirstSeenMembers(Names(MarksOf(events, a, m)));
  }
}

/** Whether an attempt used the model it was created for: the latch on the attempt row, and the recorder
    whose process-local caches skip most of its writes. */
module ModelIntegrity {
  import opened Statuses

  type Id = nat

  datatype Integrity = NotObserved | Verified | Violated

  datatype Code = ModelMissing | ModelMismatch | AttemptMissing

  /** The two shortened names in the violation message. */
  datatype Reason = Reason(expected: string, observed: string)

  /** The integrity columns of an attempt row; `model` is fixed at creation. */
  datatype Row = Row(model: Option<string>, status: Integrity, observed: seq<string>, violations: nat,
                     code: Option<Code>, reason: Option<Reason>, checkedAt: Option<nat>)

  type Rows = map<Id, Row>

  datatype Decision = Decision(allowed: bool, expected: Option<string>, observed: Option<string>,
                               code: Option<Code>, reason: Option<Reason>, enforced: bool)

  // ---------- names ----------

  function TrimLeft(s: string): string {
    if s != "" && s[0] == '/' then TrimLeft(s[1..]) else s
  }

  function TrimRight(s: string): string {
    if s != "" && s[|s| - 1] == '/' then TrimRight(s[..|s| - 1]) else s
  }

  /** `provider.strip("/") + "/"`. */
  function Prefix(provider: string): string {
    TrimRight(TrimLeft(provider)) + "/"
  }

  /** `normalize_expected_model`. */
  function Normalize(expected: string, provider: string): string {
    var prefix := Prefix(provider);
    if prefix <= expected then expected[|prefix|..] else expected
  }

  /** Two contracts name the same upstream model only if they are equal or differ in the provider's own
      prefix: a slash inside a model id is never taken for a provider. */
  lemma NormalizeIdentifies(a: string, b: string, provider: string)
    ensures Normalize(a, provider) == Normalize(b, provider) <==>
            (a == b || (a == Prefix(provider) + b && !(Prefix(provider) <= b)) || (b == Prefix(provider) + a && !(Prefix(provider) <= a)))
  {
    var prefix := Prefix(provider);
    if prefix <= a {
      assert a == prefix + a[|prefix|..];
    }
    if prefix <= b {
      assert b == prefix + b[|prefix|..];
    }
  }

  /** The prefix is the provider's name without the slashes around it, and one slash. */
  lemma {:induction false} PrefixStrips(left: string, core: string, right: string)
    requires (forall i :: 0 <= i < |left| ==> left[i] == '/') && (forall i :: 0 <= i < |right| ==> right[i] == '/')
    requires core != "" && core[0] != '/' && core[|core| - 1] != '/'
    ensures Prefix(left + core + right) == core + "/"
    decreases |left|
  {
    if left != "" {
      assert (left + core + right)[1..] == left[1..] + core + right;
      PrefixStrips(left[1..], core, right);
    } else {
      assert left + core + right == core + right;
      StripsRight(core, right);
    }
  }

  lemma {:induction false} StripsRight(core: string, right: string)
    requires forall i :: 0 <= i < |right| ==> right[i] == '/'
    requires core != "" && core[|core| - 1] != '/'
    ensures TrimRight(core + right) == core
  {
    if right != "" {
      assert (core + right)[..|core + right| - 1] == core + right[..|right| - 1];
      StripsRight(core, right[..|right| - 1]);
    } else {
      assert core + right == core;
    }
  }

  predicate Blank(s: string) {
    forall i :: 0 <= i < |s| ==> s[i] in {' ', '\t', '\n', '\r'}
  }

  /** The contract of an attempt: a blank model is no contract. */
  function Contract(row: Row): Option<string> {
    if row.model.Some? && !Blank(row.model.value) then row.model else None
  }

  function Short(value: Option<string>): string {
    match value
    case None => "<missing>"
    case Some(s) => if |s| <= 200 then s else s[..197] + "..."
  }

  /** A shortened name is at most 200 characters long and begins like the whole one. */
  lemma ShortenedNames(s: string)
    ensures |Short(Some(s))| <= 200 && (|s| <= 200 ==> Short(Some(s)) == s)
    ensures |s| > 200 ==> |Short(Some(s))| == 200 && Short(Some(s))[..197] == s[..197] && Short(Some(s))[197..] == "..."
  {
  }

  // ---------- one observation ----------

  /** A request seen by the proxy before it is forwarded, or a model reported after the run. */
  datatype Observation =
    | Proxy(attempt: Id, provider: string, model: Option<string>)
    | Reported(attempt: Id, seen: string, via: Option<string>)

  datatype Verdict = Verdict(expected: string, observed: Option<string>, violation: bool, code: Option<Code>, reason: Option<Reason>)

  /** The comparison both validators make, given the contract. */
  function Judge(contract: string, o: Observation): Verdict {
    match o
    case Proxy(_, provider, model) =>
      var expected := Normalize(contract, provider);
      var missing := model.None? || model.value == "";
      var violation := missing || model.value != expected;
      Verdict(expected, model, violation,
              if missing then Some(ModelMissing) else if violation then Some(ModelMismatch) else None,
              if violation then Some(Reason(Short(Some(expected)), Short(model))) else None)
    case Reported(_, seen, via) =>
      var expected := if via.Some? && via.value != "" then Normalize(contract, via.value) else contract;
      var violation := seen != expected;
      Verdict(expected, Some(seen), violation,
              if violation then Some(ModelMismatch) else None,
              if violation then Some(Reason(Short(Some(expected)), Short(Some(seen)))) else None)
  }

  function Answer(v: Verdict): Decision {
    Decision(!v.violation, Some(v.expected), v.observed, v.code, v.reason, true)
  }

  /** The decision for an attempt that cannot be found or has no contract. */
  function Unenforced(found: bool, o: Observation): Decision {
    match o
    case Proxy(_, _, model) =>
      if found then Decision(true, None, model, None, None, false)
      else Decision(false, None, model, Some(AttemptMissing), None, true)
    case Reported(_, seen, _) => Decision(true, None, Some(seen), None, None, false)
  }

  /** `observed or ""`. */
  function Key(v: Verdict): string {
    if v.observed.Some? then v.observed.value else ""
  }

  /** The UPDATE of `_record`. */
  function Recorded(row: Row, v: Verdict, now: nat): Row {
    var key := Key(v);
    Row(row.model,
        if v.violation || row.status == Violated then Violated else Verified,
        if key != "" && key !in row.observed then row.observed + [key] else row.observed,
        row.violations + if v.violation then 1 else 0,
        if v.violation then v.code else if row.status == Violated then row.code else None,
        if v.violation then v.reason else if row.status == Violated then row.reason else None,
        Some(now))
  }

  // ---------- what an observation has to be ----------

  /** `x` is the name the contract has upstream of the provider: without the provider's prefix if it begins with
      it, and otherwise its own. */
  predicate Upstream(contract: string, provider: string, x: string) {
    contract == Prefix(provider) + x || (contract == x && !(Prefix(provider) <= contract))
  }

  /** The observation names the model of the contract, and no other. */
  predicate Conforms(contract: string, o: Observation) {
    match o
    case Proxy(_, provider, model) => model.Some? && model.value != "" && Upstream(contract, provider, model.value)
    case Reported(_, seen, via) => if via.Some? && via.value != "" then Upstream(contract, via.value, seen) else seen == contract
  }

  /** The name an observation carries, none being the empty one. */
  function Carried(o: Observation): string {
    match o
    case Proxy(_, _, model) => if model.Some? then model.value else ""
    case Reported(_, seen, _) => seen
  }

  /** An attempt was made for model `m`: a name that is not all blank. */
  predicate MadeFor(row: Row, m: string) {
    row.model == Some(m) && exists i :: 0 <= i < |m| && m[i] !in {' ', '\t', '\n', '\r'}
  }

  lemma UpstreamIsNormal(contract: string, provider: string, x: string)
    ensures Upstream(contract, provider, x) <==> Normalize(contract, provider) == x
  {
    if Prefix(provider) <= contract {
      assert contract == Prefix(provider) + contract[|Prefix(provider)|..];
    }
  }

  lemma JudgedByConformity(contract: string, o: Observation)
    ensures Judge(contract, o).violation <==> !Conforms(contract, o)
    ensures Key(Judge(contract, o)) == Carried(o)
    ensures !Conforms(contract, o) ==>
              Judge(contract, o).code == Some(if o.Proxy? && Carried(o) == "" then ModelMissing else ModelMismatch)
    ensures Conforms(contract, o) ==> Judge(contract, o).code == None
  {
    match o {
      case Proxy(_, provider, model) =>
        if model.Some? {
          UpstreamIsNormal(contract, provider, model.value);
        }
      case Reported(_, seen, via) =>
        if via.Some? {
          UpstreamIsNormal(contract, via.value, seen);
        }
    }
  }

  lemma MadeForIsContract(row: Row, m: string)
    ensures MadeFor(row, m) <==> Contract(row) == Some(m)
  {
  }

  /** The decision on one observation.  For an attempt made for `m`: allowed exactly if the observation names that
      model, refused as missing or mismatched otherwise, and recorded either way.  Without such a model nothing
      is enforced or recorded, except that the proxy refuses unknown attempts. */
  ghost predicate DecidedRightly(before: Rows, after: Rows, o: Observation, d: Decision) {
    && (forall a :: a in before && a != o.attempt ==> a in after && SameRow(before[a], after[a]))
    && (forall m :: o.attempt in before && MadeFor(before[o.attempt], m) ==>
          Enforces(before[o.attempt], if o.attempt in after then Some(after[o.attempt]) else None, m, o, d))
    && (o.attempt in before && (forall m :: !MadeFor(before[o.attempt], m)) ==>
          && d.allowed && !d.enforced && d.code == None && o.attempt in after && SameRow(before[o.attempt], after[o.attempt]))
    && (o.attempt !in before ==>
          && o.attempt !in after
          && (d.allowed <==> o.Reported?) && (d.enforced <==> o.Proxy?)
          && d.code == if o.Proxy? then Some(AttemptMissing) else None)
  }

  ghost predicate Enforces(before: Row, after: Option<Row>, m: string, o: Observation, d: Decision) {
    && d.enforced && (d.allowed <==> Conforms(m, o)) && (d.reason.Some? <==> !Conforms(m, o))
    && d.observed == (if o.Proxy? then o.model else Some(o.seen))
    && d.code == (if Conforms(m, o) then None else Some(if o.Proxy? && Carried(o) == "" then ModelMissing else ModelMismatch))
    && after.Some? && after.value.model == before.model
    && (after.value.status == Violated <==> before.status == Violated || !Conforms(m, o))
    && (after.value.status == Verified <==> before.status != Violated && Conforms(m, o))
    && after.value.violations == before.violations + (if Conforms(m, o) then 0 else 1)
    && (forall x :: x in after.value.observed <==> x in before.observed || (x == Carried(o) && x != ""))
  }

  // ---------- without caches ----------

  function Enforced(rows: Rows, o: Observation): Option<Verdict> {
    if o.attempt in rows && Contract(rows[o.attempt]).Some? then Some(Judge(Contract(rows[o.attempt]).value, o)) else None
  }

  /** Looking the contract up and writing the row every time. */
  function Observe(rows: Rows, o: Observation, now: nat): Rows {
    var v := Enforced(rows, o);
    if v.Some? then rows[o.attempt := Recorded(rows[o.attempt], v.value, now)] else rows
  }

  function Decide(rows: Rows, o: Observation): Decision {
    var v := Enforced(rows, o);
    if v.Some? then Answer(v.value) else Unenforced(o.attempt in rows, o)
  }

  lemma EnforcedRightly(rows: Rows, o: Observation, now: nat, m: string)
    requires o.attempt in rows && MadeFor(rows[o.attempt], m)
    ensures Enforces(rows[o.attempt], Some(Observe(rows, o, now)[o.attempt]), m, o, Decide(rows, o))
  {
    MadeForIsContract(rows[o.attempt], m);
    JudgedByConformity(m, o);
  }

  lemma ObservedRightly(rows: Rows, o: Observation, now: nat)
    ensures DecidedRightly(rows, Observe(rows, o, now), o, Decide(rows, o))
  {
    if o.attempt in rows {
      forall m
        ensures MadeFor(rows[o.attempt], m) <==> Contract(rows[o.attempt]) == Some(m)
      {
        MadeForIsContract(rows[o.attempt], m);
      }
      forall m | MadeFor(rows[o.attempt], m)
        ensures Enforces(rows[o.attempt], Some(Observe(rows, o, now)[o.attempt]), m, o, Decide(rows, o))
      {
        EnforcedRightly(rows, o, now, m);
      }
      if Contract(rows[o.attempt]).Some? {
        assert MadeFor(rows[o.attempt], Contract(rows[o.attempt]).value);
      }
    }
  }

  /** The time of a check does not matter to the decision. */
  lemma SameIsDecidedRightly(before: Rows, x: Rows, y: Rows, o: Observation, d: Decision)
    requires DecidedRightly(before, x, o, d) && Same(y, x)
    ensures DecidedRightly(before, y, o, d)
  {
    forall a | a in x
      ensures SameRow(x[a], y[a])
    {
    }
    forall m | o.attempt in before && MadeFor(before[o.attempt], m)
      ensures Enforces(before[o.attempt], if o.attempt in y then Some(y[o.attempt]) else None, m, o, d)
    {
      assert Enforces(before[o.attempt], if o.attempt in x then Some(x[o.attempt]) else None, m, o, d);
    }
  }

  lemma CheckedRightly(before: Rows, after: Rows, o: Observation, now: nat, d: Decision)
    requires Same(after, Observe(before, o, now)) && d == Decide(before, o)
    ensures DecidedRightly(before, after, o, d)
  {
    ObservedRightly(before, o, now);
    SameIsDecidedRightly(before, Observe(before, o, now), after, o, d);
  }

  // ---------- with caches ----------

  /** The attempt table and the two process-local caches. */
  datatype Cached = Cached(rows: Rows, expected: map<Id, Option<string>>, matches: set<(Id, string)>)

  /** What the caches may claim: contracts as in the table, and a remembered match means that writing it
      again would change nothing but the time. */
  predicate Consistent(c: Cached) {
    && (forall a :: a in c.expected ==> a in c.rows && c.expected[a] == Contract(c.rows[a]))
    && (forall m :: m in c.matches ==> m.0 in c.rows && Settled(c.rows[m.0], m.1))
    && (forall a :: a in c.rows ==> Clean(c.rows[a]))
  }

  predicate Settled(row: Row, key: string) {
    row.status != NotObserved && (key == "" || key in row.observed)
  }

  predicate Fresh(rows: Rows) {
    forall a :: a in rows ==> rows[a] == Row(rows[a].model, NotObserved, [], 0, None, None, None)
  }

  predicate SameRow(x: Row, y: Row) {
    x.(checkedAt := None) == y.(checkedAt := None)
  }

  /** Equal up to `checked_at`. */
  predicate Same(x: Rows, y: Rows) {
    x.Keys == y.Keys && forall a :: a in x ==> SameRow(x[a], y[a])
  }

  function Skips(c: Cached, a: Id, v: Verdict): bool {
    !v.violation && (a, Key(v)) in c.matches
  }

  function ObserveCached(c: Cached, o: Observation, now: nat): Cached {
    var a := o.attempt;
    if a !in c.expected && a !in c.rows then c
    else
      var contract := if a in c.expected then c.expected[a] else Contract(c.rows[a]);
      var d := c.(expected := c.expected[a := contract]);
      if contract.None? then d
      else
        var v := Judge(contract.value, o);
        if Skips(c, a, v) || a !in c.rows then d
        else d.(rows := c.rows[a := Recorded(c.rows[a], v, now)],
                matches := if v.violation then c.matches else c.matches + {(a, Key(v))})
  }

  /** A row without a violation carries no error. */
  predicate Clean(row: Row) {
    row.status != Violated ==> row.code == None && row.reason == None
  }

  lemma RecordedRows(x: Row, y: Row, v: Verdict, now: nat, later: nat, m: string)
    requires SameRow(x, y) && Clean(x)
    ensures SameRow(Recorded(x, v, now), Recorded(y, v, later)) && Clean(Recorded(x, v, now))
    ensures Settled(Recorded(x, v, now), Key(v))
    ensures Settled(x, m) ==> Settled(Recorded(x, v, now), m)
    ensures Settled(x, Key(v)) && !v.violation ==> SameRow(x, Recorded(y, v, later))
  {
  }

  lemma WriteAgrees(c: Cached, rows: Rows, a: Id, v: Verdict, now: nat, later: nat)
    requires Consistent(c) && Same(c.rows, rows) && a in c.rows
    ensures var written := c.(rows := c.rows[a := Recorded(c.rows[a], v, now)],
                              matches := if v.violation then c.matches else c.matches + {(a, Key(v))});
            Consistent(written) && Same(written.rows, rows[a := Recorded(rows[a], v, later)])
    ensures Skips(c, a, v) ==> Same(c.rows, rows[a := Recorded(rows[a], v, later)])
  {
    var written := c.(rows := c.rows[a := Recorded(c.rows[a], v, now)],
                      matches := if v.violation then c.matches else c.matches + {(a, Key(v))});
    RecordedRows(c.rows[a], rows[a], v, now, later, Key(v));
    forall m | m in written.matches
      ensures m.0 in written.rows && Settled(written.rows[m.0], m.1)
    {
      RecordedRows(c.rows[a], rows[a], v, now, later, m.1);
    }
  }

  /** One step of the cached recorder keeps its caches consistent and agrees with the uncached one. */
  lemma CachedStepAgrees(c: Cached, rows: Rows, o: Observation, now: nat, later: nat)
    requires Consistent(c) && Same(c.rows, rows)
    ensures Consistent(ObserveCached(c, o, now)) && Same(ObserveCached(c, o, now).rows, Observe(rows, o, later))
    ensures Decide(c.rows, o) == Decide(rows, o)
  {
    var a := o.attempt;
    if a in c.rows {
      assert SameRow(c.rows[a], rows[a]);
      Remembered(c, a);
      if Contract(rows[a]).Some? {
        WriteAgrees(c.(expected := c.expected[a := Contract(c.rows[a])]), rows, a, Judge(Contract(rows[a]).value, o), now, later);
      }
    }
  }

  /** Remembering the contract of an attempt keeps the caches consistent. */
  lemma Remembered(c: Cached, a: Id)
    requires Consistent(c) && a in c.rows
    ensures Consistent(c.(expected := c.expected[a := Contract(c.rows[a])]))
    ensures a in c.expected ==> c.expected[a] == Contract(c.rows[a])
  {
  }

  /** Observations with the time they happen, and process restarts or cache resets in between. */
  datatype Event = Seen(o: Observation, now: nat) | CachesEmptied

  function RunCached(c: Cached, events: seq<Event>): Cached
    decreases |events|
  {
    if events == [] then c
    else RunCached(match events[0]
                   case Seen(o, now) => ObserveCached(c, o, now)
                   case CachesEmptied => c.(expected := map[], matches := {}), events[1..])
  }

  function RunUncached(rows: Rows, events: seq<Event>): Rows
    decreases |events|
  {
    if events == [] then rows
    else RunUncached(match events[0]
                     case Seen(o, now) => Observe(rows, o, now)
                     case CachesEmptied => rows, events[1..])
  }

  /** For every sequence of observations under any providers, with the caches emptied at any point: the
      rows are those of the recorder that always writes, except for `checked_at`. */
  lemma {:induction false} CachesAreInvisible(c: Cached, rows: Rows, events: seq<Event>)
    requires Consistent(c) && Same(c.rows, rows)
    ensures Consistent(RunCached(c, events)) && Same(RunCached(c, events).rows, RunUncached(rows, events))
    decreases |events|
  {
    if events != [] {
      match events[0] {
        case Seen(o, now) =>
          CachedStepAgrees(c, rows, o, now, now);
          CachesAreInvisible(ObserveCached(c, o, now), Observe(rows, o, now), events[1..]);
        case CachesEmptied =>
          CachesAreInvisible(c.(expected := map[], matches := {}), rows, events[1..]);
      }
    }
  }

  /** The recorder as the service runs it. */
  class Recorder {
    var rows: Rows
    var expected: map<Id, Option<string>>
    var matches: set<(Id, string)>

    ghost function State(): Cached
      reads this
    {
      Cached(rows, expected, matches)
    }

    constructor (table: Rows)
      requires Fresh(table)
      ensures State() == Cached(table, map[], {}) && Consistent(State())
    {
      rows, expected, matches := table, map[], {};
    }

    /** `reset_caches`. */
    method ResetCaches()
      modifies this`expected, this`matches
      ensures State() == old(State()).(expected := map[], matches := {})
    {
      expected, matches := map[], {};
    }

    /** `_expected_model`. */
    method ExpectedModel(a: Id) returns (found: bool, contract: Option<string>)
      requires Consistent(State())
      modifies this`expected
      ensures found <==> a in rows
      ensures found ==> contract == Contract(rows[a]) && expected == old(expected)[a := contract]
      ensures !found ==> contract == None && expected == old(expected)
    {
      if a in expected {
        assert expected == expected[a := expected[a]];
        return true, expected[a];
      }
      if a !in rows {
        return false, None;
      }
      contract := Contract(rows[a]);
      expected := expected[a := contract];
      found := true;
    }

    /** `_record`: skipped or not, the rows are those of a recorder that always writes, up to the time; the
        caches stay true; a violation latches the row and a latched row stays so; and a match is skipped
        from then on. */
    method Record(a: Id, v: Verdict, now: nat)
      requires Consistent(State()) && a in rows
      modifies this`rows, this`matches
      ensures Consistent(State()) && Same(rows, old(rows)[a := Recorded(old(rows)[a], v, now)])
      ensures rows - {a} == old(rows) - {a} && a in rows && rows[a].model == old(rows)[a].model
      ensures rows[a].status == Violated <==> v.violation || old(rows)[a].status == Violated
      ensures Settled(rows[a], Key(v)) && old(rows)[a].observed <= rows[a].observed
      ensures Skips(State(), a, v) <==> !v.violation
      ensures Skips(old(State()), a, v) ==> State() == old(State())
      ensures !Skips(old(State()), a, v) ==>
                && rows == old(rows)[a := Recorded(old(rows)[a], v, now)]
                && matches == if v.violation then old(matches) else old(matches) + {(a, Key(v))}
    {
      WriteAgrees(State(), rows, a, v, now, now);
      var key := Key(v);
      if !v.violation && (a, key) in matches {
        return;
      }
      var row := rows[a];
      var observed := row.observed;
      if key != "" && key !in observed {
        observed := observed + [key];
      }
      var status := if v.violation || row.status == Violated then Violated else Verified;
      var code := if v.violation then v.code else if row.status == Violated then row.code else None;
      var reason := if v.violation then v.reason else if row.status == Violated then row.reason else None;
      rows := rows[a := Row(row.model, status, observed, row.violations + if v.violation then 1 else 0, code, reason, Some(now))];
      if !v.violation {
        matches := matches + {(a, key)};
      }
    }

    /** `validate_proxy_model` and `observe_model`: the decision is that of the uncached recorder, and so
        are the rows, except for the time of a skipped write. */
    method Check(o: Observation, now: nat) returns (d: Decision)
      requires Consistent(State())
      modifies this
      ensures State() == ObserveCached(old(State()), o, now) && Consistent(State())
      ensures Same(rows, Observe(old(rows), o, now))
      ensures d == Decide(old(rows), o)
      ensures DecidedRightly(old(rows), rows, o, d)
    {
      CachedStepAgrees(State(), rows, o, now, now);
      var found, contract := ExpectedModel(o.attempt);
      if !found || contract.None? {
        d := Unenforced(found, o);
      } else {
        var v := Judge(contract.value, o);
        Record(o.attempt, v, now);
        d := Answer(v);
      }
      CheckedRightly(old(rows), rows, o, now, d);
    }
  }
}

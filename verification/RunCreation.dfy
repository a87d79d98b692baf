/** Creating a run under an idempotency key: the claim, one transaction per attempt, the completion, and
    a crash or an error anywhere in between. */
module RunCreation {
  import opened Statuses
  import opened Idempotency

  const OPERATION := "legacy_run:create"

  /** The run id is a function of the key, taken to be injective, so runs are indexed by the key. */
  type RunKey = string

  /** Agent and model of one attempt, and the plan of a run. */
  type Spec = string
  type Plan = seq<Spec>

  /** A request being carried out: its plan and how many attempts it has created. */
  datatype Maker = Maker(plan: Plan, made: nat)

  /** `origin` remembers the plan of the request that created the first attempt of a run. */
  datatype Service = Service(rows: Records, runs: map<RunKey, seq<Spec>>, makers: map<RunKey, Maker>, origin: map<RunKey, Plan>)

  const START := Service(map[], map[], map[], map[])

  datatype Step =
    | Begin(key: RunKey, h: Hash, plan: Plan)
    | MakeAttempt(key: RunKey)
    | Finish(key: RunKey)
    | TaskFails(key: RunKey)
    | Aborts(key: RunKey)
    | Restart

  function Row(key: RunKey): Key {
    (OPERATION, key)
  }

  /** The stored response lists the attempts, each character quoted. */
  function Response(attempts: seq<Spec>): string {
    if attempts == [] then "" else Quoted(attempts[0]) + Response(attempts[1..])
  }

  function Quoted(s: Spec): string {
    if s == "" then ";" else ['\'', s[0]] + Quoted(s[1..])
  }

  lemma {:induction false} QuotedCancels(s: Spec, t: Spec, x: string, y: string)
    requires Quoted(s) + x == Quoted(t) + y
    ensures s == t && x == y
  {
    var left, right := Quoted(s) + x, Quoted(t) + y;
    assert left[0] == right[0];
    if s == "" || t == "" {
      assert left[1..] == x && right[1..] == y;
    } else {
      assert left[1] == right[1];
      assert left[2..] == Quoted(s[1..]) + x && right[2..] == Quoted(t[1..]) + y;
      QuotedCancels(s[1..], t[1..], x, y);
      assert s == [s[0]] + s[1..] && t == [t[0]] + t[1..];
    }
  }

  /** A response tells the attempts. */
  lemma {:induction false} ResponsesTellAttempts(a: seq<Spec>, b: seq<Spec>)
    requires Response(a) == Response(b)
    ensures a == b
  {
    if a != [] && b != [] {
      QuotedCancels(a[0], b[0], Response(a[1..]), Response(b[1..]));
      ResponsesTellAttempts(a[1..], b[1..]);
      assert a == [a[0]] + a[1..] && b == [b[0]] + b[1..];
    }
  }

  predicate Enabled(s: Service, step: Step) {
    match step
    case Begin(key, _, plan) => key !in s.makers && plan != []
    case MakeAttempt(key) => key in s.makers && s.makers[key].made < |s.makers[key].plan|
    case Finish(key) => key in s.makers && s.makers[key].made == |s.makers[key].plan|
    case TaskFails(key) => key in s.makers && s.makers[key].made == 0
    case Aborts(key) => key in s.makers
    case Restart => true
  }

  function Existing(s: Service): set<(string, Id)> {
    set key | key in s.runs :: (OPERATION, key)
  }

  function Apply(s: Service, step: Step): Service
    requires Enabled(s, step)
  {
    match step
    case Begin(key, h, plan) =>
      if ClaimAnswer(s.rows, Row(key), h) != Granted then s
      else
        var rows := Claimed(s.rows, Row(key), h);
        if key in s.runs then s.(rows := Finished(rows, Row(key), key, Response(s.runs[key])))
        else s.(rows := rows, makers := s.makers[key := Maker(plan, 0)])
    case MakeAttempt(key) =>
      var m := s.makers[key];
      s.(runs := s.runs[key := (if key in s.runs then s.runs[key] else []) + [m.plan[m.made]]],
         makers := s.makers[key := Maker(m.plan, m.made + 1)],
         origin := s.origin[key := m.plan])
    case Finish(key) =>
      s.(rows := Finished(s.rows, Row(key), key, Response(s.makers[key].plan)), makers := s.makers - {key})
    case TaskFails(key) => s.(rows := GivenUp(s.rows, Row(key)), makers := s.makers - {key})
    case Aborts(key) => s.(makers := s.makers - {key})
    case Restart => s.(rows := Reconciled(s.rows, Existing(s)), makers := map[])
  }

  predicate MakerOk(s: Service, key: RunKey)
    requires key in s.makers
  {
    var m := s.makers[key];
    && m.plan != [] && m.made <= |m.plan| && InHand(s.rows, Row(key))
    && (m.made == 0 ==> key !in s.runs)
    && (m.made > 0 ==> key in s.runs && s.runs[key] == m.plan[..m.made] && key in s.origin && s.origin[key] == m.plan)
  }

  predicate RunOk(s: Service, key: RunKey)
    requires key in s.runs
  {
    && Row(key) in s.rows && key in s.origin
    && s.runs[key] != [] && s.runs[key] <= s.origin[key]
  }

  predicate DoneOk(s: Service, key: RunKey) {
    Row(key) in s.rows && s.rows[Row(key)].progress == Done ==>
      && key in s.runs && key !in s.makers
      && s.rows[Row(key)].result == Some(key) && s.rows[Row(key)].response == Some(Response(s.runs[key]))
  }

  ghost predicate Invariant(s: Service) {
    && Blank(s.rows)
    && (forall key :: key in s.makers ==> MakerOk(s, key))
    && (forall key :: key in s.runs ==> RunOk(s, key))
    && (forall key {:trigger DoneOk(s, key)} :: DoneOk(s, key))
  }

  /** A run that nobody is building any more. */
  predicate Closed(s: Service, key: RunKey) {
    key in s.runs && key !in s.makers
  }

  /** All that the invariant says about one key. */
  predicate KeyOk(s: Service, key: RunKey) {
    && (key in s.makers ==> MakerOk(s, key))
    && (key in s.runs ==> RunOk(s, key))
    && DoneOk(s, key)
  }

  /** The run of a key only grows, and not at all once nobody builds it. */
  predicate RunKept(s: Service, t: Service, key: RunKey) {
    key in s.runs ==>
      && key in t.runs && s.runs[key] <= t.runs[key]
      && (key !in s.makers ==> key !in t.makers && t.runs[key] == s.runs[key])
  }

  lemma OtherKey(s: Service, step: Step, key: RunKey)
    requires KeyOk(s, key) && Enabled(s, step) && !step.Restart? && step.key != key
    ensures KeyOk(Apply(s, step), key) && RunKept(s, Apply(s, step), key)
  {
    var t := Apply(s, step);
    assert Row(key) != Row(step.key);
    assert Row(key) in t.rows <==> Row(key) in s.rows;
    assert Row(key) in s.rows ==> t.rows[Row(key)] == s.rows[Row(key)];
  }

  lemma OwnKey(s: Service, step: Step)
    requires !step.Restart? && KeyOk(s, step.key) && Enabled(s, step)
    ensures KeyOk(Apply(s, step), step.key) && RunKept(s, Apply(s, step), step.key)
  {
    var key := step.key;
    if step.MakeAttempt? {
      var m := s.makers[key];
      assert m.plan[..m.made + 1] == m.plan[..m.made] + [m.plan[m.made]];
    } else if step.Finish? {
      assert s.makers[key].plan[..s.makers[key].made] == s.makers[key].plan;
    }
  }

  lemma RestartedKey(s: Service, key: RunKey)
    requires Blank(s.rows) && KeyOk(s, key)
    ensures KeyOk(Apply(s, Restart), key) && RunKept(s, Apply(s, Restart), key)
  {
  }

  lemma StepKeepsInvariant(s: Service, step: Step)
    requires Invariant(s) && Enabled(s, step)
    ensures Invariant(Apply(s, step))
    ensures forall key {:trigger RunKept(s, Apply(s, step), key)} :: RunKept(s, Apply(s, step), key)
  {
    forall key
      ensures KeyOk(Apply(s, step), key) && RunKept(s, Apply(s, step), key)
    {
      assert DoneOk(s, key);
      assert KeyOk(s, key);
      if step.Restart? {
        RestartedKey(s, key);
      } else if step.key == key {
        OwnKey(s, step);
      } else {
        OtherKey(s, step, key);
      }
    }
    forall key
      ensures DoneOk(Apply(s, step), key)
    {
      assert KeyOk(Apply(s, step), key);
    }
    forall key | key in Apply(s, step).makers
      ensures MakerOk(Apply(s, step), key)
    {
      assert KeyOk(Apply(s, step), key);
    }
    forall key | key in Apply(s, step).runs
      ensures RunOk(Apply(s, step), key)
    {
      assert KeyOk(Apply(s, step), key);
    }
  }

  predicate Runs(s: Service, steps: seq<Step>)
    decreases |steps|
  {
    steps == [] || (Enabled(s, steps[0]) && Runs(Apply(s, steps[0]), steps[1..]))
  }

  function After(s: Service, steps: seq<Step>): Service
    requires Runs(s, steps)
    decreases |steps|
  {
    if steps == [] then s else After(Apply(s, steps[0]), steps[1..])
  }

  /** Over every sequence of requests, errors and restarts: one key has at most one run, built by one
      request from one plan without repeating an attempt; once nobody builds it, it never changes; and a
      completed key always finds its run and answers with exactly its attempts. */
  lemma {:induction false} OneRunPerKey(s: Service, steps: seq<Step>)
    requires Invariant(s) && Runs(s, steps)
    ensures Invariant(After(s, steps))
    ensures forall key {:trigger RunKept(s, After(s, steps), key)} :: RunKept(s, After(s, steps), key)
    decreases |steps|
  {
    if steps != [] {
      var t, end := Apply(s, steps[0]), After(s, steps);
      StepKeepsInvariant(s, steps[0]);
      OneRunPerKey(t, steps[1..]);
      forall key
        ensures RunKept(s, end, key)
      {
        assert RunKept(s, t, key) && RunKept(t, end, key);
      }
    }
  }

  /** From an empty service: a completed key finds its run, a run belongs to a claimed key, and the
      attempts of a run are the first ones of the plan it was built from. */
  lemma CompletedKeysFindTheirRun(steps: seq<Step>, key: RunKey)
    requires Runs(START, steps)
    ensures var end := After(START, steps);
            && (("legacy_run:create", key) in end.rows && end.rows[("legacy_run:create", key)].progress == Done ==>
                  && key in end.runs
                  && forall attempts :: end.rows[("legacy_run:create", key)].response == Some(Response(attempts)) <==> attempts == end.runs[key])
            && (key in end.runs ==> ("legacy_run:create", key) in end.rows && key in end.origin && end.runs[key] != [] && end.runs[key] <= end.origin[key])
  {
    OneRunPerKey(START, steps);
    var end := After(START, steps);
    assert DoneOk(end, key);
    forall attempts | key in end.runs && Response(attempts) == Response(end.runs[key])
      ensures attempts == end.runs[key]
    {
      ResponsesTellAttempts(attempts, end.runs[key]);
    }
  }

  // ---------- when a run is complete ----------

  /** A run that is no longer built and has fewer attempts than planned. */
  predicate Short(s: Service, key: RunKey) {
    Closed(s, key) && key in s.origin && s.runs[key] != s.origin[key]
  }

  /** A step makes a run short exactly if it is an error or a crash that hits its request after the first
      attempt and before the last. */
  lemma ShortExactly(s: Service, step: Step, key: RunKey)
    requires Invariant(s) && Enabled(s, step)
    ensures Short(Apply(s, step), key) <==>
            (Short(s, key) ||
             ((step == Aborts(key) || step.Restart?) && key in s.makers && 0 < s.makers[key].made < |s.makers[key].plan|))
  {
    StepKeepsInvariant(s, step);
    assert RunKept(s, Apply(s, step), key);
    if key in s.makers {
      assert MakerOk(s, key);
      assert s.makers[key].made == |s.makers[key].plan| ==> s.makers[key].plan[..s.makers[key].made] == s.makers[key].plan;
      assert 0 < s.makers[key].made < |s.makers[key].plan| ==> |s.runs[key]| == s.makers[key].made;
    }
  }

  /** A short run is never repaired: after a restart the same request is granted again, finds the run, and
      completes the key with the attempts that happen to exist; every later request replays them. */
  lemma ShortRunsArePermanent(s: Service, steps: seq<Step>, key: RunKey, h: Hash, plan: Plan)
    requires Invariant(s) && Short(s, key) && Runs(s, steps) && plan != []
    requires Row(key) in After(s, steps).rows && After(s, steps).rows[Row(key)].progress == Failing
    requires h == After(s, steps).rows[Row(key)].hash
    ensures var end := After(s, steps);
            && key !in end.makers
            && var retried := Apply(end, Begin(key, h, plan));
            && key in s.runs && key in end.runs && retried.runs == end.runs && end.runs[key] == s.runs[key]
            && ClaimAnswer(retried.rows, Row(key), h) == Replayed(Some(key), Some(Response(s.runs[key])))
  {
    OneRunPerKey(s, steps);
    assert RunKept(s, After(s, steps), key);
  }
}

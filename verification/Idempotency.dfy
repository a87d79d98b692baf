/** The ledger of idempotency keys: claim, complete, fail and the reconciliation at startup. */
module Idempotency {
  import opened Statuses

  type Key = (string, string)   // operation, key
  type Hash = nat
  type Id = string

  datatype Progress = InProgress | Done | Failing

  datatype Record = Record(hash: Hash, progress: Progress, result: Option<Id>, response: Option<string>)

  type Records = map<Key, Record>

  /** What a claim answers; `Conflict` and `Busy` are the two exceptions. */
  datatype Claim = Granted | Replayed(result: Option<Id>, response: Option<string>) | Conflict | Busy

  // ---------- the statements ----------

  function ClaimAnswer(rows: Records, k: Key, h: Hash): Claim {
    if k !in rows then Granted
    else if rows[k].hash != h then Conflict
    else match rows[k].progress
         case InProgress => Busy
         case Done => Replayed(rows[k].result, rows[k].response)
         case Failing => Granted
  }

  function Claimed(rows: Records, k: Key, h: Hash): Records {
    if ClaimAnswer(rows, k, h) == Granted then rows[k := Record(h, InProgress, None, None)] else rows
  }

  predicate InHand(rows: Records, k: Key) {
    k in rows && rows[k].progress == InProgress
  }

  function Finished(rows: Records, k: Key, result: Id, response: string): Records {
    if InHand(rows, k) then rows[k := rows[k].(progress := Done, result := Some(result), response := Some(response))] else rows
  }

  function GivenUp(rows: Records, k: Key): Records {
    if InHand(rows, k) then rows[k := rows[k].(progress := Failing)] else rows
  }

  const TABLES: set<string> := {"experiment:create", "run_group:create", "legacy_run:create"}

  /** `existing` holds, per operation, the ids present in the table of its results. */
  predicate ResultExists(k: Key, r: Record, existing: set<(string, Id)>) {
    k.0 in TABLES && r.result.Some? && r.result.value != "" && (k.0, r.result.value) in existing
  }

  /** `json.dumps({"id": result_id})`. */
  function IdResponse(result: Id): string {
    "{\"id\": \"" + result + "\"}"
  }

  function ReconciledRow(k: Key, r: Record, existing: set<(string, Id)>): Record {
    if r.progress != InProgress then r
    else if !ResultExists(k, r, existing) then r.(progress := Failing)
    else r.(progress := Done,
            response := if r.response.Some? && r.response.value != "" then r.response else Some(IdResponse(r.result.value)))
  }

  function Reconciled(rows: Records, existing: set<(string, Id)>): Records {
    map k | k in rows :: ReconciledRow(k, rows[k], existing)
  }

  /** A running key has no result yet. */
  predicate Blank(rows: Records) {
    forall k :: k in rows && rows[k].progress == InProgress ==> rows[k].result == None && rows[k].response == None
  }

  /** Every other key keeps its row. */
  predicate OthersKept(before: Records, after: Records, k: Key) {
    after - {k} == before - {k}
  }

  /** What every later claim of `k` answers. */
  ghost predicate Answers(rows: Records, k: Key, hash: Hash, answer: Claim) {
    forall h :: ClaimAnswer(rows, k, h) == if h == hash then answer else Conflict
  }

  /** What a reconciliation does to one key: nothing stays in progress; exactly the running keys whose result
      exists are completed, with an answer to give; and the rest is left alone. */
  predicate Resolved(before: Record, after: Record, k: Key, existing: set<(string, Id)>) {
    && after.progress != InProgress && after.hash == before.hash && after.result == before.result
    && if before.progress != InProgress then after == before
       else if !Known(k, before, existing) then after.progress == Failing && after.response == before.response
       else
         && after.progress == Done
         && after.response == Some(if before.response.Some? && before.response.value != "" then before.response.value
                                   else "{\"id\": \"" + before.result.value + "\"}")
  }

  /** The result of the key is in the table of its operation. */
  predicate Known(k: Key, r: Record, existing: set<(string, Id)>) {
    && k.0 in {"experiment:create", "run_group:create", "legacy_run:create"}
    && r.result.Some? && |r.result.value| > 0 && (k.0, r.result.value) in existing
  }

  /** `reconcile_idempotency` on every key. */
  lemma ReconciliationResolves(rows: Records, existing: set<(string, Id)>, k: Key)
    requires k in rows
    ensures k in Reconciled(rows, existing) && Resolved(rows[k], Reconciled(rows, existing)[k], k, existing)
  {
  }

  class Ledger {
    var rows: Records

    ghost predicate Valid()
      reads this
    {
      Blank(rows)
    }

    constructor ()
      ensures Valid() && rows == map[]
    {
      rows := map[];
    }

    /** `claim_idempotency`: a grant takes the key, so that every later claim of it is busy or in conflict;
        any other answer leaves the ledger as it is. */
    method ClaimKey(k: Key, h: Hash) returns (answer: Claim)
      requires Valid()
      modifies this
      ensures Valid() && OthersKept(old(rows), rows, k)
      ensures answer == Granted ==> !InHand(old(rows), k) && InHand(rows, k) && Answers(rows, k, h, Busy)
      ensures answer != Granted ==> rows == old(rows)
      ensures answer == ClaimAnswer(old(rows), k, h) && rows == Claimed(old(rows), k, h)
    {
      if k !in rows {
        rows := rows[k := Record(h, InProgress, None, None)];
        return Granted;
      }
      var row := rows[k];
      if row.hash != h {
        return Conflict;
      }
      if row.progress == InProgress {
        return Busy;
      }
      if row.progress == Done {
        return Replayed(row.result, row.response);
      }
      rows := rows[k := row.(progress := InProgress, result := None, response := None)];
      return Granted;
    }

    /** `complete_idempotency`; `ok` is false where the source raises.  From then on the same request is
        answered with the result and any other is in conflict. */
    method Complete(k: Key, result: Id, response: string) returns (ok: bool)
      requires Valid()
      modifies this
      ensures Valid() && OthersKept(old(rows), rows, k)
      ensures ok ==> InHand(old(rows), k) && !InHand(rows, k)
                     && Answers(rows, k, old(rows)[k].hash, Replayed(Some(result), Some(response)))
      ensures !ok ==> rows == old(rows)
      ensures ok == InHand(old(rows), k) && rows == Finished(old(rows), k, result, response)
    {
      if !(k in rows && rows[k].progress == InProgress) {
        return false;
      }
      rows := rows[k := rows[k].(result := Some(result), progress := Done, response := Some(response))];
      return true;
    }

    /** `fail_idempotency`: only a key in hand is set free, and only for the request that had it. */
    method Fail(k: Key)
      requires Valid()
      modifies this
      ensures Valid() && OthersKept(old(rows), rows, k) && !InHand(rows, k)
      ensures InHand(old(rows), k) ==> Answers(rows, k, old(rows)[k].hash, Granted)
      ensures !InHand(old(rows), k) ==> rows == old(rows)
      ensures rows == GivenUp(old(rows), k)
    {
      if k in rows && rows[k].progress == InProgress {
        rows := rows[k := rows[k].(progress := Failing)];
      }
    }

    /** `reconcile_idempotency`. */
    method Reconcile(existing: set<(string, Id)>) returns (changed: nat)
      modifies this
      ensures Valid() && rows == Reconciled(old(rows), existing)
      ensures rows.Keys == old(rows).Keys && forall k :: k in rows ==> Resolved(old(rows)[k], rows[k], k, existing)
      ensures changed == |set k | k in old(rows) && old(rows)[k].progress == InProgress|
    {
      var todo := set k | k in rows && rows[k].progress == InProgress;
      ghost var all := todo;
      changed := 0;
      while todo != {}
        invariant todo <= all <= old(rows).Keys && changed == |all| - |todo|
        invariant rows == map k | k in old(rows) ::
                    if k in all && k !in todo then ReconciledRow(k, old(rows)[k], existing) else old(rows)[k]
      {
        var k :| k in todo;
        var row := rows[k];
        var known := k.0 in TABLES && row.result.Some? && row.result.value != "" && (k.0, row.result.value) in existing;
        var response := row.response;
        if known && (response.None? || response.value == "") {
          response := Some(IdResponse(row.result.value));
        }
        rows := rows[k := row.(progress := if known then Done else Failing, response := response)];
        todo := todo - {k};
        changed := changed + 1;
      }
    }
  }

  // ---------- histories ----------

  datatype Op =
    | ClaimOp(k: Key, h: Hash)
    | CompleteOp(k: Key, result: Id, response: string)
    | FailOp(k: Key)
    | ReconcileOp(existing: set<(string, Id)>)

  function Do(rows: Records, op: Op): Records {
    match op
    case ClaimOp(k, h) => Claimed(rows, k, h)
    case CompleteOp(k, result, response) => Finished(rows, k, result, response)
    case FailOp(k) => GivenUp(rows, k)
    case ReconcileOp(existing) => Reconciled(rows, existing)
  }

  function DoAll(rows: Records, ops: seq<Op>): Records {
    if ops == [] then rows else Do(DoAll(rows, ops[..|ops| - 1]), ops[|ops| - 1])
  }

  /** The rows before operation `i`. */
  function At(rows: Records, ops: seq<Op>, i: nat): Records
    requires i <= |ops|
  {
    DoAll(rows, ops[..i])
  }

  lemma {:induction false} Advance(rows: Records, ops: seq<Op>, i: nat)
    requires i < |ops|
    ensures At(rows, ops, i + 1) == Do(At(rows, ops, i), ops[i])
  {
    assert ops[..i + 1][..i] == ops[..i];
  }

  /** A key is never forgotten and its request hash never changes; a completed row never changes at all. */
  lemma {:induction false} KeysKeepTheirRequest(rows: Records, ops: seq<Op>, i: nat, n: nat, k: Key)
    requires i <= n <= |ops| && k in At(rows, ops, i)
    ensures k in At(rows, ops, n) && At(rows, ops, n)[k].hash == At(rows, ops, i)[k].hash
    ensures At(rows, ops, i)[k].progress == Done ==> At(rows, ops, n)[k] == At(rows, ops, i)[k]
  {
    if i < n {
      KeysKeepTheirRequest(rows, ops, i, n - 1, k);
      Advance(rows, ops, n - 1);
    }
  }

  /** From its completion on, a key replays its stored result to the same request and refuses any other,
      and no second completion succeeds. */
  lemma CompletedKeysReplay(rows: Records, ops: seq<Op>, i: nat, n: nat, h: Hash)
    requires i < n <= |ops| && ops[i].CompleteOp? && InHand(At(rows, ops, i), ops[i].k)
    ensures var (k, end) := (ops[i].k, At(rows, ops, n));
            && k in At(rows, ops, i)
            && ClaimAnswer(end, k, h) == (if h == At(rows, ops, i)[k].hash then Replayed(Some(ops[i].result), Some(ops[i].response))
                                          else Conflict)
            && !InHand(end, k)
  {
    Advance(rows, ops, i);
    KeysKeepTheirRequest(rows, ops, i + 1, n, ops[i].k);
  }

  /** A claim of `k` that is granted at position `i`. */
  predicate GrantedAt(rows: Records, ops: seq<Op>, i: nat, k: Key) {
    i < |ops| && ops[i].ClaimOp? && ops[i].k == k && ClaimAnswer(At(rows, ops, i), k, ops[i].h) == Granted
  }

  /** An operation that gives a running key free again. */
  predicate Releases(rows: Records, ops: seq<Op>, i: nat, k: Key) {
    i < |ops| && InHand(At(rows, ops, i), k) && (ops[i] == FailOp(k) || ops[i].ReconcileOp?)
  }

  /** Between two granted claims of a key there is a fail or a reconciliation that released it, so no
      two requests ever work under one key at the same time. */
  lemma {:induction false} GrantsAreSeparated(rows: Records, ops: seq<Op>, i: nat, n: nat, k: Key)
    requires i < n && GrantedAt(rows, ops, i, k) && GrantedAt(rows, ops, n, k)
    ensures exists m :: i < m < n && Releases(rows, ops, m, k)
  {
    Advance(rows, ops, i);
    KeysKeepTheirRequest(rows, ops, i + 1, n, k);
    StillRunning(rows, ops, i + 1, n, k);
  }

  lemma {:induction false} StillRunning(rows: Records, ops: seq<Op>, i: nat, n: nat, k: Key)
    requires i <= n <= |ops| && InHand(At(rows, ops, i), k)
    requires k in At(rows, ops, n) && At(rows, ops, n)[k].progress != Done
    ensures InHand(At(rows, ops, n), k) || exists m :: i <= m < n && Releases(rows, ops, m, k)
  {
    if i < n {
      KeysKeepTheirRequest(rows, ops, i, n - 1, k);
      Advance(rows, ops, n - 1);
      StillRunning(rows, ops, i, n - 1, k);
      if InHand(At(rows, ops, n - 1), k) && !InHand(At(rows, ops, n), k) {
        assert Releases(rows, ops, n - 1, k);
      }
    }
  }

  lemma {:induction false} RunningRowsAreBlank(ops: seq<Op>)
    ensures Blank(DoAll(map[], ops))
  {
    if ops != [] {
      RunningRowsAreBlank(ops[..|ops| - 1]);
    }
  }

  /** In every state the ledger can reach a running row carries no result yet, so the reconciliation at
      startup never completes a key: whatever exists, it fails every running one. */
  lemma ReconciliationOnlyFails(ops: seq<Op>, existing: set<(string, Id)>, k: Key)
    requires InHand(DoAll(map[], ops), k)
    ensures Reconciled(DoAll(map[], ops), existing)[k] == DoAll(map[], ops)[k].(progress := Failing)
  {
    RunningRowsAreBlank(ops);
  }
}

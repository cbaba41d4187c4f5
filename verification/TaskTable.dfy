/** The table `pq_tasks` as a value, and each transaction on it as a function.
    A transaction that fails is rolled back whole, so it is the identity. */
module TaskTable {
  import opened Wrappers
  import opened Tasks

  /** Row ids come from an identity column and are never handed out twice. */
  datatype Table = Table(rows: map<nat, Row>, nextId: nat)

  const EMPTY := Table(map[], 0)

  /** The unique constraint on `client_id`; NULLs do not conflict. */
  predicate UniqueClients(rows: map<nat, Row>) {
    forall a, b | a in rows && b in rows && a != b && rows[a].clientId.Some? ::
      rows[a].clientId != rows[b].clientId
  }

  predicate TableInv(t: Table) {
    && (forall id | id in t.rows :: id < t.nextId && Shape(t.rows[id]))
    && UniqueClients(t.rows)
  }

  lemma {:induction false} LeastOf(ids: set<nat>) returns (m: nat)
    requires ids != {}
    ensures m in ids && forall k | k in ids :: m <= k
  {
    m :| m in ids;
    if ids != {m} {
      var other := LeastOf(ids - {m});
      forall k | k in ids ensures (if m < other then m else other) <= k {
        assert k == m || k in ids - {m};
      }
      m := if m < other then m else other;
    }
  }

  lemma LeastExists(ids: set<nat>)
    requires ids != {}
    ensures exists m :: m in ids && forall k | k in ids :: m <= k
  {
    var m := LeastOf(ids);
  }

  function Least(ids: set<nat>): (m: nat)
    requires ids != {}
    ensures m in ids && forall k | k in ids :: m <= k
  {
    LeastExists(ids);
    var m :| m in ids && forall k | k in ids :: m <= k;
    m
  }

  /** The row that `client_id` conflicts with, if any. */
  function Conflict(rows: map<nat, Row>, clientId: Option<string>): (r: Option<nat>)
    ensures r.Some? ==> clientId.Some? && r.value in rows && rows[r.value].clientId == clientId
    ensures r.None? && clientId.Some? ==> forall id | id in rows :: rows[id].clientId != clientId
  {
    var holders := set id | id in rows && rows[id].clientId == clientId;
    assert forall id | id in rows && rows[id].clientId == clientId :: id in holders;
    if clientId.Some? && holders != {} then Some(Least(holders)) else None
  }

  /** Under the unique constraint there is only one candidate. */
  lemma ConflictIsUnique(rows: map<nat, Row>, id: nat)
    requires UniqueClients(rows) && id in rows && rows[id].clientId.Some?
    ensures Conflict(rows, rows[id].clientId) == Some(id)
  {
  }

  function InsertInto(t: Table, clientId: Option<string>, s: Spec, now: int): Table {
    Table(t.rows[t.nextId := Fresh(clientId, now, s)], t.nextId + 1)
  }

  /** The exception `enqueue()` raises, in the order the checks happen. */
  function EnqueueError(t: Table, clientId: Option<string>, s: Spec): Option<Error> {
    if !ValidBudget(s.maxRuntime) then Some(ValueError)
    else if Conflict(t.rows, clientId).Some? then Some(IntegrityError)
    else None
  }

  /** `INSERT ... ON CONFLICT (client_id) DO UPDATE`. */
  function UpsertInto(t: Table, clientId: string, s: Spec, now: int): Table {
    match Conflict(t.rows, Some(clientId))
    case Some(id) => t.(rows := t.rows[id := UpsertRow(t.rows[id], s)])
    case None => InsertInto(t, Some(clientId), s, now)
  }

  /** The `RETURNING id` of the statement above. */
  function UpsertId(t: Table, clientId: string): nat {
    match Conflict(t.rows, Some(clientId))
    case Some(id) => id
    case None => t.nextId
  }

  predicate Claimable(row: Row, now: int, priorities: set<int>) {
    && row.status == Pending
    && row.spec.runAt <= now
    && (priorities != {} ==> row.spec.priority in priorities)
  }

  function ClaimInto(t: Table, id: nat, token: int): Table
    requires id in t.rows
  {
    t.(rows := t.rows[id := ClaimRow(t.rows[id], token)])
  }

  /** The `WHERE` clause of `_finish_one_off`. */
  predicate FinishMatches(t: Table, id: nat, token: int) {
    id in t.rows && t.rows[id].status == Running && t.rows[id].startedAt == Some(token)
  }

  function FinishInto(t: Table, id: nat, token: int, status: Status, error: Option<string>, at: int): Table {
    if FinishMatches(t, id, token) then t.(rows := t.rows[id := FinishRow(t.rows[id], status, error, at)]) else t
  }

  function StaleIds(rows: map<nat, Row>, asOf: int, threshold: int): set<nat> {
    set id | id in rows && Stale(rows[id], asOf, threshold)
  }

  /** Both statements of `reap_stale_tasks`, seen as one. */
  function ReapInto(t: Table, asOf: int, threshold: int, at: int): Table {
    t.(rows := map id | id in t.rows ::
               if Stale(t.rows[id], asOf, threshold) then ReapRow(t.rows[id], at) else t.rows[id])
  }

  function CancelInto(t: Table, id: nat): Table {
    t.(rows := t.rows - {id})
  }

  /** `clear_completed` / `clear_failed`: the rows their `DELETE` matches. */
  predicate Clears(row: Row, status: Status, before: Option<int>) {
    row.status == status && (before.Some? ==> row.completedAt.Some? && row.completedAt.value < before.value)
  }

  function ClearedIds(rows: map<nat, Row>, status: Status, before: Option<int>): set<nat> {
    set id | id in rows && Clears(rows[id], status, before)
  }

  function ClearInto(t: Table, status: Status, before: Option<int>): Table {
    t.(rows := map id | id in t.rows && !Clears(t.rows[id], status, before) :: t.rows[id])
  }

  /** An upsert keeps the table well formed, keeps every row under its id and
      `client_id`, and changes no row but the one it reports. */
  lemma UpsertKeepsTable(t: Table, clientId: string, s: Spec, now: int)
    requires TableInv(t) && ValidBudget(s.maxRuntime)
    ensures var t', id := UpsertInto(t, clientId, s, now), UpsertId(t, clientId);
            && TableInv(t')
            && t'.rows.Keys == t.rows.Keys + {id}
            && t'.nextId == (if id in t.rows then t.nextId else t.nextId + 1)
            && t'.rows[id] == (if id in t.rows then UpsertRow(t.rows[id], s) else Fresh(Some(clientId), now, s))
            && (id !in t.rows ==> id == t.nextId)
            && t'.rows[id].clientId == Some(clientId)
            && forall k | k in t.rows && k != id :: t'.rows[k] == t.rows[k]
  {
    var t', id := UpsertInto(t, clientId, s, now), UpsertId(t, clientId);
    forall k | k in t'.rows ensures k < t'.nextId && Shape(t'.rows[k]) {
      if k == id && id in t.rows {
        ShapeKept(t.rows[id], s, ByReaper(0), 0);
      }
    }
  }

  /** The other transactions keep the table well formed too, and the deleting ones
      delete nothing but the row named, or finished rows. */
  lemma InsertKeepsTable(t: Table, clientId: Option<string>, s: Spec, now: int)
    requires TableInv(t) && EnqueueError(t, clientId, s) == None
    ensures TableInv(InsertInto(t, clientId, s, now))
  {
    var t' := InsertInto(t, clientId, s, now);
    forall a, b | a in t'.rows && b in t'.rows && a != b && t'.rows[a].clientId.Some?
      ensures t'.rows[a].clientId != t'.rows[b].clientId
    {
    }
  }

  lemma ClaimKeepsTable(t: Table, id: nat, token: int)
    requires TableInv(t) && id in t.rows && t.rows[id].status == Pending
    ensures TableInv(ClaimInto(t, id, token))
  {
    ShapeKept(t.rows[id], t.rows[id].spec, ByReaper(0), token);
  }

  lemma FinishKeepsTable(t: Table, id: nat, token: int, status: Status, error: Option<string>, at: int)
    requires TableInv(t) && status in {Completed, Failed} && (status == Completed ==> error.None?)
    ensures TableInv(FinishInto(t, id, token, status, error, at))
  {
    if FinishMatches(t, id, token) {
      ShapeKept(t.rows[id], t.rows[id].spec, ByWorker(status, error, at), 0);
    }
  }

  lemma ReapKeepsTable(t: Table, asOf: int, threshold: int, at: int)
    requires TableInv(t)
    ensures TableInv(ReapInto(t, asOf, threshold, at))
  {
    var t' := ReapInto(t, asOf, threshold, at);
    forall id | id in t'.rows
      ensures id < t'.nextId && Shape(t'.rows[id]) && t'.rows[id].clientId == t.rows[id].clientId
    {
      if Stale(t.rows[id], asOf, threshold) {
        ShapeKept(t.rows[id], t.rows[id].spec, ByReaper(at), 0);
      }
    }
  }

  lemma DeletesKeepTable(t: Table, id: nat, status: Status, before: Option<int>)
    requires TableInv(t)
    ensures TableInv(CancelInto(t, id)) && TableInv(ClearInto(t, status, before))
    ensures status in {Completed, Failed} ==>
              forall k | k in t.rows && t.rows[k].status in {Pending, Running} ::
                k in ClearInto(t, status, before).rows && ClearInto(t, status, before).rows[k] == t.rows[k]
  {
  }

  /** What the reaper makes of a row, column by column: nothing if it is within the threshold or
      within twice its own budget; otherwise a fresh row with the parked version; without
      one a row that failed now. */
  predicate ReapedAs(row: Row, row': Row, now: int, threshold: int) {
    if row.status != Running || row.startedAt.None?
       || now - threshold <= row.startedAt.value
       || (row.spec.maxRuntime.Some? && now - 2 * row.spec.maxRuntime.value <= row.startedAt.value) then
      row' == row
    else if row.requeue.Some? then
      row' == Row(row.clientId, row.createdAt, row.requeue.value, Pending, 0, None, None, None, None)
    else
      && row'.error.Some? && row'.error.value != ""
      && row' == Row(row.clientId, row.createdAt, row.spec, Failed, row.attempts, row.startedAt, Some(now),
                     row'.error, None)
  }

  lemma ReapColumns(t: Table, id: nat, now: int, threshold: int)
    requires id in t.rows
    ensures ReapedAs(t.rows[id], ReapInto(t, now, threshold, now).rows[id], now, threshold)
  {
  }

  /** What a bulk delete removes: the rows of the status, before the cutoff if there is one. */
  lemma ClearInColumns(t: Table, status: Status, before: Option<int>)
    requires TableInv(t) && status in {Completed, Failed}
    ensures var rows' := ClearInto(t, status, before).rows;
            && (forall k | k in t.rows ::
                  k !in rows' <==>
                  && t.rows[k].status == status
                  && (before.Some? ==> t.rows[k].completedAt.Some? && t.rows[k].completedAt.value < before.value))
            && (forall k | k in rows' :: k in t.rows && rows'[k] == t.rows[k])
            && |t.rows.Keys| == |rows'.Keys| + |ClearedIds(t.rows, status, before)|
  {
    hide TableInv;
    var rows' := ClearInto(t, status, before).rows;
    var gone := ClearedIds(t.rows, status, before);
    assert forall id :: id in t.rows.Keys <==> id in rows'.Keys || id in gone;
    TwoParts(t.rows.Keys, rows'.Keys, gone);
  }

  lemma TwoParts(whole: set<nat>, a: set<nat>, b: set<nat>)
    requires a !! b && forall id :: id in whole <==> id in a || id in b
    ensures |whole| == |a| + |b|
  {
    assert whole == a + b;
  }

  lemma FailedIsNotStale(row: Row, at: int, threshold: int)
    ensures !Stale(FailReaped(row, at), at, threshold)
  {
  }

  /** Failing the stale rows with nothing parked and then re-queueing the stale rows
      that are left is the reaper as a whole. */
  lemma TwoPasses(before: map<nat, Row>, failed: map<nat, Row>, after: map<nat, Row>,
                  reaped: set<nat>, requeued: set<nat>, now: int, threshold: int, nextId: nat)
    requires reaped == set id | id in before && Stale(before[id], now, threshold) && before[id].requeue.None?
    requires failed == map id | id in before :: if id in reaped then FailReaped(before[id], now) else before[id]
    requires requeued == set id | id in failed && Stale(failed[id], now, threshold) && failed[id].requeue.Some?
    requires after.Keys == failed.Keys
    requires forall id | id in failed :: after[id] == if id in requeued then Requeued(failed[id]) else failed[id]
    ensures Table(after, nextId) == ReapInto(Table(before, nextId), now, threshold, now)
    ensures |StaleIds(before, now, threshold)| == |reaped| + |requeued|
  {
    hide Stale, FailReaped, Requeued;
    forall id | id in before
      ensures id in requeued <==> Stale(before[id], now, threshold) && before[id].requeue.Some?
    {
      FailedIsNotStale(before[id], now, threshold);
    }
    var whole := ReapInto(Table(before, nextId), now, threshold, now).rows;
    forall id | id in before ensures after[id] == whole[id] {
      assert failed[id] == if id in reaped then FailReaped(before[id], now) else before[id];
    }
    assert after == whole;
    TwoParts(StaleIds(before, now, threshold), reaped, requeued);
  }
}

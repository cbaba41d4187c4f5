/** The client and the claim and finish transactions of the worker, updating the
    stored table in place. Every method reads the clock once, as `now`. */
module Client {
  import opened Wrappers
  import opened Tasks
  import opened TaskTable
  import opened ClientOrder
  import opened Batch
  import opened ClaimOrder

  class PQ {
    var rows: map<nat, Row>
    var nextId: nat

    function State(): Table
      reads this
    {
      Table(rows, nextId)
    }

    ghost predicate Valid()
      reads this
    {
      TableInv(State())
    }

    constructor ()
      ensures Valid() && State() == EMPTY
    {
      rows, nextId := map[], 0;
    }

    method Enqueue(clientId: Option<string>, s: Spec, now: int) returns (r: Result<nat>)
      requires Valid()
      modifies this
      ensures Valid()
      ensures match EnqueueError(old(State()), clientId, s)
              case Some(e) => r == Err(e) && State() == old(State())
              case None => r == Ok(old(nextId)) && State() == InsertInto(old(State()), clientId, s, now)
      ensures r == Err(ValueError) <==> s.maxRuntime.Some? && s.maxRuntime.value <= 0
      ensures r == Err(IntegrityError) <==>
              && (s.maxRuntime.None? || 0 < s.maxRuntime.value)
              && clientId.Some? && exists id :: id in old(rows) && old(rows)[id].clientId == clientId
      ensures r.Ok? ==>
                && r.value !in old(rows) && nextId == r.value + 1
                && rows == old(rows)[r.value := Row(clientId, now, s, Pending, 0, None, None, None, None)]
    {
      if !ValidBudget(s.maxRuntime) {
        return Err(ValueError);
      }
      if clientId.Some? && exists id :: id in rows && rows[id].clientId == clientId {
        return Err(IntegrityError);
      }
      InsertKeepsTable(State(), clientId, s, now);
      r := Ok(nextId);
      rows, nextId := rows[nextId := Fresh(clientId, now, s)], nextId + 1;
    }

    method Upsert(clientId: string, s: Spec, now: int) returns (r: Result<nat>)
      requires Valid()
      modifies this
      ensures Valid()
      ensures !ValidBudget(s.maxRuntime) ==> r == Err(ValueError) && State() == old(State())
      ensures ValidBudget(s.maxRuntime) ==>
                r == Ok(UpsertId(old(State()), clientId)) && State() == UpsertInto(old(State()), clientId, s, now)
      ensures r.Ok? <==> s.maxRuntime.None? || 0 < s.maxRuntime.value
      ensures r.Ok? ==>
                var id, before := r.value, old(rows);
                && rows.Keys == before.Keys + {id} && rows[id].clientId == Some(clientId)
                && (forall k | k in before && k != id :: rows[k] == before[k])
                && (id !in before ==>
                      && (forall k | k in before :: before[k].clientId != Some(clientId))
                      && rows[id] == Row(Some(clientId), now, s, Pending, 0, None, None, None, None))
                && (id in before && before[id].status != Running ==>
                      rows[id] == Row(Some(clientId), before[id].createdAt, s, Pending, 0, None, None, None, None))
                && (id in before && before[id].status == Running ==> rows[id] == before[id].(requeue := Some(s)))
    {
      if !ValidBudget(s.maxRuntime) {
        return Err(ValueError);
      }
      UpsertKeepsTable(State(), clientId, s, now);
      var t, id := ExecuteUpsert(State(), clientId, s, now);
      rows, nextId := t.rows, t.nextId;
      r := Ok(id);
    }

    /** The statement itself, on the session's view `t` of the table. */
    static method ExecuteUpsert(t: Table, clientId: string, s: Spec, now: int) returns (t': Table, id: nat)
      requires TableInv(t)
      ensures t' == UpsertInto(t, clientId, s, now) && id == UpsertId(t, clientId)
    {
      if exists k :: k in t.rows && t.rows[k].clientId == Some(clientId) {
        id :| id in t.rows && t.rows[id].clientId == Some(clientId);
        ConflictIsUnique(t.rows, id);
        t' := t.(rows := t.rows[id := UpsertRow(t.rows[id], s)]);
      } else {
        id := t.nextId;
        t' := InsertInto(t, Some(clientId), s, now);
      }
    }

    /** `upsert_many`. Where `dbError` is present, the database fails while executing
        the statement of that item. */
    method UpsertMany(items: seq<Upsert>, dbError: Option<nat>, now: int) returns (r: Result<seq<nat>>)
      requires Valid()
      modifies this
      ensures Valid()
      ensures r.Ok? <==> ValidItems(items) && !(dbError.Some? && dbError.value < |items|)
      ensures r.Err? ==> State() == old(State())
                         && r.error == if ValidItems(items) then DatabaseError else ValueError
      ensures r.Ok? ==>
                && |r.value| == |items|
                && (forall i | 0 <= i < |items| :: Conflict(rows, Some(items[i].clientId)) == Some(r.value[i]))
                && State() == ApplyIn(old(State()), items, StableOrder(Keys(items)), now)
                && LastVersionsWin(old(State()), State(), items, now)
    {
      if exists i :: 0 <= i < |items| && !ValidBudget(items[i].spec.maxRuntime) {
        return Err(ValueError);
      }
      var order := StableOrder(Keys(items));
      OrderWins(State(), items, order, now);
      var ok, session, ids := ExecuteAll(State(), items, order, dbError, now);
      if !ok {
        return Err(DatabaseError);
      }
      rows, nextId := session.rows, session.nextId;
      r := Ok(ids);
    }

    /** The statements of a batch on the session's view of the table, one after the other. */
    static method ExecuteAll(t: Table, items: seq<Upsert>, order: seq<nat>, dbError: Option<nat>, now: int)
      returns (ok: bool, session: Table, ids: seq<nat>)
      requires TableInv(t) && ValidItems(items) && IsStableOrder(Keys(items), order) && InRange(items, order)
      ensures ok <==> !(dbError.Some? && dbError.value < |items|)
      ensures ok ==> session == ApplyIn(t, items, order, now) && |ids| == |items|
      ensures ok ==> forall i | 0 <= i < |items| :: Conflict(session.rows, Some(items[i].clientId)) == Some(ids[i])
    {
      hide TableInv, UpsertInto, ValidItems;
      ids := seq(|items|, _ => 0);
      session := t;
      for k := 0 to |order|
        invariant session == ApplyIn(t, items, order[..k], now) && TableInv(session)
        invariant |ids| == |items| && IdsSoFar(session, items, order, k, ids)
        invariant dbError.Some? && dbError.value < |items| ==> dbError.value in order[k..]
      {
        var i := order[k];
        if dbError == Some(i) {
          return false, session, ids;
        }
        ValidAt(items, i);
        IdsKept(session, items, order, k, ids, now);
        UpsertKeepsTable(session, items[i].clientId, items[i].spec, now);
        assert order[..k + 1][..k] == order[..k];
        var id: nat;
        session, id := ExecuteUpsert(session, items[i].clientId, items[i].spec, now);
        ids := ids[i := id];
      }
      assert order[..|order|] == order;
      AllIds(session, items, order, ids);
      ok := true;
    }

    method Cancel(id: nat) returns (found: bool)
      requires Valid()
      modifies this
      ensures Valid() && State() == CancelInto(old(State()), id) && found == (id in old(rows))
      ensures rows.Keys == old(rows).Keys - {id} && nextId == old(nextId)
      ensures forall k | k in rows :: rows[k] == old(rows)[k]
    {
      DeletesKeepTable(State(), id, Completed, None);
      found := id in rows;
      rows := rows - {id};
    }

    /** `clear_completed` and `clear_failed`. */
    method Clear(status: Status, before: Option<int>) returns (count: nat)
      requires Valid()
      requires status in {Completed, Failed}
      modifies this
      ensures Valid() && State() == ClearInto(old(State()), status, before)
      ensures count == |old(rows).Keys| - |rows.Keys| && nextId == old(nextId)
      ensures forall k | k in old(rows) ::
                k !in rows <==>
                && old(rows)[k].status == status
                && (before.Some? ==> old(rows)[k].completedAt.Some? && old(rows)[k].completedAt.value < before.value)
      ensures forall k | k in rows :: k in old(rows) && rows[k] == old(rows)[k]
    {
      DeletesKeepTable(State(), 0, status, before);
      ClearInColumns(State(), status, before);
      var gone := ClearedIds(rows, status, before);
      rows := map id | id in rows && !Clears(rows[id], status, before) :: rows[id];
      count := |gone|;
    }

    /** The claim transaction of `_process_one_off_task` and `_claim_and_fork_one_off`.
        `locked` are the rows other transactions hold at that moment. */
    method Claim(now: int, priorities: set<int>, locked: set<nat>) returns (r: Option<nat>)
      requires Valid()
      modifies this
      ensures Valid()
      ensures r.None? <==> Candidates(old(rows), now, priorities, locked) == {}
      ensures r.None? ==> State() == old(State())
      ensures r.Some? ==> Best(old(rows), r.value, now, priorities, locked)
                          && State() == ClaimInto(old(State()), r.value, now)
      ensures r.None? ==> forall id | id in old(rows) && id !in locked :: !Waits(old(rows)[id], now, priorities)
      ensures r.Some? ==>
                && r.value in old(rows) && r.value !in locked && Waits(old(rows)[r.value], now, priorities)
                && var row := old(rows)[r.value];
                && rows == old(rows)[r.value := row.(status := Running, startedAt := Some(now), attempts := 1)]
                && forall id | id in old(rows) && id !in locked && Waits(old(rows)[id], now, priorities) ::
                     var other := old(rows)[id].spec;
                     || other.priority < row.spec.priority
                     || (other.priority == row.spec.priority && row.spec.runAt <= other.runAt)
    {
      var ids := Candidates(rows, now, priorities, locked);
      BestExists(rows, now, priorities, locked);
      NothingToClaim(rows, now, priorities, locked);
      if ids == {} {
        return None;
      }
      var id :| id in ids && Best(rows, id, now, priorities, locked);
      BestInColumns(rows, id, now, priorities, locked);
      ClaimKeepsTable(State(), id, now);
      var task := new Task(rows[id]);
      task.status := Running;
      task.startedAt := Some(now);
      task.attempts := task.attempts + 1;
      rows := rows[id := task.AsRow()];
      r := Some(id);
    }

    /** `_finish_one_off`; `token` is the `started_at` of the run that ended. */
    method FinishOneOff(id: nat, token: Option<int>, status: Status, error: Option<string>, now: int)
      requires Valid()
      requires status in {Completed, Failed} && (status == Completed ==> error.None?)
      modifies this
      ensures Valid()
      ensures token.None? ==> State() == old(State())
      ensures token.Some? ==> State() == FinishInto(old(State()), id, token.value, status, error, now)
      ensures nextId == old(nextId)
      ensures var before := old(rows);
              rows ==
              if token.None? || id !in before || before[id].status != Running || before[id].startedAt != token then
                before
              else if before[id].requeue.Some? then
                before[id := Row(before[id].clientId, before[id].createdAt, before[id].requeue.value,
                                 Pending, 0, None, None, None, None)]
              else
                before[id := Row(before[id].clientId, before[id].createdAt, before[id].spec,
                                 status, 1, token, Some(now), if error == Some("") then None else error, None)]
    {
      if token.Some? {
        FinishKeepsTable(State(), id, token.value, status, error, now);
      }
      if id !in rows || rows[id].status != Running || token.None? || rows[id].startedAt != token {
        return;
      }
      var task := new Task(rows[id]);
      if task.requeue.Some? {
        var _ := task.ApplyRequeue();
        rows := rows[id := task.AsRow()];
        return;
      }
      task.status := status;
      task.completedAt := Some(now);
      if error.Some? && error.value != "" {
        task.error := error;
      }
      rows := rows[id := task.AsRow()];
    }

    /** `reap_stale_tasks`: an `UPDATE`, then a `SELECT FOR UPDATE` and a loop. */
    method ReapStaleTasks(threshold: int, now: int) returns (count: nat)
      requires Valid()
      modifies this
      ensures Valid()
      ensures State() == ReapInto(old(State()), now, threshold, now)
      ensures count == |StaleIds(old(rows), now, threshold)|
      ensures nextId == old(nextId) && rows.Keys == old(rows).Keys
      ensures forall id | id in rows ::
                ReapedAs(old(rows)[id], rows[id], now, threshold)
    {
      hide TableInv, Stale, FailReaped, Requeued, ReapInto, StaleIds, ReapedAs;
      ReapKeepsTable(State(), now, threshold, now);
      ghost var before := rows;
      var reaped := set id | id in rows && Stale(rows[id], now, threshold) && rows[id].requeue.None?;
      rows := map id | id in rows :: if id in reaped then FailReaped(rows[id], now) else rows[id];
      var requeued := set id | id in rows && Stale(rows[id], now, threshold) && rows[id].requeue.Some?;
      ghost var failed := rows;
      RequeueRows(requeued);
      TwoPasses(before, failed, rows, reaped, requeued, now, threshold, nextId);
      count := |reaped| + |requeued|;
      forall id | id in rows ensures ReapedAs(before[id], rows[id], now, threshold) {
        ReapColumns(Table(before, nextId), id, now, threshold);
      }
    }

    /** `for task in requeued: task.apply_requeue()`. */
    method RequeueRows(requeued: set<nat>)
      requires forall id | id in requeued :: id in rows && rows[id].requeue.Some?
      modifies this`rows
      ensures rows.Keys == old(rows).Keys
      ensures forall id | id in rows :: rows[id] == if id in requeued then Requeued(old(rows)[id]) else old(rows)[id]
    {
      var todo := requeued;
      while todo != {}
        invariant todo <= requeued && rows.Keys == old(rows).Keys
        invariant forall id | id in rows ::
                    rows[id] == if id in requeued - todo then Requeued(old(rows)[id]) else old(rows)[id]
      {
        var id :| id in todo;
        var task := new Task(rows[id]);
        var _ := task.ApplyRequeue();
        rows := rows[id := task.AsRow()];
        todo := todo - {id};
      }
    }
  }
}

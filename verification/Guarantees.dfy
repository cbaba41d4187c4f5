/** What the protocol guarantees in every reachable state and of every step from one. */
module Guarantees {
  import opened Wrappers
  import opened Tasks
  import opened TaskTable
  import opened Protocol
  import opened ProtocolInvariant
  import Batch

  /** At most once per version: two claims never run the same version, and the versions
      claimed on one row strictly increase. */
  lemma AtMostOncePerVersion(e: Env, s: Sys)
    requires Reachable(e, s)
    ensures var runs := s.runs;
            forall i, j | 0 <= i < j < |runs| ::
              runs[i].version != runs[j].version && (runs[i].row == runs[j].row ==> runs[i].version < runs[j].version)
  {
    hide Reachable;
    ReachableKeeps(e, s);
    forall i, j | 0 <= i < j < |s.runs| ensures s.runs[i].version != s.runs[j].version {
      VersionsDistinct(s, i, j);
    }
  }

  /** No version is lost: the last version written to an existing row is the parked one if
      there is one, else the row's own; and it is still waiting or has been started. */
  lemma NoVersionLost(e: Env, s: Sys, id: nat)
    requires Reachable(e, s) && id in s.table.rows
    ensures var row := s.table.rows[id];
            && LastWrite(s.log, id) == Some(Newest(row))
            && (row.status == Pending || row.requeue.Some? || HasRun(s.runs, Newest(row)))
  {
    hide Reachable;
    ReachableKeeps(e, s);
    var row := s.table.rows[id];
    assert RowLogged(row, s.log, id);
    if row.status != Pending {
      var i :| 0 <= i < |s.runs| && Backs(s.runs[i], row);
    }
  }

  /** A run whose row has moved on changes nothing when it reports, and one whose row has
      not closes or re-queues exactly its own row, losing no parked version. */
  lemma LateFinisherIsHarmless(e: Env, s: Sys, step: Step)
    requires Reachable(e, s) && Enabled(e, s, step) && step.Finish?
    ensures var s', r := Apply(e, s, step), s.runs[step.run];
            if Current(r, s.table.rows) then
              && s'.table.rows.Keys == s.table.rows.Keys
              && (forall id | id in s.table.rows && id != r.row :: s'.table.rows[id] == s.table.rows[id])
              && s'.table.rows[r.row].status != Running
              && Newest(s'.table.rows[r.row]) == Newest(s.table.rows[r.row])
              && (s.table.rows[r.row].requeue.Some? <==> s'.table.rows[r.row].status == Pending)
              && (s'.table.rows[r.row].status == Completed ==> r.child == Dead(true))
              && var row, row' := s.table.rows[r.row], s'.table.rows[r.row];
              && (row.requeue.None? ==>
                    row' == Row(row.clientId, row.createdAt, row.spec, step.status, 1, Some(r.token), Some(s.now),
                                if step.error == Some("") then None else step.error, None))
              && (row.requeue.Some? ==>
                    row' == Row(row.clientId, row.createdAt, row.requeue.value, Pending, 0, None, None, None, None))
            else
              s'.table == s.table && s'.verdicts == s.verdicts
  {
    hide Reachable, Inv;
    ReachableKeeps(e, s);
    TokenIdentifiesRun(s, step.run);
    RunningShape(s);
  }

  lemma RunningShape(s: Sys)
    requires Inv(s)
    ensures forall id | id in s.table.rows && s.table.rows[id].status == Running ::
              s.table.rows[id].attempts == 1 && s.table.rows[id].error.None?
  {
    hide UniqueClients;
    forall id | id in s.table.rows ensures Shape(s.table.rows[id]) {
    }
  }

  /** The end of a version's run is recorded on its row at most once, by its worker or by
      the reaper, and only for a version that was claimed. */
  lemma AtMostOneVerdict(e: Env, s: Sys, v: nat)
    requires Reachable(e, s)
    ensures s.verdicts[v] <= 1
    ensures v in s.verdicts ==> HasRun(s.runs, v)
  {
    hide Reachable;
    ReachableKeeps(e, s);
    if v in s.verdicts {
      assert s.verdicts[v] == 1;
    }
  }

  /** A COMPLETED row tells of a child that exited with status 0. */
  lemma CompletedMeansSuccess(e: Env, s: Sys, id: nat)
    requires Reachable(e, s) && id in s.table.rows && s.table.rows[id].status == Completed
    ensures exists i ::
              0 <= i < |s.runs| && s.runs[i].version == s.table.rows[id].spec.version && s.runs[i].child == Dead(true)
  {
    hide Reachable;
    ReachableKeeps(e, s);
    var i :| 0 <= i < |s.runs| && Backs(s.runs[i], s.table.rows[id]);
  }

  /** Once the write about the end of a claim has committed, no row is RUNNING with it. */
  lemma NoOrphanedRow(e: Env, s: Sys, i: nat, id: nat)
    requires Reachable(e, s) && i < |s.runs| && s.runs[i].duty == Finished
    requires id in s.table.rows && s.table.rows[id].status == Running
    ensures s.table.rows[id].spec.version != s.runs[i].version
  {
    hide Reachable, Inv;
    ReachableKeeps(e, s);
    if s.table.rows[id].spec.version == s.runs[i].version {
      CurrentOfVersion(s, i, id);
    }
  }

  // ---------- a run that is off its row stays off it ----------

  /** The row was deleted, ended, re-queued or claimed again: no step brings it back to a run
      that is not on it, since a claim always takes a newer version. */
  lemma StepKeepsOff(e: Env, s: Sys, step: Step, i: nat)
    requires Inv(s) && Enabled(e, s, step) && i < |s.runs| && !Current(s.runs[i], s.table.rows)
    ensures var s' := Apply(e, s, step);
            && i < |s'.runs| && !Current(s'.runs[i], s'.table.rows)
            && s'.runs[i].row == s.runs[i].row && s'.runs[i].token == s.runs[i].token
  {
    hide TableInv, LogOk, RunsOk, RunsOrdered, Backed, WatchOk, VerdictsOk, EnqueueError, Clears;
    RunRow(s, i);
    if step.Upsert? {
      hide UpsertRow;
      var rows, labelled := s.table.rows, step.spec.(version := |s.log|);
      UpsertKeepsOff(rows, Conflict(rows, Some(step.client)), labelled, s.runs[i]);
    }
  }

  lemma UpsertKeepsOff(rows: map<nat, Row>, id: Option<nat>, spec: Spec, r: Run)
    requires !Current(r, rows)
    ensures id.Some? && id.value in rows ==> !Current(r, rows[id.value := UpsertRow(rows[id.value], spec)])
  {
  }

  lemma RunRow(s: Sys, i: nat)
    requires Inv(s) && i < |s.runs|
    ensures s.runs[i].row < s.table.nextId
    ensures var r, rows := s.runs[i], s.table.rows;
            r.row in rows && rows[r.row].status == Pending ==> r.version < rows[r.row].spec.version
  {
    assert RunLogged(s.runs[i], s.table.rows, s.log, s.now);
  }

  lemma {:induction false} OffForGood(e: Env, states: seq<Sys>, steps: seq<Step>, j: nat, k: nat, i: nat)
    requires Execution(e, states, steps) && j <= k < |states|
    requires i < |states[j].runs| && !Current(states[j].runs[i], states[j].table.rows)
    ensures i < |states[k].runs| && !Current(states[k].runs[i], states[k].table.rows)
    ensures states[k].runs[i].row == states[j].runs[i].row && states[k].runs[i].token == states[j].runs[i].token
    decreases k
  {
    if j < k {
      hide Enabled, Apply, Inv, Current;
      OffForGood(e, states, steps, j, k - 1, i);
      ExecutionKeeps(e, states, steps, k - 1);
      StepKeepsOff(e, states[k - 1], steps[k - 1], i);
    }
  }

  /** The reaper's verdict is final: once it has taken a run off its row, that run, if it is
      alive after all, never again changes any row or verdict, whatever has happened
      to the row since. */
  lemma ReapIsFinal(e: Env, states: seq<Sys>, steps: seq<Step>, j: nat, k: nat, i: nat)
    requires Execution(e, states, steps) && j < k < |steps| && i < |states[j].runs|
    requires var r, rows := states[j].runs[i], states[j].table.rows;
             steps[j].Reap? && Current(r, rows) && Stale(rows[r.row], steps[j].asOf, steps[j].reapThreshold)
    requires steps[k].Finish? && steps[k].run == i
    ensures states[k + 1].table == states[k].table && states[k + 1].verdicts == states[k].verdicts
  {
    hide Inv;
    OffAfterReap(states[j], steps[j].asOf, steps[j].reapThreshold, i);
    assert Enabled(e, states[j], steps[j]) && Enabled(e, states[k], steps[k]);
    OffForGood(e, states, steps, j + 1, k, i);
    ExecutionKeeps(e, states, steps, k);
    TokenIdentifiesRun(states[k], i);
  }

  lemma OffAfterReap(s: Sys, asOf: int, threshold: int, i: nat)
    requires i < |s.runs| && s.runs[i].row in s.table.rows && Stale(s.table.rows[s.runs[i].row], asOf, threshold)
    ensures !Current(s.runs[i], ReapInto(s.table, asOf, threshold, asOf).rows)
  {
  }

  // ---------- what clients can always do ----------

  /** Nothing but validation and the unique constraint holds a client back, whatever the workers
      are doing. */
  lemma WritesAreNotBlocked(e: Env, s: Sys, c: string, spec: Spec)
    ensures Enabled(e, s, Enqueue(None, spec)) <==> spec.maxRuntime.None? || 0 < spec.maxRuntime.value
    ensures Enabled(e, s, Upsert(c, spec)) <==> spec.maxRuntime.None? || 0 < spec.maxRuntime.value
    ensures Enabled(e, s, Enqueue(Some(c), spec)) <==>
            && (spec.maxRuntime.None? || 0 < spec.maxRuntime.value)
            && forall k | k in s.table.rows :: s.table.rows[k].clientId != Some(c)
  {
  }

  /** A delete is always possible and takes effect on exactly the rows it names. */
  lemma DeletesAreNotBlocked(e: Env, s: Sys, id: nat, status: Status, before: Option<int>)
    requires TableInv(s.table) && status in {Completed, Failed}
    ensures Enabled(e, s, Cancel(id)) && Apply(e, s, Cancel(id)).table.rows == s.table.rows - {id}
    ensures Enabled(e, s, ClearAll) && Apply(e, s, ClearAll).table.rows == map[]
    ensures Enabled(e, s, Clear(status, before))
    ensures var rows, rows' := s.table.rows, Apply(e, s, Clear(status, before)).table.rows;
            && (forall k | k in rows ::
                  k !in rows' <==>
                  && rows[k].status == status
                  && (before.Some? ==> rows[k].completedAt.Some? && rows[k].completedAt.value < before.value))
            && (forall k | k in rows' :: k in rows && rows'[k] == rows[k])
  {
    hide TableInv, Clears, Claimable, EnqueueError;
    ClearInColumns(s.table, status, before);
  }

  /** What the reaper does to one row, read off `TwoPasses`: it takes the stale rows and only
      those, and leaves each FAILED with its own version, or PENDING with the version
      that was parked on it. */
  lemma ReaperTakesStaleRows(e: Env, s: Sys, step: Step, id: nat)
    requires Enabled(e, s, step) && step.Reap? && id in s.table.rows
    ensures var s', row := Apply(e, s, step), s.table.rows[id];
            && id in s'.table.rows
            && !Stale(s'.table.rows[id], step.asOf, step.reapThreshold)
            && Newest(s'.table.rows[id]) == Newest(row)
            && (Stale(row, step.asOf, step.reapThreshold) ==>
                  s'.table.rows[id].status == if row.requeue.Some? then Pending else Failed)
            && (!Stale(row, step.asOf, step.reapThreshold) ==> s'.table.rows[id] == row)
            && ReapedAs(row, s'.table.rows[id], step.asOf, step.reapThreshold)
            && (Stale(row, step.asOf, step.reapThreshold) <==> row != s'.table.rows[id])
  {
    ReapColumns(s.table, id, step.asOf, step.reapThreshold);
  }

  /** A committed batch is a sequence of consecutive upsert steps, so every statement here
      covers `upsert_many` too. */
  ghost predicate UpsertSteps(e: Env, states: seq<Sys>, items: seq<Batch.Upsert>, order: seq<nat>)
    requires Batch.InRange(items, order)
  {
    && |states| == |order| + 1
    && forall a {:trigger order[a]} | 0 <= a < |order| ::
         var step := Upsert(items[order[a]].clientId, items[order[a]].spec);
         Enabled(e, states[a], step) && states[a + 1] == Apply(e, states[a], step)
  }

  lemma {:induction false} BatchIsUpsertSteps(e: Env, s: Sys, items: seq<Batch.Upsert>, order: seq<nat>)
    returns (states: seq<Sys>)
    requires Batch.ValidItems(items) && Batch.InRange(items, order)
    requires forall a | 0 <= a < |order| :: items[order[a]].spec.version == |s.log| + a
    ensures UpsertSteps(e, states, items, order) && states[0] == s
    ensures states[|order|].table == Batch.ApplyIn(s.table, items, order, s.now)
    ensures states[|order|].now == s.now && |states[|order|].log| == |s.log| + |order|
    decreases |order|
  {
    if order == [] {
      return [s];
    }
    var front, u := order[..|order| - 1], items[order[|order| - 1]];
    states := BatchIsUpsertSteps(e, s, items, front);
    var last := states[|front|];
    assert u.spec.(version := |last.log|) == u.spec;
    states := states + [Apply(e, last, Upsert(u.clientId, u.spec))];
  }
}

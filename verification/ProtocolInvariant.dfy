/** Every step keeps every conjunct of the protocol invariant. One lemma per step that
    writes rows and per conjunct; the proofs are local to one row or one run. */
module ProtocolInvariant {
  import opened Wrappers
  import opened Tasks
  import opened TaskTable
  import opened Protocol

  lemma LastWriteSnoc(log: seq<nat>, x: nat, id: nat)
    ensures LastWrite(log + [x], id) == if x == id then Some(|log|) else LastWrite(log, id)
  {
    assert (log + [x])[..|log|] == log;
  }

  // ---------- enqueue and upsert ----------

  /** `row'` is what the write of version `v` makes of row `id`. */
  ghost predicate Written(rows: map<nat, Row>, id: nat, row': Row, v: nat) {
    if id in rows then
      exists spec: Spec :: spec.version == v && row' == UpsertRow(rows[id], spec)
    else
      row'.spec.version == v && row'.status == Pending && row'.requeue.None?
  }

  lemma WriteKeepsLog(t: Table, t': Table, id: nat, row': Row, log: seq<nat>)
    requires LogOk(t, log) && t'.rows == t.rows[id := row'] && Written(t.rows, id, row', |log|)
    requires t.nextId <= t'.nextId && id < t'.nextId
    ensures LogOk(t', log + [id])
  {
    hide LastWrite;
    forall k | k in t'.rows ensures RowLogged(t'.rows[k], log + [id], k) {
      LastWriteSnoc(log, id, k);
      assert k in t.rows ==> RowLogged(t.rows[k], log, k);
    }
  }

  lemma WriteKeepsRuns(runs: seq<Run>, rows: map<nat, Row>, id: nat, row': Row, log: seq<nat>, now: int)
    requires RunsOk(runs, rows, log, now) && Written(rows, id, row', |log|)
    ensures RunsOk(runs, rows[id := row'], log + [id], now)
  {
    forall i | 0 <= i < |runs| ensures RunLogged(runs[i], rows[id := row'], log + [id], now) {
      assert RunLogged(runs[i], rows, log, now);
    }
  }

  lemma WriteKeepsBacked(runs: seq<Run>, rows: map<nat, Row>, id: nat, row': Row, v: nat)
    requires Backed(runs, rows) && Written(rows, id, row', v)
    ensures Backed(runs, rows[id := row'])
  {
    var rows' := rows[id := row'];
    forall k | k in rows' && rows'[k].status != Pending
      ensures exists i :: 0 <= i < |runs| && Backs(runs[i], rows'[k])
    {
      var i :| 0 <= i < |runs| && Backs(runs[i], rows[k]);
      assert Backs(runs[i], rows'[k]);
    }
  }

  lemma WriteKeepsWatch(t: Table, runs: seq<Run>, id: nat, row': Row, log: seq<nat>, now: int)
    requires WatchOk(runs, t.rows, now) && Written(t.rows, id, row', |log|)
    requires RunsOk(runs, t.rows, log, now) && LogOk(t, log) && (id !in t.rows ==> id == t.nextId)
    ensures WatchOk(runs, t.rows[id := row'], now)
  {
    forall i | 0 <= i < |runs| && runs[i].duty == Watching && runs[i].row in t.rows[id := row']
      ensures Current(runs[i], t.rows[id := row']) || runs[i].token < now
    {
      assert RunLogged(runs[i], t.rows, log, now);
    }
  }

  lemma WriteKeepsVerdicts(t: Table, verdicts: multiset<nat>, runs: seq<Run>, id: nat, row': Row, log: seq<nat>)
    requires VerdictsOk(verdicts, runs, t.rows, log) && Written(t.rows, id, row', |log|)
    ensures VerdictsOk(verdicts, runs, t.rows[id := row'], log + [id])
  {
  }

  lemma WriteKeeps(s: Sys, t': Table, id: nat, row': Row, spec: Spec)
    requires Inv(s) && TableInv(t') && t'.rows == s.table.rows[id := row'] && Written(s.table.rows, id, row', |s.log|)
    requires s.table.nextId <= t'.nextId && id < t'.nextId && (id !in s.table.rows ==> id == s.table.nextId)
    ensures Inv(s.(table := t', log := s.log + [id], written := s.written + [spec]))
  {
    hide TableInv, LogOk, RunsOk, RunsOrdered, Backed, WatchOk, VerdictsOk, Written;
    WriteKeepsLog(s.table, t', id, row', s.log);
    WriteKeepsRuns(s.runs, s.table.rows, id, row', s.log, s.now);
    WriteKeepsBacked(s.runs, s.table.rows, id, row', |s.log|);
    WriteKeepsWatch(s.table, s.runs, id, row', s.log, s.now);
    WriteKeepsVerdicts(s.table, s.verdicts, s.runs, id, row', s.log);
  }

  lemma EnqueueKeeps(e: Env, s: Sys, c: Option<string>, spec: Spec)
    requires Inv(s) && Enabled(e, s, Enqueue(c, spec))
    ensures Inv(Apply(e, s, Enqueue(c, spec)))
  {
    hide LogOk, RunsOk, RunsOrdered, Backed, WatchOk, VerdictsOk, UniqueClients;
    var labelled, id := spec.(version := |s.log|), s.table.nextId;
    InsertKeepsTable(s.table, c, labelled, s.now);
    assert id !in s.table.rows;
    WriteKeeps(s, InsertInto(s.table, c, labelled, s.now), id, Fresh(c, s.now, labelled), labelled);
  }

  lemma UpsertKeeps(e: Env, s: Sys, c: string, spec: Spec)
    requires Inv(s) && Enabled(e, s, Upsert(c, spec))
    ensures Inv(Apply(e, s, Upsert(c, spec)))
  {
    hide LogOk, RunsOk, RunsOrdered, Backed, WatchOk, VerdictsOk, UniqueClients, UpsertRow, Shape;
    var labelled, id := spec.(version := |s.log|), UpsertId(s.table, c);
    UpsertKeepsTable(s.table, c, labelled, s.now);
    var t' := UpsertInto(s.table, c, labelled, s.now);
    assert t'.rows == s.table.rows[id := t'.rows[id]];
    WriteKeeps(s, t', id, t'.rows[id], labelled);
  }

  // ---------- claim ----------

  lemma ClaimKeepsRuns(s: Sys, id: nat, r: Run)
    requires id in s.table.rows && s.table.rows[id].status == Pending
    requires r.row == id && r.token == s.now && r.version == s.table.rows[id].spec.version
    requires LogOk(s.table, s.log) && RunsOk(s.runs, s.table.rows, s.log, s.now)
    ensures RunsOk(s.runs + [r], ClaimInto(s.table, id, s.now).rows, s.log, s.now)
  {
    var rows' := ClaimInto(s.table, id, s.now).rows;
    assert RowLogged(s.table.rows[id], s.log, id);
    forall i | 0 <= i < |s.runs + [r]| ensures RunLogged((s.runs + [r])[i], rows', s.log, s.now) {
      if i < |s.runs| {
        assert RunLogged(s.runs[i], s.table.rows, s.log, s.now);
      }
    }
  }

  lemma ClaimKeepsOrder(s: Sys, id: nat, r: Run)
    requires id in s.table.rows && s.table.rows[id].status == Pending
    requires r.row == id && r.token == s.now && r.version == s.table.rows[id].spec.version
    requires RunsOk(s.runs, s.table.rows, s.log, s.now) && RunsOrdered(s.runs) && WatchOk(s.runs, s.table.rows, s.now)
    ensures RunsOrdered(s.runs + [r])
  {
    forall i | 0 <= i < |s.runs| && s.runs[i].row == id
      ensures s.runs[i].version < r.version && (s.runs[i].duty == Watching ==> s.runs[i].token < r.token)
    {
      assert RunLogged(s.runs[i], s.table.rows, s.log, s.now);
    }
  }

  lemma ClaimKeepsBacked(runs: seq<Run>, rows: map<nat, Row>, id: nat, r: Run)
    requires Backed(runs, rows) && id in rows
    requires r.version == rows[id].spec.version && r.duty == Watching
    ensures Backed(runs + [r], rows[id := ClaimRow(rows[id], r.token)])
  {
    var rows', runs' := rows[id := ClaimRow(rows[id], r.token)], runs + [r];
    forall k | k in rows' && rows'[k].status != Pending
      ensures exists i :: 0 <= i < |runs'| && Backs(runs'[i], rows'[k])
    {
      if k == id {
        assert Backs(runs'[|runs|], rows'[k]);
      } else {
        var i :| 0 <= i < |runs| && Backs(runs[i], rows[k]);
        assert Backs(runs'[i], rows'[k]);
      }
    }
  }

  lemma ClaimKeepsWatch(runs: seq<Run>, rows: map<nat, Row>, id: nat, r: Run, now: int)
    requires WatchOk(runs, rows, now) && id in rows && rows[id].status == Pending
    requires r.row == id && r.token == now && r.version == rows[id].spec.version
    ensures WatchOk(runs + [r], rows[id := ClaimRow(rows[id], now)], now)
  {
    var rows', runs' := rows[id := ClaimRow(rows[id], now)], runs + [r];
    forall i | 0 <= i < |runs'| && runs'[i].duty == Watching && runs'[i].row in rows'
      ensures Current(runs'[i], rows') || runs'[i].token < now
    {
      assert i < |runs| ==> Current(runs[i], rows) || runs[i].token < now;
    }
  }

  lemma ClaimKeepsVerdicts(s: Sys, id: nat, r: Run)
    requires id in s.table.rows && s.table.rows[id].status == Pending
    requires LogOk(s.table, s.log) && RunsOk(s.runs, s.table.rows, s.log, s.now)
    requires VerdictsOk(s.verdicts, s.runs, s.table.rows, s.log)
    ensures VerdictsOk(s.verdicts, s.runs + [r], ClaimInto(s.table, id, s.now).rows, s.log)
  {
    forall v | v in s.verdicts ensures HasRun(s.runs + [r], v) {
      var i :| 0 <= i < |s.runs| && s.runs[i].version == v;
      assert (s.runs + [r])[i].version == v;
    }
  }

  lemma ClaimKeeps(e: Env, s: Sys, w: nat, id: nat, d: int)
    requires Inv(s) && Enabled(e, s, Claim(w, id, d))
    ensures Inv(Apply(e, s, Claim(w, id, d)))
  {
    hide TableInv, LogOk, RunsOk, RunsOrdered, Backed, WatchOk, VerdictsOk;
    var r := NewRun(s, w, id, d);
    ClaimKeepsTable(s.table, id, s.now);
    ClaimKeepsRuns(s, id, r);
    ClaimKeepsOrder(s, id, r);
    ClaimKeepsBacked(s.runs, s.table.rows, id, r);
    ClaimKeepsWatch(s.runs, s.table.rows, id, r, s.now);
    ClaimKeepsVerdicts(s, id, r);
    ClaimKeepsLog(s.table, id, s.now, s.log);
  }

  lemma ClaimKeepsLog(t: Table, id: nat, token: int, log: seq<nat>)
    requires LogOk(t, log) && id in t.rows
    ensures LogOk(ClaimInto(t, id, token), log)
  {
    forall k | k in t.rows ensures RowLogged(ClaimInto(t, id, token).rows[k], log, k) {
      assert RowLogged(t.rows[k], log, k);
    }
  }

  // ---------- events that change a run only ----------

  /** Identity is fixed, a dead child stays as it is, and watching only ends. */
  predicate RunsEvolve(runs: seq<Run>, runs': seq<Run>) {
    && |runs'| == |runs|
    && forall i | 0 <= i < |runs| ::
         && runs'[i].row == runs[i].row && runs'[i].token == runs[i].token && runs'[i].version == runs[i].version
         && (Over(runs[i].child) ==> runs'[i].child == runs[i].child)
         && (runs'[i].duty == Watching ==> runs[i].duty == Watching)
  }

  lemma EvolveKeepsRuns(s: Sys, runs': seq<Run>)
    requires RunsEvolve(s.runs, runs')
    requires RunsOk(s.runs, s.table.rows, s.log, s.now) && RunsOrdered(s.runs) && WatchOk(s.runs, s.table.rows, s.now)
    ensures RunsOk(runs', s.table.rows, s.log, s.now) && RunsOrdered(runs') && WatchOk(runs', s.table.rows, s.now)
  {
    forall i | 0 <= i < |runs'| ensures RunLogged(runs'[i], s.table.rows, s.log, s.now) {
      assert RunLogged(s.runs[i], s.table.rows, s.log, s.now);
    }
  }

  lemma EvolveKeepsVerdicts(verdicts: multiset<nat>, runs: seq<Run>, runs': seq<Run>, rows: map<nat, Row>,
                            log: seq<nat>)
    requires RunsEvolve(runs, runs') && VerdictsOk(verdicts, runs, rows, log)
    ensures VerdictsOk(verdicts, runs', rows, log)
  {
    forall v | v in verdicts ensures HasRun(runs', v) {
      var i :| 0 <= i < |runs| && runs[i].version == v;
      assert runs'[i].version == v;
    }
  }

  /** Some RUNNING row is backed by a run that is not the one now finished. */
  lemma EvolveKeepsBacked(runs: seq<Run>, runs': seq<Run>, rows: map<nat, Row>)
    requires RunsEvolve(runs, runs') && Backed(runs, rows)
    requires forall i | 0 <= i < |runs| && runs'[i].duty == Finished ::
               runs[i].duty == Finished
               || forall id | id in rows && rows[id].status == Running :: rows[id].spec.version != runs[i].version
    ensures Backed(runs', rows)
  {
    forall k | k in rows && rows[k].status != Pending ensures exists i :: 0 <= i < |runs'| && Backs(runs'[i], rows[k]) {
      var i :| 0 <= i < |runs| && Backs(runs[i], rows[k]);
      assert Backs(runs'[i], rows[k]);
    }
  }

  lemma RunEventKeeps(e: Env, s: Sys, step: Step)
    requires Inv(s) && Enabled(e, s, step) && (step.Fork? || step.ForkFailed? || step.Exit? || step.Abandon?)
    ensures Inv(Apply(e, s, step))
  {
    hide TableInv, LogOk, RunsOk, RunsOrdered, Backed, WatchOk, VerdictsOk;
    var s' := Apply(e, s, step);
    assert RunsEvolve(s.runs, s'.runs);
    EvolveKeepsRuns(s, s'.runs);
    EvolveKeepsVerdicts(s.verdicts, s.runs, s'.runs, s.table.rows, s.log);
    EvolveKeepsBacked(s.runs, s'.runs, s.table.rows);
  }

  lemma TickKeeps(e: Env, s: Sys, to: int)
    requires Inv(s) && Enabled(e, s, Tick(to))
    ensures Inv(Apply(e, s, Tick(to)))
  {
    hide TableInv, LogOk, RunsOrdered, Backed, VerdictsOk;
    forall i | 0 <= i < |s.runs| ensures RunLogged(s.runs[i], s.table.rows, s.log, to) {
      assert RunLogged(s.runs[i], s.table.rows, s.log, s.now);
    }
  }

  // ---------- deletes ----------

  predicate SubRows(rows: map<nat, Row>, rows': map<nat, Row>) {
    forall id | id in rows' :: id in rows && rows'[id] == rows[id]
  }

  lemma DeleteKeeps(e: Env, s: Sys, step: Step)
    requires Inv(s) && Enabled(e, s, step) && (step.Cancel? || step.Clear? || step.ClearAll?)
    ensures Inv(Apply(e, s, step))
  {
    var t' := Apply(e, s, step).table;
    assert SubRows(s.table.rows, t'.rows) && t'.nextId == s.table.nextId && TableInv(t');
    SubRowsKeep(s, t');
  }

  lemma SubRowsKeep(s: Sys, t': Table)
    requires Inv(s) && SubRows(s.table.rows, t'.rows) && t'.nextId == s.table.nextId && TableInv(t')
    ensures Inv(s.(table := t'))
  {
    hide TableInv, RunsOrdered;
    forall i | 0 <= i < |s.runs| ensures RunLogged(s.runs[i], t'.rows, s.log, s.now) {
      assert RunLogged(s.runs[i], s.table.rows, s.log, s.now);
    }
    forall i | 0 <= i < |s.runs| && Current(s.runs[i], s.table.rows) && s.runs[i].row in t'.rows
      ensures Current(s.runs[i], t'.rows)
    {
    }
  }

  // ---------- ends of runs ----------

  /** Rows in `ended` were RUNNING and are no longer; no other row changed. */
  predicate EndRows(rows: map<nat, Row>, rows': map<nat, Row>, ended: set<nat>) {
    && rows'.Keys == rows.Keys && ended <= rows.Keys
    && forall id | id in rows :: if id in ended then EndedAs(rows[id], rows'[id]) else rows'[id] == rows[id]
  }

  predicate EndedAs(row: Row, row': Row) {
    && row.status == Running
    && if row.requeue.Some? then row' == Requeued(row)
       else row'.status in {Completed, Failed} && row'.spec == row.spec && row'.requeue.None?
            && row'.clientId == row.clientId
  }

  lemma EndKeepsLog(t: Table, t': Table, ended: set<nat>, log: seq<nat>)
    requires LogOk(t, log) && EndRows(t.rows, t'.rows, ended) && t'.nextId == t.nextId
    ensures LogOk(t', log)
  {
    hide LastWrite;
    forall k | k in t'.rows ensures RowLogged(t'.rows[k], log, k) {
      assert RowLogged(t.rows[k], log, k);
      LogAt(t, log, k);
    }
  }

  lemma LogAt(t: Table, log: seq<nat>, k: nat)
    requires LogOk(t, log) && k in t.rows
    ensures Newest(t.rows[k]) < |log| && log[Newest(t.rows[k])] == k
  {
    assert RowLogged(t.rows[k], log, k);
  }

  /** A parked version is newer than every claim of its row. */
  lemma EndKeepsRuns(t: Table, rows': map<nat, Row>, ended: set<nat>, runs: seq<Run>, log: seq<nat>, now: int)
    requires RunsOk(runs, t.rows, log, now) && EndRows(t.rows, rows', ended) && ParkedNewer(t.rows)
    ensures RunsOk(runs, rows', log, now)
  {
    forall i | 0 <= i < |runs| ensures RunLogged(runs[i], rows', log, now) {
      assert RunLogged(runs[i], t.rows, log, now);
    }
  }

  predicate ParkedNewer(rows: map<nat, Row>) {
    forall id | id in rows && rows[id].requeue.Some? :: rows[id].spec.version < rows[id].requeue.value.version
  }

  lemma LogMakesParkedNewer(t: Table, log: seq<nat>)
    requires LogOk(t, log)
    ensures ParkedNewer(t.rows)
  {
    forall id | id in t.rows && t.rows[id].requeue.Some?
      ensures t.rows[id].spec.version < t.rows[id].requeue.value.version
    {
      assert RowLogged(t.rows[id], log, id);
    }
  }

  /** The end of a run records its first verdict. */
  lemma EndRecordsOnce(s: Sys, id: nat)
    requires id in s.table.rows && s.table.rows[id].status == Running
    requires LogOk(s.table, s.log) && VerdictsOk(s.verdicts, s.runs, s.table.rows, s.log)
    requires Backed(s.runs, s.table.rows)
    ensures var v := s.table.rows[id].spec.version;
            v !in s.verdicts && HasRun(s.runs, v) && v < |s.log| && s.log[v] == id
  {
    assert RowLogged(s.table.rows[id], s.log, id);
    var i :| 0 <= i < |s.runs| && Backs(s.runs[i], s.table.rows[id]);
  }

  /** A version that had a verdict is not what a re-queued row waits to run. */
  lemma OldVerdictStands(s: Sys, row': Row, v: nat)
    requires v in s.verdicts && VerdictsOk(s.verdicts, s.runs, s.table.rows, s.log)
    requires RunsOk(s.runs, s.table.rows, s.log, s.now) && ParkedNewer(s.table.rows)
    requires s.log[v] in s.table.rows && EndedAs(s.table.rows[s.log[v]], row')
    ensures row'.spec.version != v
  {
    var i :| 0 <= i < |s.runs| && s.runs[i].version == v;
    assert RunLogged(s.runs[i], s.table.rows, s.log, s.now);
  }

  lemma EndKeepsVerdicts(s: Sys, rows': map<nat, Row>, ended: set<nat>, added: set<nat>)
    requires EndRows(s.table.rows, rows', ended) && ParkedNewer(s.table.rows)
    requires added == set id | id in ended :: s.table.rows[id].spec.version
    requires LogOk(s.table, s.log) && RunsOk(s.runs, s.table.rows, s.log, s.now)
    requires VerdictsOk(s.verdicts, s.runs, s.table.rows, s.log) && Backed(s.runs, s.table.rows)
    ensures VerdictsOk(s.verdicts + multiset(added), s.runs, rows', s.log)
  {
    hide LogOk, RunsOk, Backed;
    var rows := s.table.rows;
    forall v | v in s.verdicts + multiset(added)
      ensures (s.verdicts + multiset(added))[v] == 1 && HasRun(s.runs, v) && v < |s.log|
      ensures s.log[v] in rows' && rows'[s.log[v]].spec.version == v ==> rows'[s.log[v]].status in {Completed, Failed}
    {
      if v in added {
        var id :| id in ended && rows[id].spec.version == v;
        EndRecordsOnce(s, id);
      } else if s.log[v] in ended {
        OldVerdictStands(s, rows'[s.log[v]], v);
      }
    }
  }

  // ---------- the token identifies the run ----------

  /** No version is claimed twice. */
  lemma VersionsDistinct(s: Sys, i: nat, j: nat)
    requires i < |s.runs| && j < |s.runs| && i != j
    requires RunsOk(s.runs, s.table.rows, s.log, s.now) && RunsOrdered(s.runs)
    ensures s.runs[i].version != s.runs[j].version
  {
    assert RunLogged(s.runs[i], s.table.rows, s.log, s.now) && RunLogged(s.runs[j], s.table.rows, s.log, s.now);
  }

  /** For a run that may still report, the guard of `_finish_one_off` matches exactly when
      the row is RUNNING that run, and not a later one that happens to share it. */
  lemma TokenIdentifiesRun(s: Sys, i: nat)
    requires Inv(s) && i < |s.runs| && s.runs[i].duty == Watching
    ensures FinishMatches(s.table, s.runs[i].row, s.runs[i].token) <==> Current(s.runs[i], s.table.rows)
  {
    hide TableInv, VerdictsOk, LogOk;
    var r, rows := s.runs[i], s.table.rows;
    if FinishMatches(s.table, r.row, r.token) && !Current(r, rows) {
      var j :| 0 <= j < |s.runs| && Backs(s.runs[j], rows[r.row]);
      RunOfRow(s, r.row, j);
    }
  }

  lemma RunOfRow(s: Sys, id: nat, j: nat)
    requires Inv(s) && id in s.table.rows && j < |s.runs| && s.runs[j].version == s.table.rows[id].spec.version
    ensures s.runs[j].row == id
  {
    assert RowLogged(s.table.rows[id], s.log, id);
    assert RunLogged(s.runs[j], s.table.rows, s.log, s.now);
  }

  /** The run a RUNNING row names is the only one with its version. */
  lemma CurrentOfVersion(s: Sys, i: nat, id: nat)
    requires Inv(s) && i < |s.runs| && id in s.table.rows && s.table.rows[id].status == Running
    requires s.table.rows[id].spec.version == s.runs[i].version
    ensures Current(s.runs[i], s.table.rows) && s.runs[i].duty != Finished
  {
    hide TableInv, VerdictsOk, WatchOk, LogOk;
    RunOfRow(s, id, i);
    var j :| 0 <= j < |s.runs| && Backs(s.runs[j], s.table.rows[id]);
    assert j == i;
  }

  // ---------- finish ----------

  lemma FinishMissKeeps(e: Env, s: Sys, i: nat, status: Status, error: Option<string>)
    requires Inv(s) && Enabled(e, s, Finish(i, status, error))
    requires !FinishMatches(s.table, s.runs[i].row, s.runs[i].token)
    ensures Inv(Apply(e, s, Finish(i, status, error)))
  {
    hide TableInv, LogOk, RunsOk, RunsOrdered, Backed, WatchOk, VerdictsOk;
    var s' := SetDuty(s, i, Finished);
    assert RunsEvolve(s.runs, s'.runs);
    forall id | id in s.table.rows && s.table.rows[id].status == Running
      ensures s.table.rows[id].spec.version != s.runs[i].version
    {
      if s.table.rows[id].spec.version == s.runs[i].version {
        CurrentOfVersion(s, i, id);
      }
    }
    EvolveKeepsRuns(s, s'.runs);
    EvolveKeepsVerdicts(s.verdicts, s.runs, s'.runs, s.table.rows, s.log);
    EvolveKeepsBacked(s.runs, s'.runs, s.table.rows);
  }

  lemma FinishKeepsWatch(s: Sys, i: nat, rows': map<nat, Row>)
    requires i < |s.runs| && Current(s.runs[i], s.table.rows) && EndRows(s.table.rows, rows', {s.runs[i].row})
    requires WatchOk(s.runs, s.table.rows, s.now) && RunsOk(s.runs, s.table.rows, s.log, s.now) && RunsOrdered(s.runs)
    ensures WatchOk(SetDuty(s, i, Finished).runs, rows', s.now)
  {
    var runs' := SetDuty(s, i, Finished).runs;
    forall k | 0 <= k < |runs'| && runs'[k].duty == Watching && runs'[k].row in rows'
      ensures Current(runs'[k], rows') || runs'[k].token < s.now
    {
      assert Current(s.runs[k], s.table.rows) || s.runs[k].token < s.now;
      if s.runs[k].row == s.runs[i].row {
        VersionsDistinct(s, i, k);
      }
    }
  }

  lemma FinishKeepsBacked(s: Sys, i: nat, rows': map<nat, Row>)
    requires Inv(s) && i < |s.runs| && Current(s.runs[i], s.table.rows)
    requires EndRows(s.table.rows, rows', {s.runs[i].row})
    requires rows'[s.runs[i].row].status == Completed ==> s.runs[i].child == Dead(true)
    ensures Backed(SetDuty(s, i, Finished).runs, rows')
  {
    hide TableInv, LogOk, RunsOk, RunsOrdered, WatchOk, VerdictsOk;
    var rows, runs' := s.table.rows, SetDuty(s, i, Finished).runs;
    forall k | k in rows' && rows'[k].status != Pending
      ensures exists j :: 0 <= j < |runs'| && Backs(runs'[j], rows'[k])
    {
      if k == s.runs[i].row {
        assert Backs(runs'[i], rows'[k]);
      } else {
        var j :| 0 <= j < |s.runs| && Backs(s.runs[j], rows[k]);
        RunOfRow(s, k, j);
        assert j != i && Backs(runs'[j], rows'[k]);
      }
    }
  }

  lemma FinishHitKeeps(e: Env, s: Sys, i: nat, status: Status, error: Option<string>)
    requires Inv(s) && Enabled(e, s, Finish(i, status, error))
    requires FinishMatches(s.table, s.runs[i].row, s.runs[i].token)
    ensures Inv(Apply(e, s, Finish(i, status, error)))
  {
    hide TableInv, LogOk, RunsOk, RunsOrdered, Backed, WatchOk, VerdictsOk, ParkedNewer;
    var r, s' := s.runs[i], Apply(e, s, Finish(i, status, error));
    TokenIdentifiesRun(s, i);
    FinishKeepsTable(s.table, r.row, r.token, status, error, s.now);
    var rows' := s'.table.rows;
    assert EndRows(s.table.rows, rows', {r.row});
    LogMakesParkedNewer(s.table, s.log);
    EndKeepsLog(s.table, s'.table, {r.row}, s.log);
    EndKeepsRuns(s.table, rows', {r.row}, s.runs, s.log, s.now);
    EndKeepsVerdicts(s, rows', {r.row}, {r.version});
    FinishKeepsWatch(s, i, rows');
    FinishKeepsBacked(s, i, rows');
    assert RunsEvolve(s.runs, s'.runs);
    assert multiset({r.version}) == multiset{r.version};
    DutyKeepsRuns(s.runs, s'.runs, rows', s.log, s.now);
    EvolveKeepsVerdicts(s'.verdicts, s.runs, s'.runs, rows', s.log);
  }

  lemma DutyKeepsRuns(runs: seq<Run>, runs': seq<Run>, rows: map<nat, Row>, log: seq<nat>, now: int)
    requires RunsEvolve(runs, runs') && RunsOk(runs, rows, log, now) && RunsOrdered(runs)
    ensures RunsOk(runs', rows, log, now) && RunsOrdered(runs')
  {
    forall i | 0 <= i < |runs'| ensures RunLogged(runs'[i], rows, log, now) {
      assert RunLogged(runs[i], rows, log, now);
    }
  }

  // ---------- reap ----------

  lemma ReapKeepsWatch(s: Sys, asOf: int, threshold: int)
    requires 0 <= threshold && asOf <= s.now && WatchOk(s.runs, s.table.rows, s.now)
    ensures WatchOk(s.runs, ReapInto(s.table, asOf, threshold, asOf).rows, s.now)
  {
    var rows' := ReapInto(s.table, asOf, threshold, asOf).rows;
    forall k | 0 <= k < |s.runs| && s.runs[k].duty == Watching && s.runs[k].row in rows'
      ensures Current(s.runs[k], rows') || s.runs[k].token < s.now
    {
      assert Current(s.runs[k], s.table.rows) || s.runs[k].token < s.now;
    }
  }

  lemma ReapKeepsBacked(s: Sys, asOf: int, threshold: int)
    requires Backed(s.runs, s.table.rows)
    ensures Backed(s.runs, ReapInto(s.table, asOf, threshold, asOf).rows)
  {
    var rows, rows' := s.table.rows, ReapInto(s.table, asOf, threshold, asOf).rows;
    forall k | k in rows' && rows'[k].status != Pending
      ensures exists j :: 0 <= j < |s.runs| && Backs(s.runs[j], rows'[k])
    {
      var j :| 0 <= j < |s.runs| && Backs(s.runs[j], rows[k]);
      assert Backs(s.runs[j], rows'[k]);
    }
  }

  lemma ReapKeeps(e: Env, s: Sys, threshold: int, asOf: int)
    requires Inv(s) && Enabled(e, s, Reap(threshold, asOf))
    ensures Inv(Apply(e, s, Reap(threshold, asOf)))
  {
    hide TableInv, LogOk, RunsOk, RunsOrdered, Backed, WatchOk, VerdictsOk, ParkedNewer;
    var t', ended := ReapInto(s.table, asOf, threshold, asOf), StaleIds(s.table.rows, asOf, threshold);
    assert EndRows(s.table.rows, t'.rows, ended);
    ReapKeepsTable(s.table, asOf, threshold, asOf);
    LogMakesParkedNewer(s.table, s.log);
    EndKeepsLog(s.table, t', ended, s.log);
    EndKeepsRuns(s.table, t'.rows, ended, s.runs, s.log, s.now);
    EndKeepsVerdicts(s, t'.rows, ended, StaleVersions(s.table.rows, asOf, threshold));
    ReapKeepsWatch(s, asOf, threshold);
    ReapKeepsBacked(s, asOf, threshold);
  }

  // ---------- all together ----------

  /** Every step of any actor keeps the invariant. */
  lemma StepKeeps(e: Env, s: Sys, step: Step)
    requires Inv(s) && Enabled(e, s, step)
    ensures Inv(Apply(e, s, step))
  {
    hide Inv, Enabled, Apply;
    match step
    case Enqueue(c, spec) => EnqueueKeeps(e, s, c, spec);
    case Upsert(c, spec) => UpsertKeeps(e, s, c, spec);
    case Claim(w, id, d) => ClaimKeeps(e, s, w, id, d);
    case Fork(_) => RunEventKeeps(e, s, step);
    case ForkFailed(_) => RunEventKeeps(e, s, step);
    case Exit(_, _) => RunEventKeeps(e, s, step);
    case Finish(i, status, error) => FinishKeeps(e, s, i, status, error);
    case Abandon(_) => RunEventKeeps(e, s, step);
    case Reap(threshold, asOf) => ReapKeeps(e, s, threshold, asOf);
    case Cancel(_) => DeleteKeeps(e, s, step);
    case Clear(_, _) => DeleteKeeps(e, s, step);
    case ClearAll => DeleteKeeps(e, s, step);
    case Tick(to) => TickKeeps(e, s, to);
  }

  lemma FinishKeeps(e: Env, s: Sys, i: nat, status: Status, error: Option<string>)
    requires Inv(s) && Enabled(e, s, Finish(i, status, error))
    ensures Inv(Apply(e, s, Finish(i, status, error)))
  {
    hide Inv, Apply;
    if FinishMatches(s.table, s.runs[i].row, s.runs[i].token) {
      FinishHitKeeps(e, s, i, status, error);
    } else {
      FinishMissKeeps(e, s, i, status, error);
    }
  }

  /** Every reachable state satisfies the invariant. */
  lemma {:induction false} ExecutionKeeps(e: Env, states: seq<Sys>, steps: seq<Step>, k: nat)
    requires Execution(e, states, steps) && k < |states|
    ensures Inv(states[k])
  {
    hide Enabled, Apply;
    if k > 0 {
      hide Inv;
      ExecutionKeeps(e, states, steps, k - 1);
      StepKeeps(e, states[k - 1], steps[k - 1]);
    }
  }

  // ---------- reachable states ----------

  lemma StartReachable(e: Env)
    ensures Reachable(e, START)
  {
    assert Execution(e, [START], []);
  }

  /** One more step is again an execution. */
  lemma StepReachable(e: Env, s: Sys, step: Step)
    requires Reachable(e, s) && Enabled(e, s, step)
    ensures Reachable(e, Apply(e, s, step))
  {
    hide Enabled, Apply;
    var states, steps :| Execution(e, states, steps) && states[|steps|] == s;
    var states', steps' := states + [Apply(e, s, step)], steps + [step];
    forall k | 0 <= k < |steps'|
      ensures Enabled(e, states'[k], steps'[k]) && states'[k + 1] == Apply(e, states'[k], steps'[k])
    {
      if k < |steps| {
        assert steps'[k] == steps[k] && states'[k] == states[k] && states'[k + 1] == states[k + 1];
      }
    }
    assert Execution(e, states', steps');
  }

  lemma ReachableKeeps(e: Env, s: Sys)
    requires Reachable(e, s)
    ensures Inv(s)
  {
    hide Enabled, Apply, Inv;
    var states, steps :| Execution(e, states, steps) && states[|steps|] == s;
    ExecutionKeeps(e, states, steps, |steps|);
  }
}

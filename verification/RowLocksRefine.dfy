/** The model with row locks refines the atomic one: each of its steps is an atomic step or
    invisible, so whatever holds of every atomic execution holds of it. */
module RowLocksRefine {
  import opened Wrappers
  import opened Tasks
  import opened TaskTable
  import opened Protocol
  import opened ProtocolInvariant
  import opened RowLocks
  import opened Overlap
  import opened OverlapExact
  import opened Guarantees

  // ---------- no step disturbs what an open transaction relies on ----------

  /** Against a fixed cutoff no row becomes stale, and a stale row does not lose its
      parked version. */
  predicate Shrinks(rows: map<nat, Row>, rows': map<nat, Row>, asOf: int, window: int) {
    forall id | id in rows' && Stale(rows'[id], asOf, window) ::
      && id in rows && Stale(rows[id], asOf, window)
      && (rows[id].requeue.Some? ==> rows'[id].requeue.Some?)
  }

  lemma StepShrinks(e: Env, s: Sys, step: Step, asOf: int, window: int)
    requires Enabled(e, s, step) && asOf <= s.now && 0 <= window
    ensures Shrinks(s.table.rows, Apply(e, s, step).table.rows, asOf, window)
  {
    hide TableInv, Claimable, EnqueueError, Conflict, Clears;
  }

  /** A step leaves alone the rows it does not lock. */
  lemma StepFrames(e: Env, s: Sys, step: Step, id: nat)
    requires TableInv(s.table) && Enabled(e, s, step) && !step.Finish? && !step.Reap?
    requires id in s.table.rows && !Touches(s, step, id)
    ensures var rows' := Apply(e, s, step).table.rows; id in rows' && rows'[id] == s.table.rows[id]
  {
    hide UniqueClients, Shape, Claimable, EnqueueError;
  }

  lemma StepFramesRun(e: Env, s: Sys, step: Step, i: nat)
    requires Enabled(e, s, step) && i < |s.runs| && Over(s.runs[i].child) && s.runs[i].duty == Watching
    requires step.Abandon? || step.Finish? ==> step.run != i
    ensures i < |Apply(e, s, step).runs| && Apply(e, s, step).runs[i] == s.runs[i]
  {
    hide Claimable, EnqueueError, Conflict, FinishInto, ReapInto;
  }

  lemma TxnSurvives(e: Env, s: Sys, s': Sys, t: Txn)
    requires TxnOk(e, s, t) && s.now <= s'.now
    requires forall id | id in Locks(t) && id in s.table.rows ::
               id in s'.table.rows && s'.table.rows[id] == s.table.rows[id]
    requires t.FinishTxn? ==> t.run < |s'.runs| && s'.runs[t.run] == s.runs[t.run]
    requires t.ReapTxn? ==> Shrinks(s.table.rows, s'.table.rows, t.asOf, t.window)
    ensures TxnOk(e, s', t)
  {
    hide Stale, Matches;
  }

  // ---------- the steps that end a transaction ----------

  /** The late write of a finish, computed from an earlier locking read, is the atomic
      finish at the time of the commit. */
  lemma FinishCommitRefines(e: Env, f: Fine, tx: nat, status: Status, error: Option<string>)
    requires FineInv(e, f) && FineEnabled(e, f, FinishCommit(tx, status, error))
    ensures FineApply(e, f, FinishCommit(tx, status, error)).sys ==
            Apply(e, f.sys, Finish(f.txns[tx].run, status, error))
  {
    hide FinishRow, Accounted;
    assert TxnOk(e, f.sys, f.txns[tx]);
  }

  /** Two statements, row by row, whose cutoff is the start of the transaction: the commit
      is the atomic reaper with that cutoff. No stale row was missed. */
  lemma ReapWritesAreReap(rows: map<nat, Row>, t: Txn)
    requires t.ReapTxn? && t.selecting && t.todo == {} && Accounted(rows, t)
    requires Holds(rows, t.failed) && Holds(rows, t.parked)
    requires forall id | id in t.failed :: Matches(t.failed[id], t.asOf, t.window, false)
    requires forall id | id in t.parked :: Matches(t.parked[id], t.asOf, t.window, true)
    ensures rows + ReapWrites(t) == ReapInto(Table(rows, 0), t.asOf, t.window, t.asOf).rows
    ensures ReapVersions(t) == StaleVersions(rows, t.asOf, t.window)
  {
    hide Stale, FailReaped, Requeued;
    var done := rows + ReapWrites(t);
    assert done.Keys == rows.Keys;
    forall v | v in StaleVersions(rows, t.asOf, t.window) ensures v in ReapVersions(t) {
      var id :| id in rows && Stale(rows[id], t.asOf, t.window) && rows[id].spec.version == v;
      assert id in t.failed || id in t.parked;
    }
    forall v | v in ReapVersions(t) ensures v in StaleVersions(rows, t.asOf, t.window) {
      var id :| || (id in t.failed && t.failed[id].spec.version == v)
                || (id in t.parked && t.parked[id].spec.version == v);
      assert id in rows && Stale(rows[id], t.asOf, t.window);
    }
  }

  lemma ReapCommitRefines(e: Env, f: Fine, tx: nat)
    requires FineInv(e, f) && FineEnabled(e, f, ReapCommit(tx))
    ensures var t := f.txns[tx];
            && Enabled(e, f.sys, Reap(t.window, t.asOf))
            && FineApply(e, f, ReapCommit(tx)).sys == Apply(e, f.sys, Reap(t.window, t.asOf))
  {
    hide ReapWrites, ReapVersions, StaleVersions, ReapInto, Accounted, Matches, Holds;
    var t, rows := f.txns[tx], f.sys.table.rows;
    assert TxnOk(e, f.sys, t);
    ReapWritesAreReap(rows, t);
    SameReap(f.sys.table, t.asOf, t.window);
  }

  lemma SameReap(t: Table, asOf: int, window: int)
    ensures ReapInto(t, asOf, window, asOf) == t.(rows := ReapInto(Table(t.rows, 0), asOf, window, asOf).rows)
  {
  }

  /** The atomic step a fine step stands for, if it is visible at all. */
  function Visible(f: Fine, step: FineStep): Option<Step> {
    match step
    case Plain(p) => Some(p)
    case FinishMiss(i, status, error) => Some(Finish(i, status, error))
    case FinishCommit(tx, status, error) =>
      if tx in f.txns && f.txns[tx].FinishTxn? then Some(Finish(f.txns[tx].run, status, error)) else None
    case ReapCommit(tx) =>
      if tx in f.txns && f.txns[tx].ReapTxn? then Some(Reap(f.txns[tx].window, f.txns[tx].asOf)) else None
    case Abort(tx) =>
      if tx in f.txns && f.txns[tx].FinishTxn? then Some(Abandon(f.txns[tx].run)) else None
    case _ => None
  }

  lemma StepRefines(e: Env, f: Fine, step: FineStep)
    requires FineInv(e, f) && FineEnabled(e, f, step)
    ensures var s' := FineApply(e, f, step).sys;
            match Visible(f, step)
            case Some(p) => Enabled(e, f.sys, p) && s' == Apply(e, f.sys, p)
            case None => s' == f.sys
  {
    hide FineInv, TxnOk, ReapWrites, ReapVersions, LockOne, RowLocks.Candidates, FinishRow, ReapInto, StaleVersions;
    match step
    case FinishCommit(tx, status, error) => FinishCommitRefines(e, f, tx, status, error);
    case ReapCommit(tx) => ReapCommitRefines(e, f, tx);
    case _ =>
  }

  // ---------- every step keeps the invariant of the open transactions ----------

  /** Transactions other than `gone` survive a visible step. */
  lemma OthersSurvive(e: Env, f: Fine, p: Step, x: nat)
    requires FineInv(e, f) && x in f.txns && Enabled(e, f.sys, p)
    requires forall id | id in Locks(f.txns[x]) && id in f.sys.table.rows ::
               id in Apply(e, f.sys, p).table.rows && Apply(e, f.sys, p).table.rows[id] == f.sys.table.rows[id]
    requires f.txns[x].FinishTxn? && (p.Abandon? || p.Finish?) ==> p.run != f.txns[x].run
    ensures TxnOk(e, Apply(e, f.sys, p), f.txns[x])
  {
    hide Enabled, Apply, Accounted, Shrinks, FinishMatches;
    var t, s, s' := f.txns[x], f.sys, Apply(e, f.sys, p);
    assert TxnOk(e, s, t);
    ClockRuns(e, s, p);
    match t {
      case FinishTxn(i, _, _) => StepFramesRun(e, s, p, i);
      case ReapTxn(window, asOf, _, _, _, _) => StepShrinks(e, s, p, asOf, window);
    }
    TxnSurvives(e, s, s', t);
  }

  lemma ClockRuns(e: Env, s: Sys, p: Step)
    requires Enabled(e, s, p)
    ensures s.now <= Apply(e, s, p).now
  {
  }

  lemma PlainKeeps(e: Env, f: Fine, p: Step)
    requires FineInv(e, f) && TableInv(f.sys.table) && FineEnabled(e, f, Plain(p))
    ensures FineInv(e, FineApply(e, f, Plain(p)))
  {
    hide TxnOk, Apply, TableInv, Enabled, Touches;
    forall x | x in f.txns ensures TxnOk(e, Apply(e, f.sys, p), f.txns[x]) {
      forall id | id in Locks(f.txns[x]) && id in f.sys.table.rows
        ensures id in Apply(e, f.sys, p).table.rows && Apply(e, f.sys, p).table.rows[id] == f.sys.table.rows[id]
      {
        StepFrames(e, f.sys, p, id);
      }
      OthersSurvive(e, f, p, x);
    }
  }

  /** Two finish transactions of one run would hold the same row. */
  lemma OneFinishPerRun(e: Env, f: Fine, x: nat, y: nat)
    requires FineInv(e, f) && x in f.txns && y in f.txns && x != y && f.txns[x].FinishTxn? && f.txns[y].FinishTxn?
    ensures f.txns[x].run != f.txns[y].run
  {
    assert TxnOk(e, f.sys, f.txns[x]) && TxnOk(e, f.sys, f.txns[y]);
    assert f.txns[x].row in Locks(f.txns[x]) && f.txns[y].row in Locks(f.txns[y]);
  }

  lemma EndingKeeps(e: Env, f: Fine, step: FineStep)
    requires FineInv(e, f) && FineEnabled(e, f, step)
    requires step.FinishMiss? || step.FinishCommit? || step.ReapCommit? || step.Abort?
    ensures FineInv(e, FineApply(e, f, step))
  {
    StepRefines(e, f, step);
    var f' := FineApply(e, f, step);
    forall x | x in f'.txns ensures TxnOk(e, f'.sys, f'.txns[x]) {
      EndingKeepsOther(e, f, step, x);
    }
  }

  lemma EndingKeepsOther(e: Env, f: Fine, step: FineStep, x: nat)
    requires FineInv(e, f) && FineEnabled(e, f, step) && x in FineApply(e, f, step).txns
    requires step.FinishMiss? || step.FinishCommit? || step.ReapCommit? || step.Abort?
    ensures TxnOk(e, FineApply(e, f, step).sys, f.txns[x])
  {
    hide TxnOk, Apply, Enabled, FinishRow;
    StepRefines(e, f, step);
    var s' := FineApply(e, f, step).sys;
    match step
    case FinishMiss(i, status, error) =>
      OthersSurvive(e, f, Finish(i, status, error), x);
    case FinishCommit(tx, status, error) =>
      if f.txns[x].FinishTxn? { OneFinishPerRun(e, f, tx, x); }
      assert f.txns[tx].row in Locks(f.txns[tx]);
      OthersSurvive(e, f, Finish(f.txns[tx].run, status, error), x);
    case ReapCommit(tx) =>
      assert ReapWrites(f.txns[tx]).Keys == Locks(f.txns[tx]);
      OthersSurvive(e, f, Reap(f.txns[tx].window, f.txns[tx].asOf), x);
    case Abort(tx) =>
      if f.txns[tx].FinishTxn? {
        if f.txns[x].FinishTxn? { OneFinishPerRun(e, f, tx, x); }
        OthersSurvive(e, f, Abandon(f.txns[tx].run), x);
      } else {
        assert TxnOk(e, f.sys, f.txns[x]);
      }
  }

  /** Opening or advancing one transaction. */
  lemma TxnStepKeeps(e: Env, f: Fine, tx: nat, t': Txn)
    requires FineInv(e, f) && TxnOk(e, f.sys, t')
    requires forall x | x in f.txns && x != tx :: Locks(f.txns[x]) !! Locks(t')
    ensures FineInv(e, f.(txns := f.txns[tx := t']))
  {
    hide TxnOk;
  }

  lemma OpeningKeeps(e: Env, f: Fine, step: FineStep)
    requires FineInv(e, f) && FineEnabled(e, f, step) && (step.FinishLock? || step.ReapBegin?)
    ensures FineInv(e, FineApply(e, f, step))
  {
    hide FineInv, Stale, Enabled;
    TxnStepKeeps(e, f, step.tx, FineApply(e, f, step).txns[step.tx]);
  }

  lemma ReapLockKeepsOk(e: Env, s: Sys, t: Txn, id: nat)
    requires TxnOk(e, s, t) && t.ReapTxn?
    ensures TxnOk(e, s, LockOne(t, s.table.rows, id))
    ensures Locks(LockOne(t, s.table.rows, id)) <= Locks(t) + {id}
  {
    hide Stale;
  }

  lemma ReapSelectKeepsOk(e: Env, s: Sys, t: Txn)
    requires TxnOk(e, s, t) && t.ReapTxn? && !t.selecting && t.todo == {}
    ensures TxnOk(e, s, t.(selecting := true,
                           todo := RowLocks.Candidates(s.table.rows, t.asOf, t.window, true) - t.failed.Keys))
  {
    hide Stale;
  }

  lemma AdvancingKeeps(e: Env, f: Fine, step: FineStep)
    requires FineInv(e, f) && FineEnabled(e, f, step) && (step.ReapLock? || step.ReapSelect?)
    ensures FineInv(e, FineApply(e, f, step))
  {
    hide TxnOk, LockOne, RowLocks.Candidates;
    var t := f.txns[step.tx];
    match step {
      case ReapLock(tx, id) => ReapLockKeepsOk(e, f.sys, t, id);
      case ReapSelect(tx) => ReapSelectKeepsOk(e, f.sys, t);
    }
    TxnStepKeeps(e, f, step.tx, FineApply(e, f, step).txns[step.tx]);
  }

  lemma FineStepKeeps(e: Env, f: Fine, step: FineStep)
    requires FineInv(e, f) && TableInv(f.sys.table) && FineEnabled(e, f, step)
    ensures FineInv(e, FineApply(e, f, step))
  {
    hide FineInv, FineEnabled, FineApply, TableInv;
    match step
    case Plain(p) => PlainKeeps(e, f, p);
    case FinishLock(_, _) => OpeningKeeps(e, f, step);
    case ReapBegin(_, _) => OpeningKeeps(e, f, step);
    case ReapLock(_, _) => AdvancingKeeps(e, f, step);
    case ReapSelect(_) => AdvancingKeeps(e, f, step);
    case _ => EndingKeeps(e, f, step);
  }

  /** While a finish holds a client's row, an upsert of that client waits; and what the
      commit leaves is not RUNNING and still carries the newest version read. So an
      upsert is either seen as parked or meets a row it overwrites directly. */
  lemma UpsertWaitsForFinish(e: Env, f: Fine, tx: nat, c: string, spec: Spec, status: Status, error: Option<string>)
    requires FineInv(e, f) && TableInv(f.sys.table) && tx in f.txns && f.txns[tx].FinishTxn?
    requires f.txns[tx].read.clientId == Some(c)
    ensures !FineEnabled(e, f, Plain(Upsert(c, spec)))
    ensures FineEnabled(e, f, FinishCommit(tx, status, error)) ==>
              var row := FineApply(e, f, FinishCommit(tx, status, error)).sys.table.rows[f.txns[tx].row];
              row.status != Running && Newest(row) == Newest(f.sys.table.rows[f.txns[tx].row])
  {
    hide Shape, Accounted, Enabled;
    assert TxnOk(e, f.sys, f.txns[tx]);
    ConflictIsUnique(f.sys.table.rows, f.txns[tx].row);
    assert Touches(f.sys, Upsert(c, spec), f.txns[tx].row);
    if FineEnabled(e, f, FinishCommit(tx, status, error)) {
      StatusOfFinish(e, f.sys, f.txns[tx].run, status, error);
    }
  }

  lemma StatusOfFinish(e: Env, s: Sys, i: nat, status: Status, error: Option<string>)
    requires Enabled(e, s, Finish(i, status, error))
    ensures status in {Completed, Failed}
  {
  }

  // ---------- refinement ----------

  ghost predicate FineExecution(e: Env, states: seq<Fine>, steps: seq<FineStep>) {
    && |states| == |steps| + 1
    && states[0] == Fine(START, map[])
    && forall k {:trigger steps[k]} | 0 <= k < |steps| ::
         FineEnabled(e, states[k], steps[k]) && states[k + 1] == FineApply(e, states[k], steps[k])
  }

  /** Every state of every execution with row locks is a state of an atomic execution, so
      all its guarantees hold: nothing is lost, nothing runs twice or overlaps. */
  lemma {:induction false} RowLocksRefineAtomic(e: Env, states: seq<Fine>, steps: seq<FineStep>, k: nat)
    requires FineExecution(e, states, steps) && k < |states|
    ensures Reachable(e, states[k].sys) && FineInv(e, states[k])
  {
    hide Reachable, FineEnabled, FineApply;
    if k == 0 {
      StartReachable(e);
    } else {
      hide FineInv;
      RowLocksRefineAtomic(e, states, steps, k - 1);
      var f, step := states[k - 1], steps[k - 1];
      ReachableKeeps(e, f.sys);
      FineStepKeeps(e, f, step);
      StepRefines(e, f, step);
      match Visible(f, step)
      case Some(p) => StepReachable(e, f.sys, p);
      case None =>
    }
  }

  /** In particular, with finishes and reapers interleaved at the granularity of locks,
      the last version written to a row is still its parked or its own version, no
      version runs twice, and with safe timing no row has two live children. */
  lemma NoUpdateLost(e: Env, states: seq<Fine>, steps: seq<FineStep>, k: nat, id: nat)
    requires FineExecution(e, states, steps) && k < |states| && id in states[k].sys.table.rows
    ensures var s := states[k].sys;
            && LastWrite(s.log, id) == Some(Newest(s.table.rows[id]))
            && (forall i, j | 0 <= i < j < |s.runs| :: s.runs[i].version != s.runs[j].version)
            && (e.minDefault <= e.maxDefault && SafeTiming(e) ==> Apart(s.runs))
  {
    hide FineExecution, Reachable, LastWrite, Apart, SafeTiming;
    RowLocksRefineAtomic(e, states, steps, k);
    NoVersionLost(e, states[k].sys, id);
    AtMostOncePerVersion(e, states[k].sys);
    if e.minDefault <= e.maxDefault && SafeTiming(e) {
      NoOverlapIffSafeTiming(e);
    }
  }
}

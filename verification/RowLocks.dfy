/** The protocol with row locks. `_finish_one_off` is a locking read and, later, a write and
    commit; the reaper is two statements in one transaction, each locking its rows one
    at a time and checking its `WHERE` clause again once it has the lock (READ
    COMMITTED). Other transactions hold one row for one step. Writes of an open
    transaction are invisible until it commits. */
module RowLocks {
  import opened Wrappers
  import opened Tasks
  import opened TaskTable
  import opened Protocol

  /** An open transaction: what it has read of the rows it holds, and for the reaper the
      candidates its current statement has not looked at yet. */
  datatype Txn =
    | FinishTxn(run: nat, row: nat, read: Row)
    | ReapTxn(window: int, asOf: int, selecting: bool, todo: set<nat>, failed: map<nat, Row>, parked: map<nat, Row>)

  datatype Fine = Fine(sys: Sys, txns: map<nat, Txn>)

  datatype FineStep =
    | Plain(step: Step)
    | FinishLock(tx: nat, run: nat)
    | FinishMiss(run: nat, status: Status, error: Option<string>)
    | FinishCommit(tx: nat, status: Status, error: Option<string>)
    | ReapBegin(tx: nat, window: int)
    | ReapLock(tx: nat, id: nat)
    | ReapSelect(tx: nat)
    | ReapCommit(tx: nat)
    | Abort(tx: nat)

  function Locks(t: Txn): set<nat> {
    match t
    case FinishTxn(_, row, _) => {row}
    case ReapTxn(_, _, _, _, failed, parked) => failed.Keys + parked.Keys
  }

  predicate Unlocked(txns: map<nat, Txn>, id: nat) {
    forall x | x in txns :: id !in Locks(txns[x])
  }

  /** The run has no finish transaction open. */
  predicate Idle(txns: map<nat, Txn>, run: nat) {
    forall x | x in txns && txns[x].FinishTxn? :: txns[x].run != run
  }

  /** The rows a one-step transaction locks. */
  ghost predicate Touches(s: Sys, step: Step, id: nat) {
    match step
    case Upsert(c, _) => Conflict(s.table.rows, Some(c)) == Some(id)
    case Claim(_, k, _) => id == k
    case Cancel(k) => id == k
    case Clear(status, before) => id in s.table.rows && Clears(s.table.rows[id], status, before)
    case ClearAll => id in s.table.rows
    case _ => false
  }

  /** The `WHERE` clauses of the reaper's two statements. */
  predicate Matches(row: Row, asOf: int, window: int, selecting: bool) {
    Stale(row, asOf, window) && (selecting <==> row.requeue.Some?)
  }

  function Candidates(rows: map<nat, Row>, asOf: int, window: int, selecting: bool): set<nat> {
    set id | id in rows && Matches(rows[id], asOf, window, selecting)
  }

  ghost predicate FineEnabled(e: Env, f: Fine, step: FineStep) {
    var s := f.sys;
    match step
    case Plain(p) =>
      && Enabled(e, s, p) && !p.Finish? && !p.Reap?
      && (forall id | Touches(s, p, id) :: Unlocked(f.txns, id))
      && (p.Abandon? ==> Idle(f.txns, p.run))
    case FinishLock(tx, i) =>
      && tx !in f.txns && i < |s.runs| && s.runs[i].duty == Watching && Over(s.runs[i].child) && Idle(f.txns, i)
      && FinishMatches(s.table, s.runs[i].row, s.runs[i].token) && Unlocked(f.txns, s.runs[i].row)
    case FinishMiss(i, status, error) =>
      && Enabled(e, s, Finish(i, status, error)) && Idle(f.txns, i)
      && !FinishMatches(s.table, s.runs[i].row, s.runs[i].token)
    case FinishCommit(tx, status, error) =>
      && tx in f.txns && f.txns[tx].FinishTxn? && f.txns[tx].run < |s.runs|
      && Enabled(e, s, Finish(f.txns[tx].run, status, error))
    case ReapBegin(tx, window) => tx !in f.txns && e.threshold <= window
    case ReapLock(tx, id) =>
      tx in f.txns && f.txns[tx].ReapTxn? && id in f.txns[tx].todo && Unlocked(f.txns, id)
    case ReapSelect(tx) => tx in f.txns && f.txns[tx].ReapTxn? && !f.txns[tx].selecting && f.txns[tx].todo == {}
    case ReapCommit(tx) => tx in f.txns && f.txns[tx].ReapTxn? && f.txns[tx].selecting && f.txns[tx].todo == {}
    case Abort(tx) =>
      && tx in f.txns
      && (f.txns[tx].FinishTxn? ==> f.txns[tx].run < |s.runs| && s.runs[f.txns[tx].run].duty == Watching)
  }

  /** The reaper looks at its next candidate: hold it if it still matches, else skip it. */
  function LockOne(t: Txn, rows: map<nat, Row>, id: nat): Txn
    requires t.ReapTxn?
  {
    var rest := t.(todo := t.todo - {id});
    if id !in rows || !Matches(rows[id], t.asOf, t.window, t.selecting) then rest
    else if t.selecting then rest.(parked := t.parked[id := rows[id]])
    else rest.(failed := t.failed[id := rows[id]])
  }

  /** The commit writes what the transaction computed from its own reads. */
  function ReapWrites(t: Txn): map<nat, Row>
    requires t.ReapTxn?
  {
    (map id | id in t.failed :: FailReaped(t.failed[id], t.asOf))
    + (map id | id in t.parked :: if t.parked[id].requeue.Some? then Requeued(t.parked[id]) else t.parked[id])
  }

  function ReapVersions(t: Txn): set<nat>
    requires t.ReapTxn?
  {
    (set id | id in t.failed :: t.failed[id].spec.version) + (set id | id in t.parked :: t.parked[id].spec.version)
  }

  ghost function FineApply(e: Env, f: Fine, step: FineStep): Fine
    requires FineEnabled(e, f, step)
  {
    var s := f.sys;
    match step
    case Plain(p) => f.(sys := Apply(e, s, p))
    case FinishLock(tx, i) =>
      f.(txns := f.txns[tx := FinishTxn(i, s.runs[i].row, s.table.rows[s.runs[i].row])])
    case FinishMiss(i, status, error) => f.(sys := SetDuty(s, i, Finished))
    case FinishCommit(tx, status, error) =>
      var t := f.txns[tx];
      var rows := s.table.rows[t.row := FinishRow(t.read, status, error, s.now)];
      Fine(SetDuty(s.(table := s.table.(rows := rows), verdicts := s.verdicts + multiset{s.runs[t.run].version}),
                   t.run, Finished),
           f.txns - {tx})
    case ReapBegin(tx, window) =>
      var todo := Candidates(s.table.rows, s.now, window, false);
      f.(txns := f.txns[tx := ReapTxn(window, s.now, false, todo, map[], map[])])
    case ReapLock(tx, id) => f.(txns := f.txns[tx := LockOne(f.txns[tx], s.table.rows, id)])
    case ReapSelect(tx) =>
      var t := f.txns[tx];
      f.(txns := f.txns[tx := t.(selecting := true,
                                 todo := Candidates(s.table.rows, t.asOf, t.window, true) - t.failed.Keys)])
    case ReapCommit(tx) =>
      var t := f.txns[tx];
      Fine(s.(table := s.table.(rows := s.table.rows + ReapWrites(t)),
              verdicts := s.verdicts + multiset(ReapVersions(t))),
           f.txns - {tx})
    case Abort(tx) =>
      Fine(if f.txns[tx].FinishTxn? then SetDuty(s, f.txns[tx].run, Abandoned) else s, f.txns - {tx})
  }

  // ---------- what holds of every open transaction ----------

  /** What was read under a lock is still what is stored. */
  predicate Holds(rows: map<nat, Row>, held: map<nat, Row>) {
    forall id | id in held :: id in rows && rows[id] == held[id]
  }

  /** Every row stale at the cutoff is held, or will still be looked at. */
  predicate Accounted(rows: map<nat, Row>, t: Txn)
    requires t.ReapTxn?
  {
    forall id | id in rows && Stale(rows[id], t.asOf, t.window) ::
      || id in t.failed
      || id in t.parked
      || (rows[id].requeue.Some? && (t.selecting ==> id in t.todo))
      || (!t.selecting && id in t.todo)
  }

  predicate TxnOk(e: Env, s: Sys, t: Txn) {
    match t
    case FinishTxn(i, row, read) =>
      && i < |s.runs| && s.runs[i].duty == Watching && Over(s.runs[i].child) && s.runs[i].row == row
      && FinishMatches(s.table, row, s.runs[i].token) && s.table.rows[row] == read
    case ReapTxn(window, asOf, selecting, todo, failed, parked) =>
      && e.threshold <= window && asOf <= s.now
      && Holds(s.table.rows, failed) && Holds(s.table.rows, parked)
      && (forall id | id in failed :: Matches(failed[id], asOf, window, false))
      && (forall id | id in parked :: Matches(parked[id], asOf, window, true))
      && Accounted(s.table.rows, t)
  }

  predicate FineInv(e: Env, f: Fine) {
    && (forall x | x in f.txns :: TxnOk(e, f.sys, f.txns[x]))
    && (forall x, y | x in f.txns && y in f.txns && x != y :: Locks(f.txns[x]) !! Locks(f.txns[y]))
  }
}

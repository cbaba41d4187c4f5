/** The one-off task protocol: any number of clients, workers and reapers, each
    transaction one step, interleaved with process events and the clock. */
module Protocol {
  import opened Wrappers
  import opened Tasks
  import opened TaskTable

  /** The forked process of a run. `SIGALRM` ends a live child at `dieBy` at the latest,
      if an alarm is set. `NoStart` is a claim whose handler could not be resolved
      or whose fork failed: it never has a child. */
  datatype Child = NotForked | NoStart | Alive(dieBy: Option<int>) | Dead(ok: bool)

  /** What the worker that claimed the run did about its end: it still watches, it has
      called `_finish_one_off` and the transaction committed, or it will never do
      so (it crashed, or its write failed). */
  datatype Duty = Watching | Finished | Abandoned

  /** One claim of a row, with the `started_at` it wrote, the version it read, the columns it
      hands to the child and the wall-clock budget it gives it. */
  datatype Run = Run(worker: nat, row: nat, token: int, version: nat, spec: Spec, budget: int, child: Child,
                     duty: Duty)

  /** `log[v]` is the row that the write of version `v` went to; versions are numbered in
      the order of the writes, and `written[v]` are the columns of that write. `runs`
      lists the claims in their order, and `verdicts` the versions whose run had an
      end recorded on the row, by its worker or by the reaper. These are history. */
  datatype Sys = Sys(table: Table, now: int, log: seq<nat>, written: seq<Spec>, runs: seq<Run>,
                     verdicts: multiset<nat>)

  /** `delay` bounds the time from a claim to its child's `signal.alarm`; every reaper uses
      at least `threshold`; the default budgets of the workers, which nothing
      validates, lie between `minDefault` and `maxDefault`. */
  datatype Env = Env(delay: nat, threshold: nat, minDefault: int, maxDefault: int)

  datatype Step =
    | Enqueue(clientId: Option<string>, spec: Spec)
    | Upsert(client: string, spec: Spec)
    | Claim(worker: nat, id: nat, workerDefault: int)
    | Fork(run: nat)
    | ForkFailed(run: nat)
    | Exit(run: nat, ok: bool)
    | Finish(run: nat, status: Status, error: Option<string>)
    | Abandon(run: nat)
    | Reap(reapThreshold: int, asOf: int)
    | Cancel(id: nat)
    | Clear(cleared: Status, before: Option<int>)
    | ClearAll
    | Tick(to: int)

  const START := Sys(EMPTY, 0, [], [], [], multiset{})

  predicate Starting(r: Run) {
    r.child == NotForked && r.duty == Watching
  }

  /** The run has or had a child. */
  predicate Forked(c: Child) {
    c.Alive? || c.Dead?
  }

  /** There is an outcome to report. */
  predicate Over(c: Child) {
    c.Dead? || c.NoStart?
  }

  /** The run has, or may still get, a live child. */
  predicate Live(r: Run) {
    Starting(r) || r.child.Alive?
  }

  predicate Enabled(e: Env, s: Sys, step: Step) {
    match step
    case Enqueue(c, spec) => EnqueueError(s.table, c, spec) == None
    case Upsert(_, spec) => ValidBudget(spec.maxRuntime)
    case Claim(_, id, d) =>
      id in s.table.rows && Claimable(s.table.rows[id], s.now, {}) && e.minDefault <= d <= e.maxDefault
    case Fork(i) => i < |s.runs| && Starting(s.runs[i])
    case ForkFailed(i) => i < |s.runs| && Starting(s.runs[i])
    case Exit(i, _) => i < |s.runs| && s.runs[i].child.Alive?
    case Finish(i, status, error) =>
      && i < |s.runs| && s.runs[i].duty == Watching && Over(s.runs[i].child)
      && status == (if s.runs[i].child == Dead(true) then Completed else Failed)
      && (status == Completed ==> error.None?)
    case Abandon(i) => i < |s.runs| && s.runs[i].duty == Watching
    case Reap(threshold, asOf) => e.threshold <= threshold && asOf <= s.now
    case Cancel(_) => true
    case Clear(status, _) => status in {Completed, Failed}
    case ClearAll => true
    case Tick(to) =>
      && s.now <= to
      && forall r | r in s.runs ::
           && (Starting(r) ==> to <= r.token + e.delay)
           && (r.child.Alive? && r.child.dieBy.Some? ==> to <= r.child.dieBy.value)
  }

  function Apply(e: Env, s: Sys, step: Step): Sys
    requires Enabled(e, s, step)
  {
    match step
    case Enqueue(c, spec) =>
      var labelled := spec.(version := |s.log|);
      s.(table := InsertInto(s.table, c, labelled, s.now), log := s.log + [s.table.nextId],
         written := s.written + [labelled])
    case Upsert(c, spec) =>
      var labelled := spec.(version := |s.log|);
      s.(table := UpsertInto(s.table, c, labelled, s.now), log := s.log + [UpsertId(s.table, c)],
         written := s.written + [labelled])
    case Claim(w, id, d) =>
      s.(table := ClaimInto(s.table, id, s.now), runs := s.runs + [NewRun(s, w, id, d)])
    case Fork(i) => SetChild(s, i, Alive(DieBy(s.now, s.runs[i].budget)))
    case ForkFailed(i) => SetChild(s, i, NoStart)
    case Exit(i, ok) => SetChild(s, i, Dead(ok))
    case Finish(i, status, error) =>
      var r := s.runs[i];
      SetDuty(s.(table := FinishInto(s.table, r.row, r.token, status, error, s.now),
                 verdicts := if FinishMatches(s.table, r.row, r.token) then s.verdicts + multiset{r.version}
                             else s.verdicts),
              i, Finished)
    case Abandon(i) => SetDuty(s, i, Abandoned)
    case Reap(threshold, asOf) =>
      s.(table := ReapInto(s.table, asOf, threshold, asOf),
         verdicts := s.verdicts + multiset(StaleVersions(s.table.rows, asOf, threshold)))
    case Cancel(id) => s.(table := CancelInto(s.table, id))
    case Clear(status, before) => s.(table := ClearInto(s.table, status, before))
    case ClearAll => s.(table := s.table.(rows := map[]))
    case Tick(to) => s.(now := to)
  }

  function DieBy(now: int, budget: int): Option<int> {
    var alarm := Alarm(budget);
    if alarm.Some? then Some(now + alarm.value) else None
  }

  function NewRun(s: Sys, worker: nat, id: nat, workerDefault: int): Run
    requires id in s.table.rows
  {
    var spec := s.table.rows[id].spec;
    Run(worker, id, s.now, spec.version, spec, EffectiveRuntime(spec, workerDefault), NotForked, Watching)
  }

  function SetChild(s: Sys, i: nat, c: Child): Sys
    requires i < |s.runs|
  {
    s.(runs := s.runs[i := s.runs[i].(child := c)])
  }

  function SetDuty(s: Sys, i: nat, d: Duty): Sys
    requires i < |s.runs|
  {
    s.(runs := s.runs[i := s.runs[i].(duty := d)])
  }

  function StaleVersions(rows: map<nat, Row>, asOf: int, threshold: int): set<nat> {
    set id | id in rows && Stale(rows[id], asOf, threshold) :: rows[id].spec.version
  }

  /** The states of a finite execution. */
  ghost predicate Execution(e: Env, states: seq<Sys>, steps: seq<Step>) {
    && |states| == |steps| + 1
    && states[0] == START
    && forall k {:trigger steps[k]} | 0 <= k < |steps| ::
         Enabled(e, states[k], steps[k]) && states[k + 1] == Apply(e, states[k], steps[k])
  }

  ghost predicate Reachable(e: Env, s: Sys) {
    exists states, steps :: Execution(e, states, steps) && states[|steps|] == s
  }

  // ---------- the invariant, one conjunct per aspect ----------

  /** The last write that went to row `id`: the reference for what must not be lost. */
  function LastWrite(log: seq<nat>, id: nat): (r: Option<nat>)
    ensures r.Some? ==> r.value < |log| && log[r.value] == id
    ensures forall v | 0 <= v < |log| && log[v] == id :: r.Some? && v <= r.value
  {
    if log == [] then None
    else if log[|log| - 1] == id then Some(|log| - 1)
    else LastWrite(log[..|log| - 1], id)
  }

  /** The version a row will run next, or is running if nothing is parked. */
  function Newest(row: Row): nat {
    if row.requeue.Some? then row.requeue.value.version else row.spec.version
  }

  predicate RowLogged(row: Row, log: seq<nat>, id: nat) {
    && LastWrite(log, id) == Some(Newest(row))
    && row.spec.version < |log| && log[row.spec.version] == id
    && (row.requeue.Some? ==> row.spec.version < row.requeue.value.version)
  }

  predicate LogOk(t: Table, log: seq<nat>) {
    && (forall id | id in t.rows :: RowLogged(t.rows[id], log, id))
    && (forall v | 0 <= v < |log| :: log[v] < t.nextId)
  }

  predicate RunLogged(r: Run, rows: map<nat, Row>, log: seq<nat>, now: int) {
    && r.version < |log| && log[r.version] == r.row && r.token <= now
    && (r.row in rows ==> r.version <= rows[r.row].spec.version
                          && (rows[r.row].status == Pending ==> r.version < rows[r.row].spec.version))
  }

  predicate RunsOk(runs: seq<Run>, rows: map<nat, Row>, log: seq<nat>, now: int) {
    forall i | 0 <= i < |runs| :: RunLogged(runs[i], rows, log, now)
  }

  /** Claims of one row are in version order, and as long as the earlier run may still
      report, the later one has a larger token. */
  predicate RunsOrdered(runs: seq<Run>) {
    forall i, j | 0 <= i < j < |runs| && runs[i].row == runs[j].row ::
      runs[i].version < runs[j].version && (runs[i].duty == Watching ==> runs[i].token < runs[j].token)
  }

  /** The row is RUNNING this very run. */
  predicate Current(r: Run, rows: map<nat, Row>) {
    && r.row in rows && rows[r.row].status == Running
    && rows[r.row].spec.version == r.version && rows[r.row].startedAt == Some(r.token)
  }

  /** `r` is the run that a row which is no longer PENDING tells about. */
  predicate Backs(r: Run, row: Row) {
    && r.version == row.spec.version
    && (row.status == Running ==> row.startedAt == Some(r.token) && r.duty != Finished)
    && (row.status == Completed ==> r.child == Dead(true))
  }

  predicate Backed(runs: seq<Run>, rows: map<nat, Row>) {
    forall id | id in rows && rows[id].status != Pending :: exists i :: 0 <= i < |runs| && Backs(runs[i], rows[id])
  }

  /** A run that may still report is either the one on its row, or older than now. */
  predicate WatchOk(runs: seq<Run>, rows: map<nat, Row>, now: int) {
    forall i | 0 <= i < |runs| && runs[i].duty == Watching && runs[i].row in rows ::
      Current(runs[i], rows) || runs[i].token < now
  }

  predicate HasRun(runs: seq<Run>, v: nat) {
    exists i :: 0 <= i < |runs| && runs[i].version == v
  }

  predicate VerdictsOk(verdicts: multiset<nat>, runs: seq<Run>, rows: map<nat, Row>, log: seq<nat>) {
    forall v | v in verdicts ::
      && verdicts[v] == 1 && HasRun(runs, v) && v < |log|
      && (log[v] in rows && rows[log[v]].spec.version == v ==> rows[log[v]].status in {Completed, Failed})
  }

  predicate Inv(s: Sys) {
    && TableInv(s.table)
    && LogOk(s.table, s.log)
    && RunsOk(s.runs, s.table.rows, s.log, s.now)
    && RunsOrdered(s.runs)
    && Backed(s.runs, s.table.rows)
    && WatchOk(s.runs, s.table.rows, s.now)
    && VerdictsOk(s.verdicts, s.runs, s.table.rows, s.log)
  }
}

/** One row of `pq_tasks` and what each statement does to it.

    Times and durations are integer microseconds (the resolution of both
    `datetime` and `timestamptz`). Names and payloads are opaque. */
module Tasks {
  import opened Wrappers

  datatype Status = Pending | Running | Completed | Failed

  const SECOND: int := 1_000_000

  /** The columns one `enqueue()` or `upsert()` call supplies, which are also
      the keys of a parked `requeue` document. `version` is a label of the model:
      it says which call wrote these values. No operation looks at it. */
  datatype Spec = Spec(name: string, payload: string, priority: int, runAt: int,
                       maxRuntime: Option<int>, version: nat)

  datatype Row = Row(clientId: Option<string>, createdAt: int, spec: Spec, status: Status, attempts: int,
                     startedAt: Option<int>, completedAt: Option<int>, error: Option<string>,
                     requeue: Option<Spec>)

  /** `_validate_max_runtime`: a per-task budget is absent or positive. */
  predicate ValidBudget(m: Option<int>) {
    m.Some? ==> 0 < m.value
  }

  /** The row a plain `INSERT` creates. */
  function Fresh(clientId: Option<string>, createdAt: int, s: Spec): Row {
    Row(clientId, createdAt, s, Pending, 0, None, None, None, None)
  }

  /** One `CASE WHEN status = RUNNING THEN column ELSE value END`. */
  function UnlessRunning<T>(row: Row, value: T, column: T): T {
    if row.status == Running then column else value
  }

  /** The `SET` list of `ON CONFLICT (client_id) DO UPDATE`, column by column. */
  function UpsertRow(row: Row, s: Spec): Row {
    Row(row.clientId,
        row.createdAt,
        Spec(UnlessRunning(row, s.name, row.spec.name),
             UnlessRunning(row, s.payload, row.spec.payload),
             UnlessRunning(row, s.priority, row.spec.priority),
             UnlessRunning(row, s.runAt, row.spec.runAt),
             UnlessRunning(row, s.maxRuntime, row.spec.maxRuntime),
             UnlessRunning(row, s.version, row.spec.version)),
        UnlessRunning(row, Pending, row.status),
        UnlessRunning(row, 0, row.attempts),
        UnlessRunning(row, None, row.startedAt),
        UnlessRunning(row, None, row.completedAt),
        UnlessRunning(row, None, row.error),
        if row.status == Running then Some(s) else None)
  }

  /** What a claim writes. */
  function ClaimRow(row: Row, token: int): Row {
    row.(status := Running, startedAt := Some(token), attempts := row.attempts + 1)
  }

  /** The wall-clock ceiling of a run: the row's own budget, else the worker's default. */
  function EffectiveRuntime(s: Spec, workerDefault: int): int {
    if s.maxRuntime.Some? then s.maxRuntime.value else workerDefault
  }

  /** `int(t)` of a number of seconds truncates towards zero. */
  function WholeSeconds(t: int): int {
    if 0 <= t then t / SECOND else -(-t / SECOND)
  }

  /** `signal.alarm(int(max_runtime) + 1)`, in microseconds. An argument of 0 cancels the
      alarm, and a negative one is decades away, which counts as none here. */
  function Alarm(budget: int): Option<int> {
    var seconds := WholeSeconds(budget) + 1;
    if 0 < seconds then Some(seconds * SECOND) else None
  }

  /** A worker default of 0, or of a fraction below it, still sets an alarm; one of -1
      second or less sets none. And a larger budget never has an earlier alarm. */
  lemma AlarmFires(budget: int, more: int)
    requires budget <= more
    ensures Alarm(budget).Some? <==> -SECOND < budget
    ensures 0 < budget && Alarm(budget).Some? ==> budget < Alarm(budget).value <= budget + SECOND
    ensures Alarm(budget).Some? ==> SECOND <= Alarm(budget).value && Alarm(more).Some?
                                    && Alarm(budget).value <= Alarm(more).value
  {
  }

  /** Re-queue a row with its parked version: afterwards it is indistinguishable
      from a row just inserted with that version. */
  function Requeued(row: Row): Row
    requires row.requeue.Some?
  {
    Fresh(row.clientId, row.createdAt, row.requeue.value)
  }

  /** The write of `_finish_one_off` once its guard has matched. */
  function FinishRow(row: Row, status: Status, error: Option<string>, at: int): Row {
    if row.requeue.Some? then Requeued(row)
    else row.(status := status, completedAt := Some(at),
              error := if error.Some? && error.value != "" then error else row.error)
  }

  /** `GREATEST(threshold, COALESCE(max_runtime_seconds * 2, threshold))`. */
  function Window(threshold: int, m: Option<int>): int {
    if m.Some? && threshold < m.value * 2 then m.value * 2 else threshold
  }

  /** `status = RUNNING AND started_at < now() - window`. */
  predicate Stale(row: Row, asOf: int, threshold: int) {
    && row.status == Running
    && row.startedAt.Some?
    && row.startedAt.value < asOf - Window(threshold, row.spec.maxRuntime)
  }

  const REAP_ERROR := "Reaped: task still RUNNING past its stale window"

  /** What the reaper's first statement writes to a stale row with nothing parked. */
  function FailReaped(row: Row, at: int): Row {
    row.(status := Failed, completedAt := Some(at), error := Some(REAP_ERROR))
  }

  /** What the reaper leaves behind of a stale row. */
  function ReapRow(row: Row, at: int): Row {
    if row.requeue.Some? then Requeued(row) else FailReaped(row, at)
  }

  /** The shape every committed row has. */
  predicate Shape(row: Row) {
    && ValidBudget(row.spec.maxRuntime)
    && (row.requeue.Some? ==> row.status == Running && ValidBudget(row.requeue.value.maxRuntime))
    && (row.completedAt.Some? <==> row.status in {Completed, Failed})
    && (row.startedAt.None? <==> row.status == Pending)
    && row.attempts == (if row.status == Pending then 0 else 1)
    && (row.error.Some? ==> row.status == Failed)
  }

  /** A row object loaded by the ORM: the fields `apply_requeue` assigns. */
  class Task {
    const clientId: Option<string>
    const createdAt: int
    var name: string
    var payload: string
    var priority: int
    var runAt: int
    var maxRuntime: Option<int>
    var version: nat
    var status: Status
    var attempts: int
    var startedAt: Option<int>
    var completedAt: Option<int>
    var error: Option<string>
    var requeue: Option<Spec>

    /** The row this object stands for. */
    function AsRow(): Row
      reads this
    {
      Row(clientId, createdAt, Spec(name, payload, priority, runAt, maxRuntime, version),
          status, attempts, startedAt, completedAt, error, requeue)
    }

    constructor (row: Row)
      ensures AsRow() == row
    {
      clientId, createdAt := row.clientId, row.createdAt;
      name, payload, priority := row.spec.name, row.spec.payload, row.spec.priority;
      runAt, maxRuntime, version := row.spec.runAt, row.spec.maxRuntime, row.spec.version;
      status, attempts, startedAt := row.status, row.attempts, row.startedAt;
      completedAt, error, requeue := row.completedAt, row.error, row.requeue;
    }

    /** The columns that come from the parked version. */
    method SetSpec(spec: Spec)
      modifies this`name, this`payload, this`priority, this`runAt, this`maxRuntime, this`version
      ensures AsRow() == old(AsRow()).(spec := spec)
    {
      name := spec.name;
      payload := spec.payload;
      priority := spec.priority;
      runAt := spec.runAt;
      maxRuntime := spec.maxRuntime;
      version := spec.version;
    }

    /** `Task.apply_requeue`; `ok` is false where the source raises `ValueError`. */
    method ApplyRequeue() returns (ok: bool)
      modifies this
      ensures ok == old(requeue.Some?)
      ensures !ok ==> AsRow() == old(AsRow())
      ensures ok ==> AsRow() == Requeued(old(AsRow()))
    {
      if requeue.None? {
        return false;
      }
      var spec := requeue.value;
      SetSpec(spec);
      status := Pending;
      attempts := 0;
      startedAt := None;
      completedAt := None;
      error := None;
      requeue := None;
      return true;
    }
  }

  /** A RUNNING row keeps every column and gains only the parked version; any
      other row becomes a fresh one under its old identity. */
  lemma UpsertParksOrReplaces(row: Row, s: Spec)
    ensures row.status == Running ==> UpsertRow(row, s) == row.(requeue := Some(s))
    ensures row.status != Running ==> UpsertRow(row, s) == Fresh(row.clientId, row.createdAt, s)
  {
  }

  /** The two ways a run can end on its row. */
  datatype End = ByWorker(status: Status, error: Option<string>, at: int) | ByReaper(at: int)

  function EndRun(row: Row, end: End): Row {
    match end
    case ByWorker(status, error, at) => FinishRow(row, status, error, at)
    case ByReaper(at) => ReapRow(row, at)
  }

  function UpsertAll(row: Row, versions: seq<Spec>): Row
    decreases |versions|
  {
    if versions == [] then row else UpsertAll(UpsertRow(row, versions[0]), versions[1..])
  }

  lemma {:induction false} ParkedAll(row: Row, versions: seq<Spec>)
    requires row.status == Running && versions != []
    ensures UpsertAll(row, versions) == row.(requeue := Some(versions[|versions| - 1]))
    decreases |versions|
  {
    if |versions| > 1 {
      ParkedAll(UpsertRow(row, versions[0]), versions[1..]);
    }
  }

  /** Parking equals deferring: any upserts that arrive during a run leave, once the
      run has ended, the row that ending the run first and then applying only
      the last of them would leave. */
  lemma {:induction false} ParkingIsDeferring(row: Row, versions: seq<Spec>, end: End)
    requires row.status == Running && versions != []
    requires end.ByWorker? ==> end.status in {Completed, Failed}
    ensures EndRun(UpsertAll(row, versions), end) == UpsertRow(EndRun(row, end), versions[|versions| - 1])
  {
    ParkedAll(row, versions);
  }

  /** Every statement that writes a row keeps the shape. */
  lemma ShapeKept(row: Row, s: Spec, end: End, token: int)
    requires Shape(row) && ValidBudget(s.maxRuntime)
    requires end.ByWorker? ==> end.status in {Completed, Failed}
    requires end.ByWorker? && end.status == Completed ==> end.error.None?
    ensures Shape(UpsertRow(row, s))
    ensures row.status == Pending ==> Shape(ClaimRow(row, token))
    ensures row.status == Running ==> Shape(EndRun(row, end))
  {
  }
}

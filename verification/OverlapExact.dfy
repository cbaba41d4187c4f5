/** The other half: with timing that does not cover some budget there is an execution in
    which two children of one row are alive at once. And the guarantee per client. */
module OverlapExact {
  import opened Wrappers
  import opened Tasks
  import opened TaskTable
  import opened Protocol
  import opened ProtocolInvariant
  import opened Overlap

  // ---------- per client ----------

  /** The step deletes no RUNNING row. */
  predicate SparesRunning(rows: map<nat, Row>, step: Step) {
    && (step.Cancel? && step.id in rows ==> rows[step.id].status != Running)
    && (step.ClearAll? ==> forall id | id in rows :: rows[id].status != Running)
  }

  predicate LiveRowsExist(runs: seq<Run>, rows: map<nat, Row>) {
    forall r | r in runs && Live(r) :: r.row in rows
  }

  lemma StepKeepsLiveRows(e: Env, s: Sys, step: Step)
    requires Enabled(e, s, step) && SparesRunning(s.table.rows, step)
    requires LiveOk(e, s.runs, s.table.rows, s.now) && LiveRowsExist(s.runs, s.table.rows)
    ensures LiveRowsExist(Apply(e, s, step).runs, Apply(e, s, step).table.rows)
  {
    hide Alarm, Window, Covers, UpsertRow, FinishRow, ReapRow, Stale, EnqueueError;
    var s' := Apply(e, s, step);
    forall j | 0 <= j < |s'.runs| && Live(s'.runs[j]) ensures s'.runs[j].row in s'.table.rows {
      if j < |s.runs| {
        assert Live(s.runs[j]) && s'.runs[j].row == s.runs[j].row;
        assert LiveRun(e, s.runs[j], s.table.rows, s.now) && s.runs[j] in s.runs;
      }
    }
  }

  lemma {:induction false} ExecutionKeepsLiveRows(e: Env, states: seq<Sys>, steps: seq<Step>, k: nat)
    requires Covered(e) && Execution(e, states, steps) && k < |states|
    requires forall j | 0 <= j < k :: SparesRunning(states[j].table.rows, steps[j])
    ensures LiveRowsExist(states[k].runs, states[k].table.rows)
  {
    if k > 0 {
      hide LiveOk, Covered, Enabled, Apply, LiveRowsExist;
      ExecutionKeepsLiveRows(e, states, steps, k - 1);
      ExecutionKeepsLive(e, states, steps, k - 1);
      StepKeepsLiveRows(e, states[k - 1], steps[k - 1]);
    }
  }

  /** One `client_id` does not run twice at the same time, as long as no RUNNING row is
      cancelled or cleared. */
  lemma NoOverlapPerClient(e: Env, states: seq<Sys>, steps: seq<Step>, k: nat, i: nat, j: nat)
    requires Covered(e) && Execution(e, states, steps) && k < |states|
    requires forall n | 0 <= n < k :: SparesRunning(states[n].table.rows, steps[n])
    requires i < j < |states[k].runs| && states[k].runs[i].child.Alive? && states[k].runs[j].child.Alive?
    ensures var s, a, b := states[k], states[k].runs[i].row, states[k].runs[j].row;
            && a in s.table.rows && b in s.table.rows
            && (s.table.rows[a].clientId.Some? ==> s.table.rows[a].clientId != s.table.rows[b].clientId)
  {
    hide Execution, Covered;
    ExecutionKeepsLiveRows(e, states, steps, k);
    ExecutionKeepsLive(e, states, steps, k);
    ExecutionKeeps(e, states, steps, k);
    assert states[k].runs[i] in states[k].runs && states[k].runs[j] in states[k].runs;
  }

  // ---------- uncovered timing lets runs overlap ----------

  const CLIENT := "c"

  function SpecOf(m: Option<int>, v: nat): Spec {
    Spec("task", "{}", 50, 0, m, v)
  }

  /** The only row, while its first run is under way. */
  function RunningRow(m: Option<int>, requeue: Option<Spec>): Row {
    Row(Some(CLIENT), 0, SpecOf(m, 0), Running, 1, Some(0), None, None, requeue)
  }

  function BudgetOf(m: Option<int>, d: int): int {
    if m.Some? then m.value else d
  }

  /** The last moment of the child's life; if no alarm is set, a moment at which its row has
      become stale. */
  function Late(e: Env, m: Option<int>, d: int): int {
    var dieBy := DieBy(e.delay, BudgetOf(m, d));
    if dieBy.Some? then dieBy.value else e.delay + Window(e.threshold, m) + 1
  }

  lemma LateAfterDelay(e: Env, m: Option<int>, d: int)
    ensures e.delay < Late(e, m, d)
  {
    AlarmFires(BudgetOf(m, d), BudgetOf(m, d));
  }

  function OneRow(row: Row): Table {
    Table(map[0 := row], 1)
  }

  lemma FirstClaim(e: Env, m: Option<int>, d: int) returns (s: Sys)
    requires ValidBudget(m) && e.minDefault <= d <= e.maxDefault
    ensures Reachable(e, s)
    ensures s == Sys(OneRow(RunningRow(m, None)), 0, [0], [SpecOf(m, 0)],
                     [Run(0, 0, 0, 0, SpecOf(m, 0), BudgetOf(m, d), NotForked, Watching)], multiset{})
  {
    hide Reachable;
    StartReachable(e);
    StepReachable(e, START, Upsert(CLIENT, SpecOf(m, 0)));
    s := Sys(OneRow(Fresh(Some(CLIENT), 0, SpecOf(m, 0))), 0, [0], [SpecOf(m, 0)], [], multiset{});
    assert s == Apply(e, START, Upsert(CLIENT, SpecOf(m, 0)));
    StepReachable(e, s, Claim(0, 0, d));
    s := Apply(e, s, Claim(0, 0, d));
  }

  /** Claim at time 0 and set the alarm as late as allowed. */
  lemma FirstFork(e: Env, m: Option<int>, d: int) returns (s: Sys)
    requires ValidBudget(m) && e.minDefault <= d <= e.maxDefault
    ensures Reachable(e, s)
    ensures var die := DieBy(e.delay, BudgetOf(m, d));
            s == Sys(OneRow(RunningRow(m, None)), e.delay, [0], [SpecOf(m, 0)],
                     [Run(0, 0, 0, 0, SpecOf(m, 0), BudgetOf(m, d), Alive(die), Watching)], multiset{})
  {
    hide Reachable, Alarm;
    s := FirstClaim(e, m, d);
    StepReachable(e, s, Tick(e.delay));
    s := Apply(e, s, Tick(e.delay));
    StepReachable(e, s, Fork(0));
    s := Apply(e, s, Fork(0));
  }

  /** Park a new version, and let the child use up its budget. */
  lemma ParkedAtDeadline(e: Env, m: Option<int>, d: int) returns (s: Sys)
    requires ValidBudget(m) && e.minDefault <= d <= e.maxDefault
    ensures Reachable(e, s)
    ensures var die := DieBy(e.delay, BudgetOf(m, d));
            s == Sys(OneRow(RunningRow(m, Some(SpecOf(m, 1)))), Late(e, m, d), [0, 0], [SpecOf(m, 0), SpecOf(m, 1)],
                     [Run(0, 0, 0, 0, SpecOf(m, 0), BudgetOf(m, d), Alive(die), Watching)], multiset{})
  {
    hide Reachable, Alarm;
    s := FirstFork(e, m, d);
    ConflictIsUnique(s.table.rows, 0);
    StepReachable(e, s, Upsert(CLIENT, SpecOf(m, 1)));
    s := Apply(e, s, Upsert(CLIENT, SpecOf(m, 1)));
    LateAfterDelay(e, m, d);
    StepReachable(e, s, Tick(Late(e, m, d)));
    s := Apply(e, s, Tick(Late(e, m, d)));
  }

  /** Reap the row while the child is still inside its budget. */
  lemma ReapedAlive(e: Env, m: Option<int>, d: int) returns (s: Sys)
    requires ValidBudget(m) && e.minDefault <= d <= e.maxDefault && !Covers(e, BudgetOf(m, d), m)
    ensures Reachable(e, s)
    ensures var die := DieBy(e.delay, BudgetOf(m, d));
            s == Sys(OneRow(Fresh(Some(CLIENT), 0, SpecOf(m, 1))), Late(e, m, d), [0, 0], [SpecOf(m, 0), SpecOf(m, 1)],
                     [Run(0, 0, 0, 0, SpecOf(m, 0), BudgetOf(m, d), Alive(die), Watching)], multiset{0})
  {
    hide Reachable, Alarm, Window;
    s := ParkedAtDeadline(e, m, d);
    StepReachable(e, s, Reap(e.threshold, s.now));
    assert Stale(s.table.rows[0], s.now, e.threshold);
    assert s.table.rows[0].spec.version in StaleVersions(s.table.rows, s.now, e.threshold);
    assert StaleVersions(s.table.rows, s.now, e.threshold) == {0} && multiset({0}) == multiset{0};
    s := Apply(e, s, Reap(e.threshold, s.now));
  }

  /** ... and claim and fork the parked version next to it. */
  lemma SecondFork(e: Env, m: Option<int>, d: int) returns (s: Sys)
    requires ValidBudget(m) && e.minDefault <= d <= e.maxDefault && !Covers(e, BudgetOf(m, d), m)
    ensures Reachable(e, s) && !Apart(s.runs)
  {
    hide Reachable, Alarm, Window;
    s := ReapedAlive(e, m, d);
    LateAfterDelay(e, m, d);
    StepReachable(e, s, Claim(1, 0, d));
    s := Apply(e, s, Claim(1, 0, d));
    StepReachable(e, s, Fork(1));
    s := Apply(e, s, Fork(1));
    assert s.runs[0].child.Alive? && s.runs[1].child.Alive?;
  }

  /** Runs of one row never overlap, in any execution, exactly when the timing is safe. */
  lemma NoOverlapIffSafeTiming(e: Env)
    requires e.minDefault <= e.maxDefault
    ensures SafeTiming(e) <==> forall s | Reachable(e, s) :: Apart(s.runs)
  {
    hide Enabled, Apply, SafeTiming, Apart;
    CoveredInClosedForm(e);
    if SafeTiming(e) {
      forall s | Reachable(e, s) ensures Apart(s.runs) {
        var states, steps :| Execution(e, states, steps) && states[|steps|] == s;
        NoOverlap(e, states, steps, |steps|);
      }
    } else {
      var m, d := Uncovered(e);
      var s := SecondFork(e, m, d);
    }
  }

  lemma Uncovered(e: Env) returns (m: Option<int>, d: int)
    requires !Covered(e) && e.minDefault <= e.maxDefault
    ensures ValidBudget(m) && e.minDefault <= d <= e.maxDefault && !Covers(e, BudgetOf(m, d), m)
  {
    if b: int :| 0 < b && !Covers(e, b, Some(b)) {
      return Some(b), e.maxDefault;
    } else {
      d :| e.minDefault <= d <= e.maxDefault && !Covers(e, d, None);
      return None, d;
    }
  }
}

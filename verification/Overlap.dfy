/** Two live children of one row are impossible exactly when the timing of the
    deployment covers every budget. */
module Overlap {
  import opened Wrappers
  import opened Tasks
  import opened TaskTable
  import opened Protocol
  import opened ProtocolInvariant

  /** A run with this budget is dead before any reaper calls its row stale. */
  predicate Covers(e: Env, budget: int, m: Option<int>) {
    Alarm(budget).Some? && e.delay + Alarm(budget).value <= Window(e.threshold, m)
  }

  /** Every budget a row may carry, and every default a worker may use, is covered. */
  ghost predicate Covered(e: Env) {
    && (forall m: int | 0 < m :: Covers(e, m, Some(m)))
    && (forall d: int | e.minDefault <= d <= e.maxDefault :: Covers(e, d, None))
  }

  /** Whole seconds, rounded up. */
  function CeilSeconds(t: nat): nat {
    (t + SECOND - 1) / SECOND * SECOND
  }

  /** The condition in closed form, to be checked before the fleet starts: every worker's
      default sets an alarm, and the threshold leaves room for the budgets. */
  predicate SafeTiming(e: Env) {
    && -SECOND < e.minDefault
    && e.delay + CeilSeconds(e.delay) + SECOND <= e.threshold
    && e.delay + (WholeSeconds(e.maxDefault) + 1) * SECOND <= e.threshold
  }

  /** Per-task budgets: the worst one is the delay itself, in whole seconds. */
  lemma OwnBudgetsCovered(delay: nat, threshold: nat, m: int)
    requires delay + CeilSeconds(delay) + SECOND <= threshold && 0 < m
    ensures Alarm(m).Some? && delay + Alarm(m).value <= Window(threshold, Some(m))
  {
    var k := m / SECOND;
    assert k * SECOND <= m < (k + 1) * SECOND;
    if 2 * m < delay + Alarm(m).value {
      assert k * SECOND < delay + SECOND;
      assert k * SECOND <= CeilSeconds(delay);
    }
  }

  lemma WorstBudget(e: Env)
    requires forall m: int | 0 < m :: Covers(e, m, Some(m))
    ensures e.delay + CeilSeconds(e.delay) + SECOND <= e.threshold
  {
    var worst := if e.delay == 0 then 1 else CeilSeconds(e.delay);
    assert Covers(e, worst, Some(worst));
    if e.delay > 0 {
      var c := (e.delay + SECOND - 1) / SECOND;
      assert worst == c * SECOND && worst / SECOND == c;
    }
  }

  /** Worker defaults: the smallest must set an alarm, and the largest sets the latest. */
  lemma DefaultsCovered(e: Env)
    requires e.minDefault <= e.maxDefault
    ensures (forall d: int | e.minDefault <= d <= e.maxDefault :: Covers(e, d, None)) <==>
            -SECOND < e.minDefault && e.delay + (WholeSeconds(e.maxDefault) + 1) * SECOND <= e.threshold
  {
    forall d: int | e.minDefault <= d <= e.maxDefault
      ensures Alarm(d).Some? <==> -SECOND < d
      ensures -SECOND < d ==> Alarm(d).value <= (WholeSeconds(e.maxDefault) + 1) * SECOND
    {
      AlarmFires(d, e.maxDefault);
    }
    assert Covers(e, e.minDefault, None) ==> -SECOND < e.minDefault;
    assert -SECOND < e.maxDefault ==> Alarm(e.maxDefault) == Some((WholeSeconds(e.maxDefault) + 1) * SECOND);
    if forall d: int | e.minDefault <= d <= e.maxDefault :: Covers(e, d, None) {
      assert Covers(e, e.minDefault, None) && Covers(e, e.maxDefault, None);
    }
  }

  lemma CoveredInClosedForm(e: Env)
    requires e.minDefault <= e.maxDefault
    ensures Covered(e) <==> SafeTiming(e)
  {
    DefaultsCovered(e);
    if SafeTiming(e) {
      forall m: int | 0 < m ensures Covers(e, m, Some(m)) {
        OwnBudgetsCovered(e.delay, e.threshold, m);
      }
    }
    if Covered(e) {
      WorstBudget(e);
    }
  }

  /** With the shipped defaults (30 minutes per run, reaped after 1 hour) the time from a
      claim to the child's alarm may be up to 1799 seconds. */
  lemma ShippedDefaults(delay: nat)
    ensures Covered(Env(delay, 3600 * SECOND, 1800 * SECOND, 1800 * SECOND)) <==> delay <= 1799 * SECOND
  {
    CoveredInClosedForm(Env(delay, 3600 * SECOND, 1800 * SECOND, 1800 * SECOND));
  }

  // ---------- covered timing keeps runs apart ----------

  /** A live run is within its time, and is the run its row is RUNNING. */
  predicate LiveRun(e: Env, r: Run, rows: map<nat, Row>, now: int) {
    && Alarm(r.budget).Some?
    && (Starting(r) ==> now <= r.token + e.delay)
    && (r.child.Alive? ==>
          r.child.dieBy.Some? && now <= r.child.dieBy.value <= r.token + e.delay + Alarm(r.budget).value)
    && (r.row in rows ==> Current(r, rows) && Covers(e, r.budget, rows[r.row].spec.maxRuntime))
  }

  predicate LiveOk(e: Env, runs: seq<Run>, rows: map<nat, Row>, now: int) {
    && (forall i | 0 <= i < |runs| && Live(runs[i]) :: LiveRun(e, runs[i], rows, now))
    && (forall i, j | 0 <= i < j < |runs| && Live(runs[i]) && Live(runs[j]) :: runs[i].row != runs[j].row)
  }

  lemma WriteKeepsLive(e: Env, t: Table, runs: seq<Run>, id: nat, row': Row, log: seq<nat>, now: int)
    requires LiveOk(e, runs, t.rows, now) && Written(t.rows, id, row', |log|) && RunsOk(runs, t.rows, log, now)
    requires LogOk(t, log) && (id !in t.rows ==> id == t.nextId)
    ensures LiveOk(e, runs, t.rows[id := row'], now)
  {
    forall i | 0 <= i < |runs| && Live(runs[i]) ensures LiveRun(e, runs[i], t.rows[id := row'], now) {
      assert RunLogged(runs[i], t.rows, log, now);
    }
  }

  lemma ClaimKeepsLive(e: Env, s: Sys, w: nat, id: nat, d: int)
    requires Covered(e) && id in s.table.rows && s.table.rows[id].status == Pending && e.minDefault <= d <= e.maxDefault
    requires Shape(s.table.rows[id]) && LiveOk(e, s.runs, s.table.rows, s.now)
    ensures LiveOk(e, s.runs + [NewRun(s, w, id, d)], ClaimInto(s.table, id, s.now).rows, s.now)
  {
    hide Alarm, Window;
    var r, rows, rows' := NewRun(s, w, id, d), s.table.rows, ClaimInto(s.table, id, s.now).rows;
    var runs' := s.runs + [r];
    assert rows[id].spec.maxRuntime.Some? ==> Covers(e, r.budget, Some(r.budget));
    assert Covers(e, r.budget, rows[id].spec.maxRuntime);
    forall i | 0 <= i < |runs'| && Live(runs'[i])
      ensures LiveRun(e, runs'[i], rows', s.now) && (i < |s.runs| ==> runs'[i].row != id)
    {
      assert i < |s.runs| ==> LiveRun(e, s.runs[i], rows, s.now);
    }
  }

  lemma RunEventKeepsLive(e: Env, s: Sys, step: Step)
    requires Enabled(e, s, step) && (step.Fork? || step.ForkFailed? || step.Exit? || step.Abandon?)
    requires LiveOk(e, s.runs, s.table.rows, s.now)
    ensures LiveOk(e, Apply(e, s, step).runs, s.table.rows, s.now)
  {
    hide Window, Covers;
    var runs' := Apply(e, s, step).runs;
    forall i | 0 <= i < |runs'| && Live(runs'[i]) ensures Live(s.runs[i]) && LiveRun(e, runs'[i], s.table.rows, s.now) {
      assert Live(s.runs[i]) ==> LiveRun(e, s.runs[i], s.table.rows, s.now);
    }
  }

  lemma TickKeepsLive(e: Env, s: Sys, to: int)
    requires Enabled(e, s, Tick(to)) && LiveOk(e, s.runs, s.table.rows, s.now)
    ensures LiveOk(e, s.runs, s.table.rows, to)
  {
    hide Covers, Current, Alarm;
    forall i | 0 <= i < |s.runs| && Live(s.runs[i]) ensures LiveRun(e, s.runs[i], s.table.rows, to) {
      assert LiveRun(e, s.runs[i], s.table.rows, s.now) && s.runs[i] in s.runs;
    }
  }

  /** Ending rows that no live run is on, and deleting rows, leaves the live runs alone. */
  lemma RowsKeepLive(e: Env, runs: seq<Run>, runs': seq<Run>, rows: map<nat, Row>, rows': map<nat, Row>, now: int)
    requires LiveOk(e, runs, rows, now) && |runs'| == |runs|
    requires forall i | 0 <= i < |runs| && Live(runs'[i]) :: runs'[i] == runs[i]
    requires forall id | id in rows' :: id in rows
    requires forall i | 0 <= i < |runs| && Live(runs'[i]) && runs[i].row in rows' ::
               rows'[runs[i].row] == rows[runs[i].row]
    ensures LiveOk(e, runs', rows', now)
  {
    hide Covers, Alarm;
    forall i | 0 <= i < |runs'| && Live(runs'[i]) ensures LiveRun(e, runs'[i], rows', now) {
      assert LiveRun(e, runs[i], rows, now);
    }
  }

  lemma FinishKeepsLive(e: Env, s: Sys, i: nat, status: Status, error: Option<string>)
    requires Inv(s) && Enabled(e, s, Finish(i, status, error)) && LiveOk(e, s.runs, s.table.rows, s.now)
    ensures var s' := Apply(e, s, Finish(i, status, error)); LiveOk(e, s'.runs, s'.table.rows, s'.now)
  {
    hide TableInv, LogOk, WatchOk, VerdictsOk, Backed, FinishRow, Covers, Alarm;
    var s', rows := Apply(e, s, Finish(i, status, error)), s.table.rows;
    TokenIdentifiesRun(s, i);
    forall j | 0 <= j < |s.runs| && Live(s'.runs[j])
      ensures s'.runs[j] == s.runs[j]
      ensures s.runs[j].row in s'.table.rows ==> s'.table.rows[s.runs[j].row] == rows[s.runs[j].row]
    {
      assert j != i;
      assert LiveRun(e, s.runs[j], rows, s.now);
      VersionsDistinct(s, i, j);
    }
    RowsKeepLive(e, s.runs, s'.runs, rows, s'.table.rows, s.now);
  }

  lemma LiveIsNotStale(e: Env, r: Run, rows: map<nat, Row>, now: int, asOf: int, threshold: int)
    requires Live(r) && LiveRun(e, r, rows, now) && r.row in rows && asOf <= now && e.threshold <= threshold
    ensures !Stale(rows[r.row], asOf, threshold)
  {
  }

  lemma ReapKeepsLive(e: Env, s: Sys, threshold: int, asOf: int)
    requires LiveOk(e, s.runs, s.table.rows, s.now) && asOf <= s.now && e.threshold <= threshold
    ensures LiveOk(e, s.runs, ReapInto(s.table, asOf, threshold, asOf).rows, s.now)
  {
    hide Stale, ReapRow, LiveRun;
    var rows, rows' := s.table.rows, ReapInto(s.table, asOf, threshold, asOf).rows;
    forall j | 0 <= j < |s.runs| && Live(s.runs[j]) && s.runs[j].row in rows'
      ensures rows'[s.runs[j].row] == rows[s.runs[j].row]
    {
      LiveIsNotStale(e, s.runs[j], rows, s.now, asOf, threshold);
    }
    RowsKeepLive(e, s.runs, s.runs, rows, rows', s.now);
  }

  lemma DeleteKeepsLive(e: Env, s: Sys, step: Step)
    requires Enabled(e, s, step) && (step.Cancel? || step.Clear? || step.ClearAll?)
    requires LiveOk(e, s.runs, s.table.rows, s.now)
    ensures LiveOk(e, s.runs, Apply(e, s, step).table.rows, s.now)
  {
    hide LiveOk;
    RowsKeepLive(e, s.runs, s.runs, s.table.rows, Apply(e, s, step).table.rows, s.now);
  }

  lemma EnqueueKeepsLive(e: Env, s: Sys, c: Option<string>, spec: Spec)
    requires Inv(s) && Enabled(e, s, Enqueue(c, spec)) && LiveOk(e, s.runs, s.table.rows, s.now)
    ensures var s' := Apply(e, s, Enqueue(c, spec)); LiveOk(e, s'.runs, s'.table.rows, s'.now)
  {
    hide LogOk, RunsOk, RunsOrdered, Backed, WatchOk, VerdictsOk, UniqueClients, LiveOk;
    var labelled, id := spec.(version := |s.log|), s.table.nextId;
    WriteKeepsLive(e, s.table, s.runs, id, Fresh(c, s.now, labelled), s.log, s.now);
  }

  lemma UpsertKeepsLive(e: Env, s: Sys, c: string, spec: Spec)
    requires Inv(s) && Enabled(e, s, Upsert(c, spec)) && LiveOk(e, s.runs, s.table.rows, s.now)
    ensures var s' := Apply(e, s, Upsert(c, spec)); LiveOk(e, s'.runs, s'.table.rows, s'.now)
  {
    hide LogOk, RunsOk, RunsOrdered, Backed, WatchOk, VerdictsOk, UniqueClients, UpsertRow, Shape, LiveOk;
    var labelled, id := spec.(version := |s.log|), UpsertId(s.table, c);
    UpsertKeepsTable(s.table, c, labelled, s.now);
    var t' := UpsertInto(s.table, c, labelled, s.now);
    assert t'.rows == s.table.rows[id := t'.rows[id]];
    WriteKeepsLive(e, s.table, s.runs, id, t'.rows[id], s.log, s.now);
  }

  lemma StepKeepsLive(e: Env, s: Sys, step: Step)
    requires Covered(e) && Inv(s) && Enabled(e, s, step) && LiveOk(e, s.runs, s.table.rows, s.now)
    ensures var s' := Apply(e, s, step); LiveOk(e, s'.runs, s'.table.rows, s'.now)
  {
    hide LiveOk, LogOk, RunsOk, RunsOrdered, Backed, WatchOk, VerdictsOk, UniqueClients, Covered;
    match step
    case Enqueue(c, spec) => EnqueueKeepsLive(e, s, c, spec);
    case Upsert(c, spec) => UpsertKeepsLive(e, s, c, spec);
    case Claim(w, id, d) => ClaimKeepsLive(e, s, w, id, d);
    case Fork(_) => RunEventKeepsLive(e, s, step);
    case ForkFailed(_) => RunEventKeepsLive(e, s, step);
    case Exit(_, _) => RunEventKeepsLive(e, s, step);
    case Finish(i, status, error) => FinishKeepsLive(e, s, i, status, error);
    case Abandon(_) => RunEventKeepsLive(e, s, step);
    case Reap(threshold, asOf) => ReapKeepsLive(e, s, threshold, asOf);
    case Cancel(_) => DeleteKeepsLive(e, s, step);
    case Clear(_, _) => DeleteKeepsLive(e, s, step);
    case ClearAll => DeleteKeepsLive(e, s, step);
    case Tick(to) => TickKeepsLive(e, s, to);
  }

  lemma {:induction false} ExecutionKeepsLive(e: Env, states: seq<Sys>, steps: seq<Step>, k: nat)
    requires Covered(e) && Execution(e, states, steps) && k < |states|
    ensures LiveOk(e, states[k].runs, states[k].table.rows, states[k].now)
  {
    if k > 0 {
      hide LiveOk, Covered, Enabled, Apply, Inv;
      ExecutionKeepsLive(e, states, steps, k - 1);
      ExecutionKeeps(e, states, steps, k - 1);
      StepKeepsLive(e, states[k - 1], steps[k - 1]);
    }
  }

  predicate Apart(runs: seq<Run>) {
    forall i, j | 0 <= i < j < |runs| && runs[i].child.Alive? && runs[j].child.Alive? :: runs[i].row != runs[j].row
  }

  lemma NoOverlap(e: Env, states: seq<Sys>, steps: seq<Step>, k: nat)
    requires Covered(e) && Execution(e, states, steps) && k < |states|
    ensures Apart(states[k].runs)
  {
    hide Covered, Execution;
    ExecutionKeepsLive(e, states, steps, k);
  }
}

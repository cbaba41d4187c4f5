/** How often a version runs, counting the children forked for it. The documentation says
    exactly once. Never more than once holds; exactly once holds but for the steps of
    `Loses`, and for each of them it fails. */
module ExactlyOnce {
  import opened Wrappers
  import opened Tasks
  import opened TaskTable
  import opened Protocol
  import opened ProtocolInvariant
  import OverlapExact

  /** The row will run this version: it is PENDING with it, or has it parked. */
  predicate WaitsOn(row: Row, v: nat) {
    || (row.status == Pending && row.spec.version == v)
    || (row.requeue.Some? && row.requeue.value.version == v)
  }

  predicate Unclaimed(s: Sys, v: nat) {
    v < |s.log| && s.log[v] in s.table.rows && WaitsOn(s.table.rows[s.log[v]], v)
  }

  /** Some claim of the version has a child, had one, or may still get one. */
  predicate Carried(runs: seq<Run>, v: nat) {
    exists i :: 0 <= i < |runs| && runs[i].version == v && (Starting(runs[i]) || Forked(runs[i].child))
  }

  /** The version has not been claimed yet, or its claim has not come to the fork yet. */
  predicate Open(s: Sys, v: nat) {
    Unclaimed(s, v) || exists i :: 0 <= i < |s.runs| && s.runs[i].version == v && Starting(s.runs[i])
  }

  /** The claims of the version for which a child was forked. */
  function Children(runs: seq<Run>, v: nat): set<nat> {
    set i | 0 <= i < |runs| && runs[i].version == v && Forked(runs[i].child)
  }

  /** The step makes sure that the version never runs: its handler does not resolve or its fork
      fails, its worker dies between claim and fork, or, before it is claimed, another
      upsert of its client replaces it or its row is deleted. */
  predicate Loses(s: Sys, step: Step, v: nat) {
    match step
    case ForkFailed(i) => i < |s.runs| && s.runs[i].version == v
    case Abandon(i) => i < |s.runs| && s.runs[i].version == v && Starting(s.runs[i])
    case Upsert(c, _) => Unclaimed(s, v) && UpsertId(s.table, c) == s.log[v]
    case Cancel(id) => Unclaimed(s, v) && id == s.log[v]
    case ClearAll => Unclaimed(s, v)
    case _ => false
  }

  predicate Missed(s: Sys, v: nat) {
    v < |s.log| && !Unclaimed(s, v) && !Carried(s.runs, v)
  }

  // ---------- what each step does to the versions that wait ----------

  lemma UnclaimedHasNoRun(s: Sys, v: nat)
    requires Inv(s) && Unclaimed(s, v)
    ensures !HasRun(s.runs, v)
  {
    assert RowLogged(s.table.rows[s.log[v]], s.log, s.log[v]);
    forall i | 0 <= i < |s.runs| ensures s.runs[i].version != v {
      assert RunLogged(s.runs[i], s.table.rows, s.log, s.now);
    }
  }

  /** A write puts its own version in line and takes out the one that waited on its row. */
  lemma WriteMisses(s: Sys, t': Table, id: nat, row': Row, spec: Spec, v: nat)
    requires t'.rows == s.table.rows[id := row'] && Written(s.table.rows, id, row', |s.log|) && v <= |s.log|
    ensures var s' := s.(table := t', log := s.log + [id], written := s.written + [spec]);
            Unclaimed(s', v) <==> v == |s.log| || (Unclaimed(s, v) && id != s.log[v])
  {
  }

  lemma EnqueueMisses(e: Env, s: Sys, c: Option<string>, spec: Spec, v: nat)
    requires Inv(s) && Enabled(e, s, Enqueue(c, spec))
    ensures Missed(Apply(e, s, Enqueue(c, spec)), v) <==> Missed(s, v)
  {
    hide LogOk, RunsOk, RunsOrdered, Backed, WatchOk, VerdictsOk, UniqueClients, Carried;
    if v <= |s.log| {
      var labelled, id := spec.(version := |s.log|), s.table.nextId;
      WriteMisses(s, InsertInto(s.table, c, labelled, s.now), id, Fresh(c, s.now, labelled), labelled, v);
      assert v < |s.log| && s.log[v] == id ==> !Unclaimed(s, v);
    }
  }

  lemma UpsertMisses(e: Env, s: Sys, c: string, spec: Spec, v: nat)
    requires Inv(s) && Enabled(e, s, Upsert(c, spec))
    ensures Missed(Apply(e, s, Upsert(c, spec)), v) <==> Missed(s, v) || Loses(s, Upsert(c, spec), v)
  {
    hide LogOk, RunsOk, RunsOrdered, Backed, WatchOk, VerdictsOk, UniqueClients, UpsertRow, Shape;
    if v <= |s.log| {
      var labelled, id := spec.(version := |s.log|), UpsertId(s.table, c);
      UpsertKeepsTable(s.table, c, labelled, s.now);
      var t' := UpsertInto(s.table, c, labelled, s.now);
      assert t'.rows == s.table.rows[id := t'.rows[id]];
      WriteMisses(s, t', id, t'.rows[id], labelled, v);
      if Unclaimed(s, v) {
        UnclaimedHasNoRun(s, v);
      }
    }
  }

  /** A claim takes exactly the version of its row out of line. */
  lemma ClaimMisses(e: Env, s: Sys, w: nat, id: nat, d: int, v: nat)
    requires Inv(s) && Enabled(e, s, Claim(w, id, d))
    ensures Missed(Apply(e, s, Claim(w, id, d)), v) <==> Missed(s, v)
  {
    hide RunsOk, RunsOrdered, Backed, WatchOk, VerdictsOk, UniqueClients;
    var s', row := Apply(e, s, Claim(w, id, d)), s.table.rows[id];
    assert RowLogged(row, s.log, id) && Shape(row);
    assert Unclaimed(s', v) <==> Unclaimed(s, v) && v != row.spec.version;
    assert s'.runs[..|s.runs|] == s.runs && s'.runs[|s.runs|].version == row.spec.version;
    if Carried(s.runs, v) {
      var i :| 0 <= i < |s.runs| && s.runs[i].version == v && (Starting(s.runs[i]) || Forked(s.runs[i].child));
      assert s'.runs[i] == s.runs[i];
    }
    if v == row.spec.version {
      assert Unclaimed(s, v) && Starting(s'.runs[|s.runs|]);
    }
  }

  /** The end of a run leaves in line what was parked. */
  lemma EndKeepsWaiting(s: Sys, t': Table, ended: set<nat>, v: nat)
    requires Inv(s) && EndRows(s.table.rows, t'.rows, ended)
    ensures Unclaimed(s, v) <==> Unclaimed(s.(table := t'), v)
  {
    if v < |s.log| && s.log[v] in s.table.rows {
      assert RowLogged(s.table.rows[s.log[v]], s.log, s.log[v]) && Shape(s.table.rows[s.log[v]]);
    }
  }

  lemma FinishMisses(e: Env, s: Sys, i: nat, status: Status, error: Option<string>, v: nat)
    requires Inv(s) && Enabled(e, s, Finish(i, status, error))
    ensures Missed(Apply(e, s, Finish(i, status, error)), v) <==> Missed(s, v)
  {
    hide TableInv, LogOk, RunsOk, RunsOrdered, Backed, WatchOk, VerdictsOk;
    var s' := Apply(e, s, Finish(i, status, error));
    var ended := if FinishMatches(s.table, s.runs[i].row, s.runs[i].token) then {s.runs[i].row} else {};
    assert EndRows(s.table.rows, s'.table.rows, ended);
    EndKeepsWaiting(s, s'.table, ended, v);
    SameCarried(s.runs, s'.runs, v);
  }

  lemma ReapMisses(e: Env, s: Sys, threshold: int, asOf: int, v: nat)
    requires Inv(s) && Enabled(e, s, Reap(threshold, asOf))
    ensures Missed(Apply(e, s, Reap(threshold, asOf)), v) <==> Missed(s, v)
  {
    hide TableInv, LogOk, RunsOk, RunsOrdered, Backed, WatchOk, VerdictsOk, Carried;
    var s' := Apply(e, s, Reap(threshold, asOf));
    var ended := StaleIds(s.table.rows, asOf, threshold);
    assert EndRows(s.table.rows, s'.table.rows, ended);
    EndKeepsWaiting(s, s'.table, ended, v);
  }

  lemma DeleteMisses(e: Env, s: Sys, step: Step, v: nat)
    requires Inv(s) && Enabled(e, s, step) && (step.Cancel? || step.Clear? || step.ClearAll?)
    ensures Missed(Apply(e, s, step), v) <==> Missed(s, v) || Loses(s, step, v)
  {
    hide RunsOk, LogOk, RunsOrdered, Backed, WatchOk, VerdictsOk, UniqueClients;
    if Unclaimed(s, v) {
      UnclaimedHasNoRun(s, v);
      assert Shape(s.table.rows[s.log[v]]);
    }
  }

  // ---------- and to the claims ----------

  lemma SameCarried(runs: seq<Run>, runs': seq<Run>, v: nat)
    requires |runs'| == |runs|
    requires forall i | 0 <= i < |runs| ::
               && runs'[i].version == runs[i].version
               && (Starting(runs'[i]) || Forked(runs'[i].child) <==> Starting(runs[i]) || Forked(runs[i].child))
    ensures Carried(runs', v) <==> Carried(runs, v)
  {
    forall i | 0 <= i < |runs| ensures runs'[i].version == runs[i].version {
    }
  }

  /** Claim `i` gives its version up; no other claim has that version. */
  lemma GivenUp(s: Sys, i: nat, r': Run, v: nat)
    requires Inv(s) && i < |s.runs| && Starting(s.runs[i])
    requires r'.version == s.runs[i].version && !Starting(r') && !Forked(r'.child)
    ensures Carried(s.runs[i := r'], v) <==> Carried(s.runs, v) && v != r'.version
    ensures !Unclaimed(s, s.runs[i].version)
  {
    hide TableInv, LogOk, Backed, WatchOk, VerdictsOk, Unclaimed;
    if Unclaimed(s, r'.version) {
      UnclaimedHasNoRun(s, r'.version);
    }
    if Carried(s.runs[i := r'], r'.version) {
      var j :| 0 <= j < |s.runs| && s.runs[i := r'][j].version == r'.version
               && (Starting(s.runs[i := r'][j]) || Forked(s.runs[i := r'][j].child));
      VersionsDistinct(s, i, j);
    }
    if Carried(s.runs, v) && v != r'.version {
      var j :| 0 <= j < |s.runs| && s.runs[j].version == v && (Starting(s.runs[j]) || Forked(s.runs[j].child));
      assert s.runs[i := r'][j] == s.runs[j];
    }
  }

  lemma RunEventMisses(e: Env, s: Sys, step: Step, v: nat)
    requires Inv(s) && Enabled(e, s, step) && (step.Fork? || step.ForkFailed? || step.Exit? || step.Abandon?)
    ensures Missed(Apply(e, s, step), v) <==> Missed(s, v) || Loses(s, step, v)
  {
    hide Inv, Carried;
    var s' := Apply(e, s, step);
    if step.ForkFailed? || (step.Abandon? && Starting(s.runs[step.run])) {
      GivenUp(s, step.run, s'.runs[step.run], v);
      VersionInLog(s, step.run);
    } else {
      SameCarried(s.runs, s'.runs, v);
    }
  }

  lemma VersionInLog(s: Sys, i: nat)
    requires Inv(s) && i < |s.runs|
    ensures s.runs[i].version < |s.log|
  {
    assert RunLogged(s.runs[i], s.table.rows, s.log, s.now);
  }

  // ---------- executions ----------

  /** A version goes missing at the step that loses it, and stays missing. */
  lemma StepMisses(e: Env, s: Sys, step: Step, v: nat)
    requires Inv(s) && Enabled(e, s, step)
    ensures Missed(Apply(e, s, step), v) <==> Missed(s, v) || Loses(s, step, v)
  {
    hide Inv, Enabled, Apply, Missed;
    match step
    case Enqueue(c, spec) => EnqueueMisses(e, s, c, spec, v);
    case Upsert(c, spec) => UpsertMisses(e, s, c, spec, v);
    case Claim(w, id, d) => ClaimMisses(e, s, w, id, d, v);
    case Fork(_) => RunEventMisses(e, s, step, v);
    case ForkFailed(_) => RunEventMisses(e, s, step, v);
    case Exit(_, _) => RunEventMisses(e, s, step, v);
    case Finish(i, status, error) => FinishMisses(e, s, i, status, error, v);
    case Abandon(_) => RunEventMisses(e, s, step, v);
    case Reap(threshold, asOf) => ReapMisses(e, s, threshold, asOf, v);
    case Cancel(_) => DeleteMisses(e, s, step, v);
    case Clear(_, _) => DeleteMisses(e, s, step, v);
    case ClearAll => DeleteMisses(e, s, step, v);
    case Tick(to) => TickMisses(e, s, to, v);
  }

  lemma TickMisses(e: Env, s: Sys, to: int, v: nat)
    requires Enabled(e, s, Tick(to))
    ensures Missed(Apply(e, s, Tick(to)), v) <==> Missed(s, v)
  {
    hide Carried;
  }

  /** Nothing in the first `k` steps loses the version. */
  ghost predicate Undisturbed(states: seq<Sys>, steps: seq<Step>, k: nat, v: nat)
    requires k <= |steps| && |states| == |steps| + 1
  {
    forall j | 0 <= j < k :: !Loses(states[j], steps[j], v)
  }

  lemma {:induction false} MissedIffDisturbed(e: Env, states: seq<Sys>, steps: seq<Step>, k: nat, v: nat)
    requires Execution(e, states, steps) && k <= |steps|
    ensures Missed(states[k], v) <==> !Undisturbed(states, steps, k, v)
  {
    hide Missed, Loses, Enabled, Apply, Inv;
    if k == 0 {
      NothingAtStart(v);
    } else {
      MissedIffDisturbed(e, states, steps, k - 1, v);
      ExecutionKeeps(e, states, steps, k - 1);
      StepMisses(e, states[k - 1], steps[k - 1], v);
    }
  }

  lemma NothingAtStart(v: nat)
    ensures !Missed(START, v)
  {
  }

  /** The claim of a version that got a child is the only one. */
  lemma AtMostOneChild(s: Sys, v: nat)
    requires Inv(s)
    ensures |Children(s.runs, v)| <= 1
    ensures Open(s, v) ==> Children(s.runs, v) == {}
  {
    hide TableInv, LogOk, Backed, WatchOk, VerdictsOk;
    var children := Children(s.runs, v);
    forall i, j | i in children && j in children ensures i == j {
      if i != j {
        VersionsDistinct(s, i, j);
      }
    }
    if i :| i in children {
      assert children == {i};
      if Unclaimed(s, v) {
        UnclaimedHasNoRun(s, v);
      }
      if j :| 0 <= j < |s.runs| && s.runs[j].version == v && Starting(s.runs[j]) {
        VersionsDistinct(s, i, j);
      }
    }
  }

  /** Over any execution, a version that is no longer waiting for its claim or its fork has had
      exactly one child if and only if no step of `Loses` befell it; and none otherwise. */
  lemma ExactlyOnceIff(e: Env, states: seq<Sys>, steps: seq<Step>, v: nat)
    requires Execution(e, states, steps) && v < |states[|steps|].log|
    ensures var s := states[|steps|];
            && (!Open(s, v) ==> (|Children(s.runs, v)| == 1 <==> Undisturbed(states, steps, |steps|, v)))
            && (Open(s, v) ==> |Children(s.runs, v)| == 0 && Undisturbed(states, steps, |steps|, v))
            && |Children(s.runs, v)| <= 1
  {
    hide Enabled, Apply, Inv, Undisturbed;
    var s := states[|steps|];
    ExecutionKeeps(e, states, steps, |steps|);
    MissedIffDisturbed(e, states, steps, |steps|, v);
    AtMostOneChild(s, v);
    if Carried(s.runs, v) && !Open(s, v) {
      var i :| 0 <= i < |s.runs| && s.runs[i].version == v && (Starting(s.runs[i]) || Forked(s.runs[i].child));
      assert i in Children(s.runs, v);
    }
    if i :| i in Children(s.runs, v) {
      assert Carried(s.runs, v);
    }
  }

  /** Every version runs exactly once, in its time, if and only if the execution has none of
      these steps. */
  lemma AllExactlyOnceIff(e: Env, states: seq<Sys>, steps: seq<Step>)
    requires Execution(e, states, steps)
    ensures var s := states[|steps|];
            (forall v | 0 <= v < |s.log| && !Open(s, v) :: |Children(s.runs, v)| == 1)
            <==> forall v | 0 <= v < |s.log| :: Undisturbed(states, steps, |steps|, v)
  {
    hide Enabled, Apply, Undisturbed, Open;
    forall v | 0 <= v < |states[|steps|].log|
      ensures var s := states[|steps|];
              (!Open(s, v) ==> |Children(s.runs, v)| == 1) <==> Undisturbed(states, steps, |steps|, v)
    {
      ExactlyOnceIff(e, states, steps, v);
    }
  }

  /** The promise fails: a worker dies between claim and fork, and the reaper closes the row as
      FAILED. Its version never had a child, and never will. */
  lemma NeverRan(e: Env, d: int) returns (s: Sys)
    requires e.minDefault <= d <= e.maxDefault
    ensures Reachable(e, s) && s.log == [0] && s.table.rows.Keys == {0}
    ensures s.table.rows[0].status == Failed && s.table.rows[0].spec.version == 0
    ensures !Open(s, 0) && Children(s.runs, 0) == {}
  {
    hide Reachable;
    s := OverlapExact.FirstClaim(e, None, d);
    StepReachable(e, s, Abandon(0));
    s := Apply(e, s, Abandon(0));
    StepReachable(e, s, Tick(e.threshold + 1));
    s := Apply(e, s, Tick(e.threshold + 1));
    StepReachable(e, s, Reap(e.threshold, s.now));
    s := Apply(e, s, Reap(e.threshold, s.now));
  }
}

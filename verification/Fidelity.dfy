/** What runs is what was written: the columns a client passed reach the child unchanged,
    whatever happened to the row in between, and not before their `run_at`. */
module Fidelity {
  import opened Wrappers
  import opened Tasks
  import opened TaskTable
  import opened Protocol
  import opened ProtocolInvariant

  predicate IsWritten(spec: Spec, written: seq<Spec>) {
    spec.version < |written| && written[spec.version] == spec
  }

  predicate RowFaithful(row: Row, written: seq<Spec>) {
    IsWritten(row.spec, written) && (row.requeue.Some? ==> IsWritten(row.requeue.value, written))
  }

  predicate RunFaithful(r: Run, written: seq<Spec>) {
    && r.spec.version == r.version && IsWritten(r.spec, written)
    && r.spec.runAt <= r.token
    && (r.spec.maxRuntime.Some? ==> r.budget == r.spec.maxRuntime.value)
  }

  /** Rows, parked versions and claims hold exactly the columns of their version. */
  predicate Faithful(s: Sys) {
    && |s.written| == |s.log|
    && (forall id | id in s.table.rows :: RowFaithful(s.table.rows[id], s.written))
    && (forall i | 0 <= i < |s.runs| :: RunFaithful(s.runs[i], s.written))
  }

  lemma MoreWritten(s: Sys, spec: Spec)
    requires Faithful(s) && spec.version == |s.log|
    ensures IsWritten(spec, s.written + [spec])
    ensures forall id | id in s.table.rows :: RowFaithful(s.table.rows[id], s.written + [spec])
    ensures forall i | 0 <= i < |s.runs| :: RunFaithful(s.runs[i], s.written + [spec])
  {
  }

  lemma WriteKeepsFaithful(e: Env, s: Sys, step: Step)
    requires Faithful(s) && TableInv(s.table) && Enabled(e, s, step) && (step.Enqueue? || step.Upsert?)
    ensures Faithful(Apply(e, s, step))
  {
    hide RowFaithful, RunFaithful, IsWritten, UniqueClients, Shape, EnqueueError, UpsertRow;
    var labelled := step.spec.(version := |s.log|);
    MoreWritten(s, labelled);
    var rows', written := Apply(e, s, step).table.rows, s.written + [labelled];
    FreshFaithful(labelled, written, s.now);
    if step.Upsert? {
      UpsertKeepsTable(s.table, step.client, labelled, s.now);
    }
    forall id | id in rows' ensures RowFaithful(rows'[id], written) {
      if id in s.table.rows && rows'[id] != s.table.rows[id] {
        UpsertFaithful(s.table.rows[id], labelled, written);
      }
    }
  }

  lemma FreshFaithful(spec: Spec, written: seq<Spec>, now: int)
    requires IsWritten(spec, written)
    ensures forall c: Option<string> :: RowFaithful(Fresh(c, now, spec), written)
  {
  }

  lemma UpsertFaithful(row: Row, spec: Spec, written: seq<Spec>)
    requires RowFaithful(row, written) && IsWritten(spec, written)
    ensures RowFaithful(UpsertRow(row, spec), written)
  {
  }

  lemma ClaimKeepsFaithful(e: Env, s: Sys, w: nat, id: nat, d: int)
    requires Faithful(s) && Enabled(e, s, Claim(w, id, d))
    ensures Faithful(Apply(e, s, Claim(w, id, d)))
  {
    var s' := Apply(e, s, Claim(w, id, d));
    assert RowFaithful(s.table.rows[id], s.written);
    forall i | 0 <= i < |s'.runs| ensures RunFaithful(s'.runs[i], s.written) {
      assert i < |s.runs| ==> s'.runs[i] == s.runs[i];
    }
  }

  lemma OtherKeepsFaithful(e: Env, s: Sys, step: Step)
    requires Faithful(s) && Enabled(e, s, step) && !step.Enqueue? && !step.Upsert? && !step.Claim?
    ensures Faithful(Apply(e, s, step))
  {
    hide IsWritten, Claimable, EnqueueError, Conflict, Clears, Stale;
    var s' := Apply(e, s, step);
    forall id | id in s'.table.rows ensures RowFaithful(s'.table.rows[id], s.written) {
      assert RowFaithful(s.table.rows[id], s.written);
    }
  }

  lemma StepKeepsFaithful(e: Env, s: Sys, step: Step)
    requires Faithful(s) && TableInv(s.table) && Enabled(e, s, step)
    ensures Faithful(Apply(e, s, step))
    ensures s.written <= Apply(e, s, step).written
  {
    hide Faithful, TableInv, Enabled;
    match step
    case Enqueue(_, _) => WriteKeepsFaithful(e, s, step);
    case Upsert(_, _) => WriteKeepsFaithful(e, s, step);
    case Claim(w, id, d) => ClaimKeepsFaithful(e, s, w, id, d);
    case _ => OtherKeepsFaithful(e, s, step);
  }

  lemma {:induction false} ExecutionKeepsFaithful(e: Env, states: seq<Sys>, steps: seq<Step>, k: nat)
    requires Execution(e, states, steps) && k < |states|
    ensures Faithful(states[k])
  {
    if k > 0 {
      hide Faithful, Enabled, Apply;
      ExecutionKeepsFaithful(e, states, steps, k - 1);
      ExecutionKeeps(e, states, steps, k - 1);
      StepKeepsFaithful(e, states[k - 1], steps[k - 1]);
    }
  }

  lemma {:induction false} WrittenStays(e: Env, states: seq<Sys>, steps: seq<Step>, k: nat, m: nat)
    requires Execution(e, states, steps) && k <= m < |states|
    ensures states[k].written <= states[m].written
    decreases m
  {
    if k < m {
      hide Faithful, Enabled, Apply;
      WrittenStays(e, states, steps, k, m - 1);
      ExecutionKeepsFaithful(e, states, steps, m - 1);
      ExecutionKeeps(e, states, steps, m - 1);
      StepKeepsFaithful(e, states[m - 1], steps[m - 1]);
    }
  }

  /** Whenever a version is claimed after the enqueue or upsert that wrote it, however it was
      parked, re-queued or reaped on its way, the child gets the columns passed to that
      call, in time, and its own budget if it has one. */
  lemma RunsWhatWasWritten(e: Env, states: seq<Sys>, steps: seq<Step>, k: nat, m: nat, i: nat)
    requires Execution(e, states, steps) && k < |steps| && (steps[k].Enqueue? || steps[k].Upsert?)
    requires k < m < |states| && i < |states[m].runs| && states[m].runs[i].version == |states[k].log|
    ensures var r, spec := states[m].runs[i], steps[k].spec;
            && r.spec == spec.(version := r.version)
            && spec.runAt <= r.token
            && (spec.maxRuntime.Some? ==> r.budget == spec.maxRuntime.value)
  {
    hide Inv;
    ExecutionKeepsFaithful(e, states, steps, k);
    ExecutionKeepsFaithful(e, states, steps, m);
    WrittenStays(e, states, steps, k + 1, m);
    assert states[k + 1] == Apply(e, states[k], steps[k]);
    assert states[k + 1].written[|states[k].log|] == steps[k].spec.(version := |states[k].log|);
    assert RunFaithful(states[m].runs[i], states[m].written);
  }

  /** A claim takes a PENDING row that is due, hands over its columns and leaves them, with its
      identity, on the row. */
  lemma ClaimTakes(e: Env, s: Sys, w: nat, id: nat, d: int)
    requires Inv(s) && Enabled(e, s, Claim(w, id, d))
    ensures var s' := Apply(e, s, Claim(w, id, d));
            && s.table.rows[id].status == Pending && s.table.rows[id].spec.runAt <= s.now
            && s'.table.rows ==
               s.table.rows[id := s.table.rows[id].(status := Running, startedAt := Some(s.now), attempts := 1)]
            && |s'.runs| == |s.runs| + 1 && s'.runs[..|s.runs|] == s.runs
            && var r := s'.runs[|s.runs|];
            && r.worker == w && r.row == id && r.token == s.now && r.spec == s.table.rows[id].spec && Starting(r)
            && r.budget == if r.spec.maxRuntime.Some? then r.spec.maxRuntime.value else d
  {
    assert Shape(s.table.rows[id]);
  }
}

/** The worker loops, one task at a time and concurrent, against a database shared with others
    and an operating system that may fail them. */
module ConcurrentWorker {
  import opened Wrappers
  import opened Tasks
  import opened TaskTable
  import opened Protocol
  import opened ProtocolInvariant
  import opened WorkerBooks
  import ClaimOrder
  import Drain
  import Fidelity
  import Guarantees
  import PeriodicTasks

  class Host {
    const me: nat
    const env: Env
    const maxRuntime: int
    const priorities: set<int>
    const works: nat -> bool
    var asked: nat
    var sys: Sys
    var periodic: map<nat, Entry>
    var stuck: set<nat>
    var procs: seq<Proc>
    var requested: bool
    var peak: nat
    var looks: seq<Look>
    var rounds: nat

    /** `works(n)` says whether the `n`-th thing this worker asks of the database or the
        operating system succeeds. */
    constructor (me: nat, env: Env, maxRuntime: int, priorities: set<int>, works: nat -> bool, sys: Sys,
                 periodic: map<nat, Entry>)
      ensures this.me == me && this.env == env && this.maxRuntime == maxRuntime && this.priorities == priorities
      ensures this.works == works && this.sys == sys && this.periodic == periodic
      ensures stuck == {} && procs == [] && !requested && peak == 0 && looks == [] && asked == 0 && rounds == 0
    {
      this.me, this.env, this.maxRuntime, this.priorities := me, env, maxRuntime, priorities;
      this.works, this.sys, this.periodic := works, sys, periodic;
      stuck, procs, requested, peak, looks, asked, rounds := {}, [], false, 0, [], 0, 0;
    }

    /** The protocol knows this worker's default budget. */
    predicate Configured() {
      env.minDefault <= maxRuntime <= env.maxDefault
    }

    method Ask() returns (ok: bool)
      modifies this`asked
      ensures asked == old(asked) + 1 && ok == works(old(asked))
    {
      ok := works(asked);
      asked := asked + 1;
    }

    /** Any number of steps of clients, reapers, other workers and running children, and
        perhaps a shutdown signal. */
    method Others()
      requires Reachable(env, sys)
      modifies this`sys, this`requested, this`periodic
      ensures Reachable(env, sys) && OthersRan(me, old(sys.runs), sys.runs) && (old(requested) ==> requested)
      ensures LocksFrom(me, old(periodic), periodic, None)
    {
      hide Reachable, Enabled, Apply, Foreign;
      var signalled: bool := *;
      requested := requested || signalled;
      var schedules: map<nat, Entry> := *;
      if LocksFrom(me, periodic, schedules, None) {
        periodic := schedules;
      }
      var n: nat := *;
      while n > 0
        invariant Reachable(env, sys) && OthersRan(me, old(sys.runs), sys.runs) && (old(requested) ==> requested)
        invariant LocksFrom(me, old(periodic), periodic, None)
      {
        var step: Step := *;
        if Enabled(env, sys, step) && Foreign(me, sys, step) {
          StepReachable(env, sys, step);
          ForeignStepRuns(env, sys, step, me);
          OthersCompose(me, old(sys.runs), sys.runs, Apply(env, sys, step).runs);
          sys := Apply(env, sys, step);
        }
        n := n - 1;
      }
    }

    static lemma OthersCompose(me: nat, a: seq<Run>, b: seq<Run>, c: seq<Run>)
      requires OthersRan(me, a, b) && OthersRan(me, b, c)
      ensures OthersRan(me, a, c)
    {
    }

    /** `os.pipe` and `os.fork`: the new pid and descriptor are unused, but may be ones used
        before. `limit` is how many children this worker may have at once. */
    method ForkChild(limit: nat) returns (pid: nat, fd: nat)
      requires |Unreaped(procs)| < limit
      modifies this`procs, this`peak
      ensures procs == old(procs) + [Proc(pid, fd, 0, 0)]
      ensures FreshProc(old(procs), pid, fd)
      ensures |Unreaped(procs)| == |Unreaped(old(procs))| + 1
      ensures peak == if old(peak) < |Unreaped(procs)| then |Unreaped(procs)| else old(peak)
    {
      pid := Unused(set p | p in procs :: p.pid);
      fd := Unused(set p | p in procs :: p.fd);
      var reused: bool := *;
      if reused {
        var pid': nat, fd': nat := *, *;
        if FreshProc(procs, pid', fd') {
          pid, fd := pid', fd';
        }
      }
      ghost var before := procs;
      procs := procs + [Proc(pid, fd, 0, 0)];
      assert Unreaped(procs) == Unreaped(before) + {|before|};
      var running := |Unreaped(procs)|;
      peak := if peak < running then running else peak;
    }

    static method Unused(used: set<nat>) returns (n: nat)
      ensures n !in used
    {
      n := 0;
      var rest := used;
      while rest != {}
        invariant forall k | k in used && k !in rest :: k < n
      {
        var k :| k in rest;
        n := if n <= k then k + 1 else n;
        rest := rest - {k};
      }
    }

    /** `os.wait4` on a child of ours not waited for, then `os.close` of its pipe, which is
        still open; both find the child of this slot. */
    method WaitAndClose(slot: Slot)
      requires Owns(procs, slot)
      modifies this`procs
      ensures procs == Reaped(old(procs), slot)
    {
      var s: nat :| s < |procs| && procs[s].pid == slot.pid && procs[s].waits == 0;
      procs := procs[s := procs[s].(waits := 1)];
      assert procs[slot.serial].closes == 0;
      s :| s < |procs| && procs[s].fd == slot.fd && procs[s].closes == 0;
      procs := procs[s := procs[s].(closes := 1)];
    }

    /** The query of the claim transaction; `locked` are the rows others hold at that moment. */
    method FindOneOff() returns (look: Look)
      modifies this`asked
      ensures asked == old(asked) + 1 && look.OneOffs? && look.at == old(asked)
      ensures look.rows == sys.table.rows && look.now == sys.now
      ensures look.started == (look.picked.Some? && works(asked)) && LookOk(look, works, priorities)
    {
      var locked: set<nat> := *;
      var at, rows, now := asked, sys.table.rows, sys.now;
      var ok := Ask();
      hide ClaimOrder.Best, ClaimOrder.Candidates, LookOk;
      ClaimOrder.BestExists(rows, now, priorities, locked);
      OneOffLookOk(rows, now, locked, at, works, priorities);
      if !ok || ClaimOrder.Candidates(rows, now, priorities, locked) == {} {
        return OneOffs(rows, now, locked, at, None, false);
      }
      var id :| id in rows && ClaimOrder.Best(rows, id, now, priorities, locked);
      look := OneOffs(rows, now, locked, at, Some(id), works(at + 1));
    }

    /** The claim transaction of `_claim_and_fork_one_off`. If it fails, nothing is claimed. */
    method ClaimOneOff() returns (run: Option<nat>, look: Look)
      requires Reachable(env, sys) && Configured()
      modifies this`sys, this`requested, this`periodic, this`asked
      ensures Reachable(env, sys) && (old(requested) ==> requested)
      ensures asked == old(asked) + 1 && LocksFrom(me, old(periodic), periodic, None)
      ensures look.OneOffs? && look.at == old(asked) && look.now == sys.now && (run.Some? <==> look.picked.Some?)
      ensures look.started == (look.picked.Some? && works(asked)) && LookOk(look, works, priorities)
      ensures run.None? ==> KeptBut(me, old(sys.runs), sys.runs, None) && look.rows == sys.table.rows
      ensures run.None? && works(old(asked)) ==> forall id | id in sys.table.rows && id !in look.locked ::
                var row := sys.table.rows[id];
                || row.status != Pending || sys.now < row.spec.runAt
                || (priorities != {} && row.spec.priority !in priorities)
      ensures run.Some? ==>
                && |sys.runs| == run.value + 1 && KeptBut(me, old(sys.runs), sys.runs[..run.value], None)
                && look.picked.value in look.rows
                && var r, row := sys.runs[run.value], look.rows[look.picked.value];
                && r.worker == me && r.row == look.picked.value && r.token == sys.now && r.spec == row.spec
                && Starting(r)
                && r.budget == (if row.spec.maxRuntime.Some? then row.spec.maxRuntime.value else maxRuntime)
                && sys.table.rows ==
                   look.rows[r.row := row.(status := Running, startedAt := Some(sys.now), attempts := 1)]
    {
      hide Reachable, KeptBut, OthersRan, Inv, LookOk, LocksFrom, Apply;
      ghost var before := sys.runs;
      Others();
      OthersKeep(me, before, sys.runs, None);
      look := FindOneOff();
      if look.picked.None? {
        if works(look.at) {
          NothingWaits(look);
        }
        return None, look;
      }
      PickedIsEnabled(look);
      ReachableKeeps(env, sys);
      ClaimChanges(look.picked.value);
      Fidelity.ClaimTakes(env, sys, me, look.picked.value, maxRuntime);
      StepReachable(env, sys, Step.Claim(me, look.picked.value, maxRuntime));
      run := Some(|sys.runs|);
      sys := Apply(env, sys, Step.Claim(me, look.picked.value, maxRuntime));
    }

    lemma PickedIsEnabled(look: Look)
      requires Configured() && look.OneOffs? && look.picked.Some? && LookOk(look, works, priorities)
      requires look.rows == sys.table.rows && look.now == sys.now
      ensures Enabled(env, sys, Step.Claim(me, look.picked.value, maxRuntime))
    {
    }

    lemma NothingWaits(look: Look)
      requires look.OneOffs? && look.picked.None? && LookOk(look, works, priorities) && works(look.at)
      ensures forall id | id in look.rows && id !in look.locked ::
                var row := look.rows[id];
                || row.status != Pending || look.now < row.spec.runAt
                || (priorities != {} && row.spec.priority !in priorities)
    {
    }

    lemma ClaimChanges(id: nat)
      requires Enabled(env, sys, Step.Claim(me, id, maxRuntime))
      ensures Apply(env, sys, Step.Claim(me, id, maxRuntime)).now == sys.now
    {
    }

    /** `_finish_one_off`: the transaction commits, or its failure is logged and the result is
        never recorded. */
    method FinishOneOff(run: nat, status: Status, error: Option<string>)
      requires Reachable(env, sys) && Enabled(env, sys, Step.Finish(run, status, error))
      modifies this`sys, this`asked
      ensures Reachable(env, sys) && asked == old(asked) + 1
      ensures sys ==
              Apply(env, old(sys), if works(old(asked)) then Step.Finish(run, status, error) else Step.Abandon(run))
      ensures var duty := if works(old(asked)) then Finished else Abandoned;
              sys.runs == old(sys.runs)[run := old(sys.runs)[run].(duty := duty)]
    {
      hide Reachable;
      var commits := Ask();
      if commits {
        StepReachable(env, sys, Step.Finish(run, status, error));
        sys := Apply(env, sys, Step.Finish(run, status, error));
      } else {
        StepReachable(env, sys, Step.Abandon(run));
        sys := Apply(env, sys, Step.Abandon(run));
      }
    }

    /** The query of the claim transaction for schedules. */
    method FindSchedule() returns (look: Look)
      modifies this`asked
      ensures asked == old(asked) + 1 && look.Schedules? && look.at == old(asked)
      ensures look.entries == periodic && look.now == sys.now
      ensures look.started == (look.picked.Some? && works(asked)) && LookOk(look, works, priorities)
    {
      hide DueNow;
      var locked: set<nat> := *;
      var at, entries, now := asked, periodic, sys.now;
      var ok := Ask();
      if !ok || forall id | id in entries && id !in locked :: !DueNow(entries[id].row, now, priorities) {
        return Schedules(entries, now, locked, at, None, false);
      }
      var id :| id in entries && id !in locked && DueNow(entries[id].row, now, priorities);
      look := Schedules(entries, now, locked, at, Some(id), works(at + 1));
    }

    /** The claim transaction of `_claim_and_fork_periodic`, on some due schedule. */
    method ClaimPeriodic() returns (job: Option<Job>, look: Look)
      requires Reachable(env, sys)
      modifies this`sys, this`requested, this`periodic, this`asked
      ensures Reachable(env, sys) && (old(requested) ==> requested) && asked == old(asked) + 1
      ensures KeptBut(me, old(sys.runs), sys.runs, None)
      ensures LocksFrom(me, old(periodic), periodic, job)
      ensures look.Schedules? && look.at == old(asked) && look.now == sys.now && (job.Some? <==> look.picked.Some?)
      ensures look.started == (look.picked.Some? && works(asked)) && LookOk(look, works, priorities)
      ensures job.None? ==> periodic == look.entries
      ensures job.None? && works(old(asked)) ==> forall id | id in periodic && id !in look.locked ::
                var row := periodic[id].row;
                || !row.sched.active || sys.now < row.nextRun
                || (priorities != {} && row.sched.priority !in priorities)
                || (row.sched.maxConcurrent.Some? && row.lockedUntil.Some? && sys.now < row.lockedUntil.value)
      ensures job.Some? ==>
                && job.value.PeriodicJob? && look.picked == Some(job.value.id) && job.value.id in look.entries
                && var id, entry := job.value.id, look.entries[job.value.id];
                && entry.row.sched.active && entry.row.nextRun <= sys.now
                && (priorities != {} ==> entry.row.sched.priority in priorities)
                && job.value.limited == entry.row.sched.maxConcurrent.Some?
                && (job.value.limited && entry.row.lockedUntil.Some? ==> entry.row.lockedUntil.value <= sys.now)
                && exists tick: int :: sys.now < tick && periodic ==
                     look.entries[id := Entry(PeriodicTasks.ClaimedRow(entry.row, sys.now, maxRuntime, tick),
                                              if job.value.limited then me else entry.locker)]
    {
      hide Reachable, KeptBut, LookOk, LocksFrom, OthersRan;
      ghost var before, locks := sys.runs, periodic;
      Others();
      OthersKeep(me, before, sys.runs, None);
      look := FindSchedule();
      if look.picked.None? {
        if works(look.at) {
          NothingIsDue(look);
        }
        return None, look;
      }
      PickedIsDue(look);
      var id := look.picked.value;
      var entry := look.entries[id];
      var row := new PeriodicTasks.Periodic(entry.row);
      var tick: int :| sys.now < tick;
      var claimed := row.Claim(sys.now, maxRuntime, tick);
      var limited := row.sched.maxConcurrent.Some?;
      periodic := periodic[id := Entry(row.AsRow(), if limited then me else entry.locker)];
      job := Some(PeriodicJob(id, limited));
      LockTaken(me, locks, look.entries, id, periodic[id], limited);
    }

    lemma PickedIsDue(look: Look)
      requires look.Schedules? && look.picked.Some? && LookOk(look, works, priorities)
      ensures look.picked.value in look.entries && PeriodicTasks.Due(look.entries[look.picked.value].row, look.now)
      ensures priorities != {} ==> look.entries[look.picked.value].row.sched.priority in priorities
    {
    }

    lemma NothingIsDue(look: Look)
      requires look.Schedules? && look.picked.None? && LookOk(look, works, priorities) && works(look.at)
      ensures forall id | id in look.entries && id !in look.locked ::
                var row := look.entries[id].row;
                || !row.sched.active || look.now < row.nextRun
                || (priorities != {} && row.sched.priority !in priorities)
                || (row.sched.maxConcurrent.Some? && row.lockedUntil.Some? && look.now < row.lockedUntil.value)
    {
    }

    static lemma LockTaken(me: nat, a: map<nat, Entry>, b: map<nat, Entry>, id: nat, entry: Entry, limited: bool)
      requires LocksFrom(me, a, b, None) && id in b
      requires limited || (entry.locker == b[id].locker && entry.row.lockedUntil == b[id].row.lockedUntil)
      ensures LocksFrom(me, a, b[id := entry], Some(PeriodicJob(id, limited)))
    {
    }

    /** The `UPDATE` after a periodic run, or after it could not be started; a failure is only
        logged. It is not even tried for a schedule whose claim took no lock. */
    method ClearLock(id: nat, limited: bool)
      modifies this`periodic, this`stuck, this`asked
      ensures LocksFrom(me, old(periodic), periodic, None)
      ensures if !limited then
                periodic == old(periodic) && stuck == old(stuck) && asked == old(asked)
              else
                && asked == old(asked) + 1 && stuck == (if works(old(asked)) then old(stuck) else old(stuck) + {id})
                && periodic == if works(old(asked)) && id in old(periodic) then
                                 var entry := old(periodic)[id];
                                 old(periodic)[id := entry.(row := entry.row.(lockedUntil := None))]
                               else old(periodic)
    {
      if limited {
        var commits := Ask();
        if !commits {
          stuck := stuck + {id};
        } else if id in periodic {
          periodic := periodic[id := periodic[id].(row := periodic[id].row.(lockedUntil := None))];
        }
      }
    }

    /** Resolve the handler and fork; if anything goes wrong, the claim is closed as FAILED. */
    method StartRun(run: nat, limit: nat) returns (slot: Option<Slot>)
      requires Reachable(env, sys) && |Unreaped(procs)| < limit
      requires run < |sys.runs| && sys.runs[run].worker == me && Starting(sys.runs[run])
      modifies this`sys, this`requested, this`periodic, this`procs, this`peak, this`asked
      ensures Reachable(env, sys) && (old(requested) ==> requested)
      ensures LocksFrom(me, old(periodic), periodic, None)
      ensures KeptBut(me, old(sys.runs), sys.runs, Some(run))
      ensures slot.Some? <==> works(old(asked))
      ensures slot.None? ==>
                && procs == old(procs) && peak == old(peak) && asked == old(asked) + 2
                && sys.runs[run].child == NoStart
                && sys.runs[run].duty == if works(old(asked) + 1) then Finished else Abandoned
      ensures slot.Some? ==>
                && slot.value.job == OneOff(run) && OpenRun(me, sys.runs, run) && asked == old(asked) + 1
                && Started(old(procs), procs, slot.value) && PeakOk(old(peak), peak, limit)
    {
      hide Reachable, Started, FreshProc, LocksFrom;
      Others();
      var starts := Ask();
      if !starts {
        CloseUnstarted(run);
        return None;
      }
      var s := ForkSlot(OneOff(run), limit);
      StepReachable(env, sys, Step.Fork(run));
      sys := Apply(env, sys, Step.Fork(run));
      slot := Some(s);
    }

    method CloseUnstarted(run: nat)
      requires Reachable(env, sys) && run < |sys.runs| && sys.runs[run].worker == me && Starting(sys.runs[run])
      modifies this`sys, this`asked
      ensures Reachable(env, sys) && KeptBut(me, old(sys.runs), sys.runs, Some(run)) && asked == old(asked) + 1
      ensures sys.runs[run].child == NoStart && sys.runs[run].duty == if works(old(asked)) then Finished else Abandoned
    {
      hide Reachable;
      StepReachable(env, sys, Step.ForkFailed(run));
      sys := Apply(env, sys, Step.ForkFailed(run));
      FinishOneOff(run, Failed, Some("Error starting task"));
    }

    static predicate PeakOk(before: nat, after: nat, limit: nat) {
      before <= limit ==> after <= limit
    }

    static predicate Started(procs: seq<Proc>, procs': seq<Proc>, slot: Slot) {
      procs' == procs + [Proc(slot.pid, slot.fd, 0, 0)] && slot.serial == |procs| && FreshProc(procs, slot.pid, slot.fd)
    }

    method ForkSlot(job: Job, limit: nat) returns (slot: Slot)
      requires |Unreaped(procs)| < limit
      modifies this`procs, this`peak
      ensures slot.job == job && Started(old(procs), procs, slot) && PeakOk(old(peak), peak, limit)
    {
      var serial := |procs|;
      var pid, fd := ForkChild(limit);
      slot := Slot(pid, fd, serial, job);
    }

    /** `_claim_and_fork_one_off`. */
    method TryOneOff(limit: nat) returns (slot: Option<Slot>)
      requires Reachable(env, sys) && Configured() && |Unreaped(procs)| < limit && LooksOk(looks, works, priorities)
      modifies this`sys, this`requested, this`periodic, this`procs, this`peak, this`asked, this`looks
      ensures Reachable(env, sys) && (old(requested) ==> requested) && LooksOk(looks, works, priorities)
      ensures |looks| == |old(looks)| + 1 && looks[..|old(looks)|] == old(looks)
      ensures looks[|old(looks)|].OneOffs? && (slot.Some? <==> looks[|old(looks)|].started)
      ensures LocksFrom(me, old(periodic), periodic, None)
      ensures Claimed(me, old(sys.runs), sys.runs, if slot.Some? then Some(slot.value.job) else None)
      ensures slot.None? ==> procs == old(procs) && peak == old(peak)
      ensures slot.Some? ==>
                slot.value.job.OneOff? && Started(old(procs), procs, slot.value) && PeakOk(old(peak), peak, limit)
    {
      hide Reachable, Started, Unreaped, LookOk, KeptBut, LocksFrom;
      ghost var before, locks := sys.runs, periodic;
      var run, look := ClaimOneOff();
      looks := looks + [look];
      ghost var claimed, middle := sys.runs, periodic;
      if run.None? {
        KeptIsClaimed(me, before, sys.runs);
        return None;
      }
      slot := StartRun(run.value, limit);
      ClaimedRun(me, before, claimed, sys.runs, run.value, slot);
      LocksCompose(me, locks, middle, periodic, {}, None);
    }

    static lemma ClaimedRun(me: nat, before: seq<Run>, claimed: seq<Run>, after: seq<Run>, run: nat, slot: Option<Slot>)
      requires |claimed| == run + 1 && KeptBut(me, before, claimed[..run], None) && claimed[run].worker == me
      requires KeptBut(me, claimed, after, Some(run))
      requires slot.None? ==> after[run].duty != Watching
      requires slot.Some? ==> slot.value.job == OneOff(run) && OpenRun(me, after, run)
      ensures Claimed(me, before, after, if slot.Some? then Some(slot.value.job) else None)
    {
      assert forall i | 0 <= i < run :: claimed[..run][i] == claimed[i];
    }

    static lemma LocksCompose(me: nat, a: map<nat, Entry>, b: map<nat, Entry>, c: map<nat, Entry>,
                              stuck: set<nat>, job: Option<Job>)
      requires LocksFrom(me, a, b, None) && (LocksFrom(me, b, c, None) || b == c)
      ensures LocksFrom(me, a, c, job) && LocksBut(me, a, c, stuck)
    {
    }

    /** `_claim_and_fork_periodic`: if the child cannot be started, the lock is cleared. */
    method TryPeriodic(limit: nat) returns (slot: Option<Slot>)
      requires Reachable(env, sys) && |Unreaped(procs)| < limit && LooksOk(looks, works, priorities)
      modifies this`sys, this`requested, this`periodic, this`stuck, this`procs, this`peak, this`asked, this`looks
      ensures Reachable(env, sys) && (old(requested) ==> requested) && old(stuck) <= stuck
      ensures LooksOk(looks, works, priorities)
      ensures |looks| == |old(looks)| + 1 && looks[..|old(looks)|] == old(looks)
      ensures looks[|old(looks)|].Schedules? && (slot.Some? <==> looks[|old(looks)|].started)
      ensures KeptBut(me, old(sys.runs), sys.runs, None)
      ensures slot.None? ==> procs == old(procs) && peak == old(peak)
      ensures slot.None? ==> LocksBut(me, old(periodic), periodic, stuck)
      ensures slot.Some? ==> LocksFrom(me, old(periodic), periodic, Some(slot.value.job)) && slot.value.job.PeriodicJob?
      ensures slot.Some? ==> Started(old(procs), procs, slot.value) && PeakOk(old(peak), peak, limit)
    {
      hide Reachable, Started, Unreaped, LookOk, PeriodicTasks.ClaimedRow;
      var job, look := ClaimPeriodic();
      looks := looks + [look];
      if job.None? {
        return None;
      }
      var starts := Ask();
      if !starts {
        ClearLock(job.value.id, job.value.limited);
        return None;
      }
      var s := ForkSlot(job.value, limit);
      slot := Some(s);
    }

    /** `_try_claim_and_fork`: a one-off task first, then a periodic one. Without a slot, both
        were tried in vain. */
    method TryClaimAndFork(limit: nat) returns (slot: Option<Slot>)
      requires Reachable(env, sys) && Configured() && |Unreaped(procs)| < limit && LooksOk(looks, works, priorities)
      modifies this`sys, this`requested, this`periodic, this`stuck, this`procs, this`peak, this`asked, this`looks
      ensures Reachable(env, sys) && (old(requested) ==> requested) && old(stuck) <= stuck
      ensures LooksOk(looks, works, priorities)
      ensures |old(looks)| < |looks| && looks[..|old(looks)|] == old(looks) && looks[|old(looks)|].OneOffs?
      ensures looks[|old(looks)|].started <==> |looks| == |old(looks)| + 1
      ensures slot.Some? <==> looks[|looks| - 1].started
      ensures slot.None? ==> |looks| == |old(looks)| + 2 && TriedInVain(looks)
      ensures Claimed(me, old(sys.runs), sys.runs, if slot.Some? then Some(slot.value.job) else None)
      ensures slot.None? ==> procs == old(procs) && peak == old(peak)
      ensures slot.None? ==> LocksBut(me, old(periodic), periodic, stuck)
      ensures slot.Some? ==> LocksFrom(me, old(periodic), periodic, Some(slot.value.job))
      ensures slot.Some? ==> Started(old(procs), procs, slot.value) && PeakOk(old(peak), peak, limit)
    {
      hide Reachable, Started, Unreaped, LooksOk, KeptBut, Claimed, LocksFrom, LocksBut;
      ghost var before, locks := sys.runs, periodic;
      slot := TryOneOff(limit);
      ghost var seen := looks;
      if slot.Some? {
        LocksCompose(me, locks, periodic, periodic, stuck, Some(slot.value.job));
        return;
      }
      ghost var started, middle := sys.runs, periodic;
      slot := TryPeriodic(limit);
      assert looks[..|seen|][|seen| - 1] == seen[|seen| - 1] && looks[..|seen|] == seen;
      ClaimedThenKept(me, before, started, sys.runs, if slot.Some? then Some(slot.value.job) else None);
      LocksThrough(me, locks, middle, periodic, stuck, if slot.Some? then Some(slot.value.job) else None);
    }

    static lemma LocksThrough(me: nat, a: map<nat, Entry>, b: map<nat, Entry>, c: map<nat, Entry>,
                              stuck: set<nat>, job: Option<Job>)
      requires LocksFrom(me, a, b, None)
      ensures LocksFrom(me, b, c, job) ==> LocksFrom(me, a, c, job)
      ensures LocksBut(me, b, c, stuck) ==> LocksBut(me, a, c, stuck)
    {
    }

    /** `_reap_and_update`: wait for the child, then record the end of its run, or clear the lock
        of its schedule. */
    method ReapAndUpdate(slot: Slot)
      requires Reachable(env, sys) && Owns(procs, slot)
      requires slot.job.OneOff? ==> OpenRun(me, sys.runs, slot.job.run)
      modifies this`sys, this`requested, this`periodic, this`stuck, this`procs, this`asked
      ensures Reachable(env, sys) && (old(requested) ==> requested)
      ensures procs == Reaped(old(procs), slot)
      ensures LocksFrom(me, old(periodic), periodic, None)
      ensures match slot.job
              case OneOff(i) =>
                && KeptBut(me, old(sys.runs), sys.runs, Some(i)) && sys.runs[i].child.Dead? && stuck == old(stuck)
                && asked == old(asked) + 1 && sys.runs[i].duty == if works(old(asked)) then Finished else Abandoned
              case PeriodicJob(id, limited) =>
                && KeptBut(me, old(sys.runs), sys.runs, None)
                && stuck == (if limited && !works(old(asked)) then old(stuck) + {id} else old(stuck))
                && (limited && works(old(asked)) && id in periodic ==> periodic[id].row.lockedUntil.None?)
    {
      hide Reachable, Owns, LocksFrom;
      ghost var locks := periodic;
      Others();
      WaitAndClose(slot);
      match slot.job {
        case OneOff(run) =>
          ReportRun(run);
        case PeriodicJob(id, limited) =>
          ghost var middle := periodic;
          ClearLock(id, limited);
          LocksCompose(me, locks, middle, periodic, stuck, None);
      }
    }

    /** Report the status the child exited with. */
    method ReportRun(run: nat)
      requires Reachable(env, sys) && OpenRun(me, sys.runs, run)
      modifies this`sys, this`asked
      ensures Reachable(env, sys) && KeptBut(me, old(sys.runs), sys.runs, Some(run)) && asked == old(asked) + 1
      ensures sys.runs[run].child.Dead? && sys.runs[run].duty == if works(old(asked)) then Finished else Abandoned
    {
      hide Reachable;
      var raw: Drain.WaitStatus := *;
      var killedByDrain: bool := *;
      raw := ChildExits(run, raw);
      var result := Drain.Decode(raw, killedByDrain);
      FinishOneOff(run, result.status, if result.status == Completed then None else Some("Task failed"));
    }

    /** The child is gone by the time `os.wait4` returns, with the status it reports. */
    method ChildExits(run: nat, proposed: Drain.WaitStatus) returns (raw: Drain.WaitStatus)
      requires Reachable(env, sys) && OpenRun(me, sys.runs, run)
      modifies this`sys
      ensures Reachable(env, sys) && KeptBut(me, old(sys.runs), sys.runs, None)
      ensures OpenRun(me, sys.runs, run) && sys.runs[run].child == Dead(raw == Drain.Exited(0))
    {
      hide Reachable;
      raw := proposed;
      if sys.runs[run].child.Alive? {
        StepReachable(env, sys, Step.Exit(run, raw == Drain.Exited(0)));
        sys := Apply(env, sys, Step.Exit(run, raw == Drain.Exited(0)));
      } else if sys.runs[run].child.ok {
        raw := Drain.Exited(0);
      } else if raw == Drain.Exited(0) {
        raw := Drain.Exited(1);
      }
    }

    // ---------- what a loop leaves behind ----------

    /** No row is RUNNING with a claim of this worker, but for those whose result could not be
        written. */
    ghost predicate NoOrphans()
      reads this
    {
      forall i, id | 0 <= i < |sys.runs| && sys.runs[i].worker == me && sys.runs[i].duty != Abandoned
                     && id in sys.table.rows && sys.table.rows[id].status == Running ::
        sys.table.rows[id].spec.version != sys.runs[i].version
    }

    /** No schedule is locked by a claim of this worker, but for those whose lock could not be
        cleared. */
    predicate NoLocks()
      reads this
    {
      forall id | id in periodic && Mine(me, periodic[id]) :: id in stuck
    }

    /** Every child was waited for, and its pipe closed, exactly once. */
    predicate AllWaitedFor()
      reads this
    {
      forall s | 0 <= s < |procs| :: procs[s].waits == 1 && procs[s].closes == 1
    }

    /** The end of every claim was reported, or its write was tried and failed. */
    predicate AllReported()
      reads this
    {
      forall i | 0 <= i < |sys.runs| && sys.runs[i].worker == me :: sys.runs[i].duty != Watching
    }

    lemma ReportedLeavesNoOrphans()
      requires Reachable(env, sys) && AllReported()
      ensures NoOrphans()
    {
      hide Reachable;
      forall i, id | 0 <= i < |sys.runs| && sys.runs[i].worker == me && sys.runs[i].duty != Abandoned
                     && id in sys.table.rows && sys.table.rows[id].status == Running
        ensures sys.table.rows[id].spec.version != sys.runs[i].version
      {
        Guarantees.NoOrphanedRow(env, sys, i, id);
      }
    }

    /** Nothing is in flight, and nothing was left behind. */
    ghost predicate Clean()
      reads this
    {
      Reachable(env, sys) && AllWaitedFor() && AllReported() && NoOrphans() && NoLocks()
    }

    lemma EmptyIsClean(fdToPid: map<nat, nat>, limit: nat)
      requires Good(map[], fdToPid, limit)
      ensures Clean() && peak <= limit && LooksOk(looks, works, priorities)
    {
      hide Reachable, Mirrored, NoOrphans, LooksOk;
      ReportedLeavesNoOrphans();
    }

    /** A worker that has not started yet. */
    ghost predicate Idle()
      reads this
    {
      && Reachable(env, sys) && Configured() && procs == [] && peak == 0 && looks == [] && rounds == 0 && !requested
      && (forall i | 0 <= i < |sys.runs| :: sys.runs[i].worker != me)
      && (forall id | id in periodic :: !Mine(me, periodic[id]))
    }

    /** What holds between any two events of the loop. */
    ghost predicate Good(children: map<nat, Slot>, fdToPid: map<nat, nat>, limit: nat)
      reads this
    {
      && Reachable(env, sys) && Configured()
      && Books(procs, children, fdToPid)
      && Jobs(me, sys.runs, children)
      && Locks(me, periodic, stuck, children)
      && LooksOk(looks, works, priorities)
      && |children| <= limit && peak <= limit
    }

    // ---------- the loop ----------

    /** Step 1: fill the empty slots. It ends only on a shutdown, with all slots full, or when the
        last try went through both tables in vain. */
    method FillSlots(concurrency: nat, children0: map<nat, Slot>, fdToPid0: map<nat, nat>)
      returns (children: map<nat, Slot>, fdToPid: map<nat, nat>)
      requires Good(children0, fdToPid0, concurrency)
      modifies this`sys, this`requested, this`periodic, this`stuck, this`procs, this`peak, this`asked, this`looks
      ensures Good(children, fdToPid, concurrency) && (old(requested) ==> requested)
      ensures requested || |children| == concurrency || (|old(looks)| + 2 <= |looks| && TriedInVain(looks))
      ensures |children0| <= |children|
    {
      hide Reachable, Mirrored, Accounted, Jobs, Claimed, Unreaped, Locks, LocksFrom, LocksBut, LooksOk;
      children, fdToPid := children0, fdToPid0;
      while |children| < concurrency && !requested
        invariant Good(children, fdToPid, concurrency) && (old(requested) ==> requested) && |old(looks)| <= |looks|
        invariant |children0| <= |children|
        decreases concurrency - |children|
      {
        ghost var runs, before, locks, failed := sys.runs, procs, periodic, stuck;
        var slot := TryClaimAndFork(concurrency);
        if slot.None? {
          NoJobStarts(me, runs, sys.runs, children);
          LocksStay(me, locks, periodic, failed, stuck, children);
          break;
        }
        BooksAdd(before, children, fdToPid, slot.value);
        JobStarts(me, runs, sys.runs, children, slot.value);
        LocksStart(me, locks, periodic, failed, stuck, children, slot.value);
        children := children[slot.value.pid := slot.value];
        fdToPid := fdToPid[slot.value.fd := slot.value.pid];
      }
    }

    /** Pop a slot off both dictionaries and reap it. */
    method ReapSlot(pid: nat, children0: map<nat, Slot>, fdToPid0: map<nat, nat>, ghost limit: nat)
      returns (children: map<nat, Slot>, fdToPid: map<nat, nat>)
      requires Good(children0, fdToPid0, limit) && pid in children0
      modifies this`sys, this`requested, this`periodic, this`stuck, this`procs, this`asked
      ensures children == children0 - {pid} && fdToPid == fdToPid0 - {children0[pid].fd}
      ensures Good(children, fdToPid, limit) && (old(requested) ==> requested)
    {
      hide Reachable, KeptBut, Accounted, Mirrored, Owns, Reaped, Unreaped, Locks, LocksFrom, LooksOk;
      var slot := children0[pid];
      children, fdToPid := children0 - {pid}, fdToPid0 - {slot.fd};
      BooksOwn(procs, children0, fdToPid0, pid);
      BooksRemove(procs, children0, fdToPid0, pid);
      ghost var runs, locks, failed := sys.runs, periodic, stuck;
      ReapAndUpdate(slot);
      JobEnds(me, runs, sys.runs, children0, pid);
      LocksEnd(me, locks, periodic, failed, stuck, children0, pid);
    }

    /** Reap the child behind a pipe. */
    method ReapPipe(fd: nat, children0: map<nat, Slot>, fdToPid0: map<nat, nat>, ghost limit: nat)
      returns (children: map<nat, Slot>, fdToPid: map<nat, nat>)
      requires Good(children0, fdToPid0, limit) && fd in fdToPid0
      modifies this`sys, this`requested, this`periodic, this`stuck, this`procs, this`asked
      ensures Good(children, fdToPid, limit) && (old(requested) ==> requested)
      ensures fdToPid == fdToPid0 - {fd} && |children| == |children0| - 1
    {
      hide Reachable, Books, Jobs, Locks, LooksOk;
      SlotOfPipe(procs, children0, fdToPid0, fd);
      children, fdToPid := ReapSlot(fdToPid0[fd], children0, fdToPid0, limit);
    }

    /** Step 2: the pipes that `select` found readable are gone from the dictionary, and only they. */
    method ReapReady(ready: set<nat>, children0: map<nat, Slot>, fdToPid0: map<nat, nat>, ghost limit: nat)
      returns (children: map<nat, Slot>, fdToPid: map<nat, nat>)
      requires Good(children0, fdToPid0, limit) && ready <= fdToPid0.Keys
      modifies this`sys, this`requested, this`periodic, this`stuck, this`procs, this`asked
      ensures Good(children, fdToPid, limit) && (old(requested) ==> requested)
      ensures fdToPid.Keys == fdToPid0.Keys - ready && |children| == |children0| - |ready|
    {
      hide Good;
      children, fdToPid := children0, fdToPid0;
      var todo := ready;
      while todo != {}
        invariant Good(children, fdToPid, limit) && (old(requested) ==> requested)
        invariant todo <= ready && fdToPid.Keys == fdToPid0.Keys - (ready - todo)
        invariant |children| - |todo| == |children0| - |ready|
      {
        var fd :| fd in todo;
        OneMoreGone(fdToPid0.Keys, ready, todo, fd);
        todo := todo - {fd};
        children, fdToPid := ReapPipe(fd, children, fdToPid, limit);
      }
    }

    static lemma OneMoreGone(all: set<nat>, ready: set<nat>, todo: set<nat>, fd: nat)
      requires fd in todo && todo <= ready
      ensures all - (ready - todo) - {fd} == all - (ready - (todo - {fd}))
    {
    }

    /** `_maybe_run_cleanup`: bulk deletes like anybody else's. It may raise. */
    method MaybeRunCleanup() returns (raised: bool)
      requires Reachable(env, sys)
      modifies this`sys, this`requested, this`periodic, this`asked
      ensures Reachable(env, sys) && OthersRan(me, old(sys.runs), sys.runs) && (old(requested) ==> requested)
      ensures LocksFrom(me, old(periodic), periodic, None)
      ensures asked == old(asked) + 1 && raised == !works(old(asked))
    {
      Others();
      var done := Ask();
      raised := !done;
    }

    /** Maintenance between two rounds changes nothing of this worker's. */
    method Maintain(children: map<nat, Slot>, fdToPid: map<nat, nat>, ghost limit: nat) returns (raised: bool)
      requires Good(children, fdToPid, limit)
      modifies this`sys, this`requested, this`periodic, this`asked
      ensures Good(children, fdToPid, limit) && (old(requested) ==> requested)
      ensures asked == old(asked) + 1 && raised == !works(old(asked))
    {
      hide Reachable, Mirrored, Accounted, Jobs, Unreaped, Locks, LocksFrom, LocksBut, LooksOk;
      ghost var runs, locks := sys.runs, periodic;
      raised := MaybeRunCleanup();
      OthersKeep(me, runs, sys.runs, None);
      KeptIsClaimed(me, runs, sys.runs);
      NoJobStarts(me, runs, sys.runs, children);
      LocksCompose(me, locks, periodic, periodic, stuck, None);
      LocksStay(me, locks, periodic, stuck, stuck, children);
    }

    // ---------- one at a time ----------

    /** Wait for the only child and record the end of its run. */
    method ReapOnly(slot: Slot, ghost runs: seq<Run>, ghost before: seq<Proc>, ghost locks: map<nat, Entry>,
                    ghost failed: set<nat>)
      requires Reachable(env, sys) && Configured() && LooksOk(looks, works, priorities) && peak <= 1
      requires Books(before, map[], map[]) && Jobs(me, runs, map[]) && Locks(me, locks, failed, map[])
      requires Started(before, procs, slot) && Claimed(me, runs, sys.runs, Some(slot.job))
      requires LocksFrom(me, locks, periodic, Some(slot.job)) && failed <= stuck
      modifies this`sys, this`requested, this`periodic, this`stuck, this`procs, this`asked
      ensures Good(map[], map[], 1) && (old(requested) ==> requested)
    {
      hide Reachable, Mirrored, Accounted, Jobs, Claimed, Unreaped, FreshProc, Locks, LocksFrom, LooksOk;
      BooksAdd(before, map[], map[], slot);
      JobStarts(me, runs, sys.runs, map[], slot);
      LocksStart(me, locks, periodic, failed, stuck, map[], slot);
      var children, fdToPid := map[slot.pid := slot], map[slot.fd := slot.pid];
      assert map[][slot.pid := slot] == children && map[][slot.fd := slot.pid] == fdToPid;
      var rest, pids := ReapSlot(slot.pid, children, fdToPid, 1);
      assert rest == map[] && pids == map[];
    }

    /** `_process_one_off_task`: true if a row was claimed, whether or not its child started. */
    method ProcessOneOff() returns (processed: bool)
      requires Good(map[], map[], 1)
      modifies this`sys, this`requested, this`periodic, this`stuck, this`procs, this`peak, this`asked, this`looks
      ensures Good(map[], map[], 1) && (old(requested) ==> requested)
      ensures |looks| == |old(looks)| + 1 && looks[..|old(looks)|] == old(looks)
      ensures looks[|old(looks)|].OneOffs? && processed == looks[|old(looks)|].picked.Some?
    {
      hide Reachable, Mirrored, Accounted, Jobs, Unreaped, Locks, LocksFrom, LocksBut, LooksOk, Claimed;
      ghost var runs, before, locks, failed := sys.runs, procs, periodic, stuck;
      var slot := TryOneOff(1);
      processed := looks[|looks| - 1].picked.Some?;
      if slot.Some? {
        LocksCompose(me, locks, periodic, periodic, stuck, Some(slot.value.job));
        ReapOnly(slot.value, runs, before, locks, failed);
      } else {
        NoJobStarts(me, runs, sys.runs, map[]);
        LocksCompose(me, locks, periodic, periodic, stuck, None);
        LocksStay(me, locks, periodic, failed, stuck, map[]);
      }
    }

    /** `_process_periodic_task`. */
    method ProcessPeriodic() returns (processed: bool)
      requires Good(map[], map[], 1)
      modifies this`sys, this`requested, this`periodic, this`stuck, this`procs, this`peak, this`asked, this`looks
      ensures Good(map[], map[], 1) && (old(requested) ==> requested)
      ensures |looks| == |old(looks)| + 1 && looks[..|old(looks)|] == old(looks)
      ensures looks[|old(looks)|].Schedules? && processed == looks[|old(looks)|].picked.Some?
    {
      hide Reachable, Mirrored, Accounted, Jobs, Unreaped, Locks, LocksFrom, LocksBut, LooksOk, Claimed;
      ghost var runs, before, locks, failed := sys.runs, procs, periodic, stuck;
      var slot := TryPeriodic(1);
      processed := looks[|looks| - 1].picked.Some?;
      KeptIsClaimed(me, runs, runs);
      ClaimedThenKept(me, runs, runs, sys.runs, if slot.Some? then Some(slot.value.job) else None);
      if slot.Some? {
        ReapOnly(slot.value, runs, before, locks, failed);
      } else {
        NoJobStarts(me, runs, sys.runs, map[]);
        LocksStay(me, locks, periodic, failed, stuck, map[]);
      }
    }

    /** `run_worker_once`: one look for a one-off task, and only if none was claimed one for a
        schedule. */
    method RunWorkerOnce() returns (processed: bool)
      requires Good(map[], map[], 1)
      modifies this`sys, this`requested, this`periodic, this`stuck, this`procs, this`peak, this`asked, this`looks
      ensures Good(map[], map[], 1) && (old(requested) ==> requested)
      ensures |old(looks)| < |looks| && looks[..|old(looks)|] == old(looks) && looks[|old(looks)|].OneOffs?
      ensures if looks[|old(looks)|].picked.Some? then
                |looks| == |old(looks)| + 1
              else
                |looks| == |old(looks)| + 2 && looks[|old(looks)| + 1].Schedules?
      ensures processed == looks[|looks| - 1].picked.Some?
    {
      hide Good;
      processed := ProcessOneOff();
      if !processed {
        ghost var seen := looks;
        processed := ProcessPeriodic();
        assert looks[..|seen|][|seen| - 1] == seen[|seen| - 1] && looks[..|seen| - 1] == seen[..|seen| - 1];
      }
    }

    /** One turn of the sequential loop: maintenance only if there was nothing to do. */
    method Turn() returns (raised: bool)
      requires Good(map[], map[], 1)
      modifies this`sys, this`requested, this`periodic, this`stuck, this`procs, this`peak, this`asked, this`looks,
               this`rounds
      ensures Good(map[], map[], 1) && rounds == old(rounds) + 1
      ensures |old(looks)| < |looks| && looks[..|old(looks)|] == old(looks)
      ensures looks[|looks| - 1].picked.Some? ==> !raised
      ensures raised || (!requested && looks[|looks| - 1].picked.None?) ==> 0 < asked && raised == !works(asked - 1)
    {
      hide Good;
      CountRound(map[], map[], 1);
      var processed := RunWorkerOnce();
      raised := false;
      if !processed {
        raised := MaintainUnlessRequested(map[], map[], 1);
      }
    }

    /** The loop of `run_worker` with `concurrency` 1, for up to `limit` turns. It goes on until a
        shutdown or an exception from the cleanup; and however it ends, nothing is left. */
    method RunSequential(limit: nat) returns (raised: bool)
      requires Idle()
      modifies this
      ensures Clean() && peak <= 1 && LooksOk(looks, works, priorities)
      ensures raised || requested || rounds == limit
      ensures rounds <= |looks| && (raised ==> 0 < asked && !works(asked - 1))
    {
      hide Good, Clean, Reachable;
      IdleIsGood(1);
      raised := false;
      while !requested && rounds < limit && !raised
        invariant Good(map[], map[], 1) && rounds <= |looks| && rounds <= limit
        invariant raised ==> 0 < asked && !works(asked - 1)
        decreases limit - rounds
      {
        raised := Turn();
      }
      EmptyIsClean(map[], 1);
    }

    lemma IdleIsGood(limit: nat)
      requires Idle()
      ensures Good(map[], map[], limit) && rounds == |looks| == 0
    {
      hide Reachable;
    }

    // ---------- several at a time ----------

    /** One round of `_run_concurrent`: fill the slots, reap what `select` found readable, and do
        the maintenance unless a shutdown was requested. `filled` children ran in
        between, and `ready` are the pipes that became readable. */
    method Round(concurrency: nat, children0: map<nat, Slot>, fdToPid0: map<nat, nat>)
      returns (children: map<nat, Slot>, fdToPid: map<nat, nat>, raised: bool, filled: nat, ready: set<nat>)
      requires Good(children0, fdToPid0, concurrency)
      modifies this`sys, this`requested, this`periodic, this`stuck, this`procs, this`peak, this`asked, this`looks,
               this`rounds
      ensures Good(children, fdToPid, concurrency) && rounds == old(rounds) + 1
      ensures requested || filled == concurrency || (|old(looks)| + 2 <= |looks| && TriedInVain(looks))
      ensures |children0| <= filled && |children| + |ready| == filled && ready !! fdToPid.Keys
      ensures raised || !requested ==> 0 < asked && raised == !works(asked - 1)
    {
      hide Good, TriedInVain;
      CountRound(children0, fdToPid0, concurrency);
      children, fdToPid := FillSlots(concurrency, children0, fdToPid0);
      filled := |children|;
      ready := Select(fdToPid.Keys);
      children, fdToPid := ReapReady(ready, children, fdToPid, concurrency);
      raised := MaintainUnlessRequested(children, fdToPid, concurrency);
    }

    /** Maintenance is skipped once a shutdown was requested. */
    method MaintainUnlessRequested(children: map<nat, Slot>, fdToPid: map<nat, nat>, ghost limit: nat)
      returns (raised: bool)
      requires Good(children, fdToPid, limit)
      modifies this`sys, this`requested, this`periodic, this`asked
      ensures Good(children, fdToPid, limit) && (old(requested) ==> requested)
      ensures asked == (if old(requested) then old(asked) else old(asked) + 1)
      ensures raised <==> !old(requested) && !works(old(asked))
    {
      hide Good;
      raised := false;
      if !requested {
        raised := Maintain(children, fdToPid, limit);
      }
    }

    /** `select` on the error pipes. */
    static method Select(fds: set<nat>) returns (ready: set<nat>)
      ensures ready <= fds
    {
      var readable: set<nat> := *;
      ready := readable * fds;
    }

    method CountRound(ghost children: map<nat, Slot>, ghost fdToPid: map<nat, nat>, ghost limit: nat)
      requires Good(children, fdToPid, limit)
      modifies this`rounds
      ensures Good(children, fdToPid, limit) && rounds == old(rounds) + 1
    {
      hide Reachable, Books, Jobs, Locks, LooksOk;
      rounds := rounds + 1;
    }

    /** `_run_concurrent` from an idle worker, for up to `limit` rounds: it goes on until a shutdown
        or an exception from the cleanup, with at most `concurrency` children ever
        running at once. In the end every child was waited for and its pipe closed
        exactly once, every claim reported, and no row is RUNNING or schedule locked by
        one of them. Only that exception skips the drain; then exactly the children
        still in the dictionary are left. */
    method RunConcurrent(concurrency: nat, limit: nat) returns (raised: bool, children: map<nat, Slot>)
      requires Idle()
      modifies this
      ensures peak <= concurrency && LooksOk(looks, works, priorities)
      ensures raised || requested || rounds == limit
      ensures raised ==> 0 < asked && !works(asked - 1)
      ensures !raised ==> children == map[]
      ensures children == map[] ==> Clean()
      ensures forall s | 0 <= s < |procs| :: (procs[s].waits, procs[s].closes) in {(0, 0), (1, 1)}
      ensures |Unreaped(procs)| == |children|
      ensures forall pid | pid in children :: Owns(procs, children[pid])
    {
      hide Good, Clean, Owns, LooksOk;
      var fdToPid: map<nat, nat>;
      children, fdToPid, raised := map[], map[], false;
      IdleIsGood(concurrency);
      while !requested && rounds < limit
        invariant Good(children, fdToPid, concurrency) && !raised && rounds <= limit
        decreases limit - rounds
      {
        var filled, ready;
        children, fdToPid, raised, filled, ready := Round(concurrency, children, fdToPid);
        if raised {
          OpenAreInSlots(children, fdToPid, concurrency);
          return;
        }
      }
      children, fdToPid := DrainSlots(children, fdToPid, concurrency);
      OpenAreInSlots(children, fdToPid, concurrency);
    }

    /** The drain after the loop: reap every child that is left. */
    method DrainSlots(children0: map<nat, Slot>, fdToPid0: map<nat, nat>, ghost limit: nat)
      returns (children: map<nat, Slot>, fdToPid: map<nat, nat>)
      requires Good(children0, fdToPid0, limit)
      modifies this`sys, this`requested, this`periodic, this`stuck, this`procs, this`asked
      ensures Good(children, fdToPid, limit) && children == map[] && (old(requested) ==> requested)
    {
      hide Reachable, Books, Jobs, Locks, LooksOk;
      children, fdToPid := children0, fdToPid0;
      while children != map[]
        invariant Good(children, fdToPid, limit) && (old(requested) ==> requested)
        decreases |children|
      {
        var pid :| pid in children;
        children, fdToPid := ReapSlot(pid, children, fdToPid, limit);
      }
    }

    /** The children not waited for are those in the dictionary. */
    lemma OpenAreInSlots(children: map<nat, Slot>, fdToPid: map<nat, nat>, limit: nat)
      requires Good(children, fdToPid, limit)
      ensures |Unreaped(procs)| == |children|
      ensures forall s | 0 <= s < |procs| :: (procs[s].waits, procs[s].closes) in {(0, 0), (1, 1)}
      ensures forall pid | pid in children :: Owns(procs, children[pid])
      ensures peak <= limit && LooksOk(looks, works, priorities)
      ensures children == map[] ==> Clean()
    {
      hide Reachable, Jobs, Locks, Unreaped, Clean, LooksOk;
      forall pid | pid in children ensures Owns(procs, children[pid]) {
        BooksOwn(procs, children, fdToPid, pid);
      }
      if children == map[] {
        EmptyIsClean(fdToPid, limit);
      }
    }
  }
}

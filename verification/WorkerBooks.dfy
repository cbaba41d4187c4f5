/** What a worker loop keeps track of: its two dictionaries against an operating system that
    reuses pids and file descriptors, its claims and locks against tables shared with
    others, and what its queries saw. */
module WorkerBooks {
  import opened Wrappers
  import opened Tasks
  import opened TaskTable
  import opened Protocol
  import opened ProtocolInvariant
  import ClaimOrder
  import PeriodicTasks

  /** A child this worker has forked, as the operating system counts it: how often it was
      waited for, and how often the read end of its pipe was closed. */
  datatype Proc = Proc(pid: nat, fd: nat, waits: nat, closes: nat)

  /** What a slot runs: a claim of the one-off protocol, or a schedule, whose claim has
      locked it if it is `limited`. */
  datatype Job = OneOff(run: nat) | PeriodicJob(id: nat, limited: bool)

  /** A row of `pq_periodic`; `locker` is a label: the worker whose claim wrote its lock. */
  datatype Entry = Entry(row: PeriodicTasks.PRow, locker: nat)

  datatype Slot = Slot(pid: nat, fd: nat, serial: nat, job: Job)

  /** The children not waited for yet. */
  function Unreaped(procs: seq<Proc>): set<nat> {
    set s | 0 <= s < |procs| && procs[s].waits == 0
  }

  /** `children` and `fdToPid` are inverse to each other, and each slot is a child not waited
      for whose pipe is open. */
  predicate Mirrored(procs: seq<Proc>, children: map<nat, Slot>, fdToPid: map<nat, nat>) {
    && (forall pid | pid in children ::
          var slot := children[pid];
          && slot.pid == pid && slot.serial < |procs| && procs[slot.serial] == Proc(pid, slot.fd, 0, 0)
          && slot.fd in fdToPid && fdToPid[slot.fd] == pid)
    && (forall fd | fd in fdToPid :: fdToPid[fd] in children && children[fdToPid[fd]].fd == fd)
  }

  /** Every child has its slot, or was waited for once and its pipe closed once. */
  predicate Accounted(procs: seq<Proc>, children: map<nat, Slot>) {
    forall s | 0 <= s < |procs| ::
      || (procs[s].pid in children && children[procs[s].pid].serial == s)
      || (procs[s].waits == 1 && procs[s].closes == 1)
  }

  predicate Books(procs: seq<Proc>, children: map<nat, Slot>, fdToPid: map<nat, nat>) {
    Mirrored(procs, children, fdToPid) && Accounted(procs, children) && |Unreaped(procs)| == |children|
  }

  /** What other processes do to the runs this worker has claimed: nothing but let a child
      exit. New runs are theirs. */
  predicate OthersRan(me: nat, runs: seq<Run>, runs': seq<Run>) {
    && |runs| <= |runs'|
    && (forall i | 0 <= i < |runs| ::
          && runs'[i].worker == runs[i].worker
          && (runs[i].worker == me ==>
                && runs'[i].duty == runs[i].duty
                && (runs'[i].child == NotForked <==> runs[i].child == NotForked)
                && (Forked(runs'[i].child) <==> Forked(runs[i].child))
                && (Over(runs[i].child) ==> runs'[i].child == runs[i].child)))
    && (forall i | |runs| <= i < |runs'| :: runs'[i].worker != me)
  }

  /** A step of somebody else: not a claim of this worker, nor one of its transactions. */
  predicate Foreign(me: nat, s: Sys, step: Step) {
    match step
    case Claim(w, _, _) => w != me
    case Fork(i) => i < |s.runs| && s.runs[i].worker != me
    case ForkFailed(i) => i < |s.runs| && s.runs[i].worker != me
    case Finish(i, _, _) => i < |s.runs| && s.runs[i].worker != me
    case Abandon(i) => i < |s.runs| && s.runs[i].worker != me
    case _ => true
  }

  lemma ForeignStepRuns(e: Env, s: Sys, step: Step, me: nat)
    requires Enabled(e, s, step) && Foreign(me, s, step)
    ensures OthersRan(me, s.runs, Apply(e, s, step).runs)
  {
    hide EnqueueError, UpsertInto, InsertInto, FinishInto, ReapInto, Claimable;
  }

  /** This worker's open claims are exactly the one-off jobs of its slots. */
  predicate Jobs(me: nat, runs: seq<Run>, children: map<nat, Slot>) {
    && (forall i | 0 <= i < |runs| && runs[i].worker == me && runs[i].duty == Watching ::
          exists pid :: pid in children && children[pid].job == OneOff(i))
    && (forall pid | pid in children && children[pid].job.OneOff? :: OpenRun(me, runs, children[pid].job.run))
    && (forall p, q | p in children && q in children && p != q && children[p].job.OneOff? ::
          children[p].job != children[q].job)
  }

  predicate OpenRun(me: nat, runs: seq<Run>, i: nat) {
    i < |runs| && runs[i].worker == me && runs[i].duty == Watching && Forked(runs[i].child)
  }

  /** Seen from this worker: only run `x` of its claims may have changed, none was added. */
  predicate KeptBut(me: nat, runs: seq<Run>, runs': seq<Run>, x: Option<nat>) {
    && |runs| <= |runs'|
    && (forall i | 0 <= i < |runs| ::
          && runs'[i].worker == runs[i].worker
          && (runs[i].worker == me && x != Some(i) ==>
                runs'[i].duty == runs[i].duty && (Forked(runs'[i].child) <==> Forked(runs[i].child))))
    && (forall i | |runs| <= i < |runs'| :: runs'[i].worker != me)
  }

  lemma OthersKeep(me: nat, runs: seq<Run>, runs': seq<Run>, x: Option<nat>)
    requires OthersRan(me, runs, runs')
    ensures KeptBut(me, runs, runs', x)
  {
  }

  /** A slot that was reaped leaves the dictionaries together with its claim. */
  lemma JobEnds(me: nat, runs: seq<Run>, runs': seq<Run>, children: map<nat, Slot>, pid: nat)
    requires Jobs(me, runs, children) && pid in children
    requires match children[pid].job
             case OneOff(i) => KeptBut(me, runs, runs', Some(i)) && i < |runs| && runs'[i].duty != Watching
             case PeriodicJob(_, _) => KeptBut(me, runs, runs', None)
    ensures Jobs(me, runs', children - {pid})
  {
    var rest := children - {pid};
    forall i | 0 <= i < |runs'| && runs'[i].worker == me && runs'[i].duty == Watching
      ensures exists p :: p in rest && rest[p].job == OneOff(i)
    {
      var p :| p in children && children[p].job == OneOff(i);
      assert p in rest && rest[p].job == OneOff(i);
    }
  }

  /** A new slot enters them together with its claim; a failed start leaves none. */
  predicate Claimed(me: nat, runs: seq<Run>, runs': seq<Run>, job: Option<Job>) {
    && |runs| <= |runs'|
    && KeptBut(me, runs, runs'[..|runs|], None)
    && (forall i | |runs| <= i < |runs'| && runs'[i].worker == me ::
          runs'[i].duty != Watching || job == Some(OneOff(i)))
    && (job.Some? && job.value.OneOff? ==> |runs| <= job.value.run && OpenRun(me, runs', job.value.run))
  }

  lemma JobStarts(me: nat, runs: seq<Run>, runs': seq<Run>, children: map<nat, Slot>, slot: Slot)
    requires Jobs(me, runs, children) && slot.pid !in children && Claimed(me, runs, runs', Some(slot.job))
    ensures Jobs(me, runs', children[slot.pid := slot])
  {
    var more := children[slot.pid := slot];
    assert forall i | 0 <= i < |runs| :: runs'[..|runs|][i] == runs'[i];
    forall i | 0 <= i < |runs'| && runs'[i].worker == me && runs'[i].duty == Watching
      ensures exists p :: p in more && more[p].job == OneOff(i)
    {
      if i < |runs| {
        var p :| p in children && children[p].job == OneOff(i);
        assert more[p].job == OneOff(i);
      } else {
        assert more[slot.pid].job == OneOff(i);
      }
    }
  }

  lemma KeptIsClaimed(me: nat, runs: seq<Run>, runs': seq<Run>)
    requires KeptBut(me, runs, runs', None)
    ensures Claimed(me, runs, runs', None)
  {
  }

  /** What is claimed stays so while a schedule is tried. */
  lemma ClaimedThenKept(me: nat, before: seq<Run>, middle: seq<Run>, after: seq<Run>, job: Option<Job>)
    requires Claimed(me, before, middle, None) && KeptBut(me, middle, after, None)
    requires job.Some? ==> job.value.PeriodicJob?
    ensures Claimed(me, before, after, job)
  {
    assert forall i | 0 <= i < |before| :: middle[..|before|][i] == middle[i] && after[..|before|][i] == after[i];
  }

  lemma NoJobStarts(me: nat, runs: seq<Run>, runs': seq<Run>, children: map<nat, Slot>)
    requires Jobs(me, runs, children) && Claimed(me, runs, runs', None)
    ensures Jobs(me, runs', children)
  {
    assert forall i | 0 <= i < |runs| :: runs'[..|runs|][i] == runs'[i];
    forall i | 0 <= i < |runs'| && runs'[i].worker == me && runs'[i].duty == Watching
      ensures exists p :: p in children && children[p].job == OneOff(i)
    {
      var p :| p in children && children[p].job == OneOff(i);
    }
  }

  // ---------- the locks of the schedules ----------

  /** The schedule is locked by a claim of this worker. */
  predicate Mine(me: nat, entry: Entry) {
    entry.row.lockedUntil.Some? && entry.locker == me
  }

  /** This worker has gained no lock, but perhaps the one of a new job. Others may expire, clear
      or overwrite its locks, and add and remove schedules. */
  predicate LocksFrom(me: nat, periodic: map<nat, Entry>, periodic': map<nat, Entry>, job: Option<Job>) {
    forall id | id in periodic' && Mine(me, periodic'[id]) ::
      (id in periodic && Mine(me, periodic[id])) || job == Some(PeriodicJob(id, true))
  }

  /** Every lock of this worker belongs to a slot; `stuck` are the schedules for which the write
      that clears the lock has failed. */
  predicate Locks(me: nat, periodic: map<nat, Entry>, stuck: set<nat>, children: map<nat, Slot>) {
    forall id | id in periodic && Mine(me, periodic[id]) && id !in stuck ::
      exists pid :: pid in children && children[pid].job == PeriodicJob(id, true)
  }

  lemma LocksStart(me: nat, p: map<nat, Entry>, p': map<nat, Entry>, stuck: set<nat>, stuck': set<nat>,
                   children: map<nat, Slot>, slot: Slot)
    requires Locks(me, p, stuck, children) && slot.pid !in children && stuck <= stuck'
    requires LocksFrom(me, p, p', Some(slot.job))
    ensures Locks(me, p', stuck', children[slot.pid := slot])
  {
    var more := children[slot.pid := slot];
    forall id | id in p' && Mine(me, p'[id]) && id !in stuck'
      ensures exists pid :: pid in more && more[pid].job == PeriodicJob(id, true)
    {
      if slot.job == PeriodicJob(id, true) {
        assert more[slot.pid].job == PeriodicJob(id, true);
      } else {
        var pid :| pid in children && children[pid].job == PeriodicJob(id, true);
        assert more[pid].job == PeriodicJob(id, true);
      }
    }
  }

  /** This worker has gained no lock, but perhaps one that it failed to clear. */
  predicate LocksBut(me: nat, periodic: map<nat, Entry>, periodic': map<nat, Entry>, stuck: set<nat>) {
    forall id | id in periodic' && Mine(me, periodic'[id]) && id !in stuck :: id in periodic && Mine(me, periodic[id])
  }

  lemma LocksStay(me: nat, p: map<nat, Entry>, p': map<nat, Entry>, stuck: set<nat>, stuck': set<nat>,
                  children: map<nat, Slot>)
    requires Locks(me, p, stuck, children) && LocksBut(me, p, p', stuck') && stuck <= stuck'
    ensures Locks(me, p', stuck', children)
  {
  }

  /** A job that ends leaves no lock of its own: the clear is keyed by the row alone, so it even
      clears the lock of another slot on the same schedule. */
  lemma LocksEnd(me: nat, p: map<nat, Entry>, p': map<nat, Entry>, stuck: set<nat>, stuck': set<nat>,
                 children: map<nat, Slot>, pid: nat)
    requires Locks(me, p, stuck, children) && pid in children && LocksFrom(me, p, p', None) && stuck <= stuck'
    requires forall id | children[pid].job == PeriodicJob(id, true) && id in p' && id !in stuck' :: !Mine(me, p'[id])
    ensures Locks(me, p', stuck', children - {pid})
  {
    var rest := children - {pid};
    forall id | id in p' && Mine(me, p'[id]) && id !in stuck'
      ensures exists q :: q in rest && rest[q].job == PeriodicJob(id, true)
    {
      var q :| q in children && children[q].job == PeriodicJob(id, true);
      assert q in rest && rest[q].job == PeriodicJob(id, true);
    }
  }

  // ---------- the dictionaries ----------

  predicate FreshProc(procs: seq<Proc>, pid: nat, fd: nat) {
    forall s | 0 <= s < |procs| ::
      (procs[s].waits == 0 ==> procs[s].pid != pid) && (procs[s].closes == 0 ==> procs[s].fd != fd)
  }

  lemma NewKeys(procs: seq<Proc>, children: map<nat, Slot>, fdToPid: map<nat, nat>, pid: nat, fd: nat)
    requires Mirrored(procs, children, fdToPid) && FreshProc(procs, pid, fd)
    ensures pid !in children && fd !in fdToPid
  {
  }

  lemma AccountedAdd(procs: seq<Proc>, children: map<nat, Slot>, slot: Slot)
    requires Accounted(procs, children) && slot.pid !in children && slot.serial == |procs|
    ensures Accounted(procs + [Proc(slot.pid, slot.fd, 0, 0)], children[slot.pid := slot])
  {
    var procs' := procs + [Proc(slot.pid, slot.fd, 0, 0)];
    forall s | 0 <= s < |procs'|
      ensures (procs'[s].pid in children[slot.pid := slot] && children[slot.pid := slot][procs'[s].pid].serial == s)
              || (procs'[s].waits == 1 && procs'[s].closes == 1)
    {
      assert s < |procs| ==> procs'[s] == procs[s];
    }
  }

  lemma MirroredAdd(procs: seq<Proc>, children: map<nat, Slot>, fdToPid: map<nat, nat>, slot: Slot)
    requires Mirrored(procs, children, fdToPid) && slot.serial == |procs|
    requires slot.pid !in children && slot.fd !in fdToPid
    ensures Mirrored(procs + [Proc(slot.pid, slot.fd, 0, 0)], children[slot.pid := slot], fdToPid[slot.fd := slot.pid])
  {
  }

  lemma BooksAdd(procs: seq<Proc>, children: map<nat, Slot>, fdToPid: map<nat, nat>, slot: Slot)
    requires Books(procs, children, fdToPid) && FreshProc(procs, slot.pid, slot.fd) && slot.serial == |procs|
    ensures slot.pid !in children && slot.fd !in fdToPid
    ensures Books(procs + [Proc(slot.pid, slot.fd, 0, 0)], children[slot.pid := slot], fdToPid[slot.fd := slot.pid])
  {
    hide Accounted, FreshProc, Mirrored;
    NewKeys(procs, children, fdToPid, slot.pid, slot.fd);
    MirroredAdd(procs, children, fdToPid, slot);
    AccountedAdd(procs, children, slot);
    assert Unreaped(procs + [Proc(slot.pid, slot.fd, 0, 0)]) == Unreaped(procs) + {|procs|};
  }

  /** No other child has this one's pid or descriptor. */
  predicate Owns(procs: seq<Proc>, slot: Slot) {
    && slot.serial < |procs| && procs[slot.serial] == Proc(slot.pid, slot.fd, 0, 0)
    && forall s | 0 <= s < |procs| && s != slot.serial ::
         (procs[s].waits == 0 ==> procs[s].pid != slot.pid) && (procs[s].closes == 0 ==> procs[s].fd != slot.fd)
  }

  lemma BooksOwn(procs: seq<Proc>, children: map<nat, Slot>, fdToPid: map<nat, nat>, pid: nat)
    requires Books(procs, children, fdToPid) && pid in children
    ensures Owns(procs, children[pid])
  {
  }

  lemma SlotOfPipe(procs: seq<Proc>, children: map<nat, Slot>, fdToPid: map<nat, nat>, fd: nat)
    requires Books(procs, children, fdToPid) && fd in fdToPid
    ensures fdToPid[fd] in children && children[fdToPid[fd]].fd == fd
  {
  }

  function Reaped(procs: seq<Proc>, slot: Slot): seq<Proc>
    requires slot.serial < |procs|
  {
    procs[slot.serial := Proc(slot.pid, slot.fd, 1, 1)]
  }

  lemma BooksRemove(procs: seq<Proc>, children: map<nat, Slot>, fdToPid: map<nat, nat>, pid: nat)
    requires Books(procs, children, fdToPid) && pid in children
    ensures Books(Reaped(procs, children[pid]), children - {pid}, fdToPid - {children[pid].fd})
  {
    var slot := children[pid];
    var procs' := Reaped(procs, slot);
    assert Unreaped(procs') == Unreaped(procs) - {slot.serial};
  }

  // ---------- what the queries saw ----------

  /** One claim transaction with what came of it: the rows as the query saw them, those locked
      by others, which row it picked, and whether the child was started. It was the
      worker's `at`-th request. */
  datatype Look =
    | OneOffs(rows: map<nat, Row>, now: int, locked: set<nat>, at: nat, picked: Option<nat>, started: bool)
    | Schedules(entries: map<nat, Entry>, now: int, locked: set<nat>, at: nat, picked: Option<nat>, started: bool)

  /** The schedule is due, wanted and, if limited, not locked. */
  predicate DueNow(row: PeriodicTasks.PRow, now: int, priorities: set<int>) {
    && row.sched.active && row.nextRun <= now
    && (row.sched.maxConcurrent.None? || row.lockedUntil.None? || row.lockedUntil.value <= now)
    && (priorities != {} ==> row.sched.priority in priorities)
  }

  /** The query picks a row that waits, the best one for one-off tasks, and finds none only if
      none waits or its transaction failed; what it picks is started unless that fails.
      `works(n)` says whether the worker's `n`-th request succeeds. */
  predicate LookOk(look: Look, works: nat -> bool, priorities: set<int>) {
    && (look.started <==> look.picked.Some? && works(look.at + 1))
    && (look.picked.Some? ==> works(look.at))
    && match look
       case OneOffs(rows, now, locked, at, picked, _) =>
         && (picked.Some? ==> ClaimOrder.Best(rows, picked.value, now, priorities, locked))
         && (picked.None? && works(at) ==>
               forall id | id in rows && id !in locked :: !ClaimOrder.Waits(rows[id], now, priorities))
       case Schedules(entries, now, locked, at, picked, _) =>
         && (picked.Some? ==>
               picked.value in entries && picked.value !in locked && DueNow(entries[picked.value].row, now, priorities))
         && (picked.None? && works(at) ==>
               forall id | id in entries && id !in locked :: !DueNow(entries[id].row, now, priorities))
  }

  lemma OneOffLookOk(rows: map<nat, Row>, now: int, locked: set<nat>, at: nat, works: nat -> bool, priorities: set<int>)
    ensures !works(at) || ClaimOrder.Candidates(rows, now, priorities, locked) == {} ==>
              LookOk(OneOffs(rows, now, locked, at, None, false), works, priorities)
    ensures forall id | ClaimOrder.Best(rows, id, now, priorities, locked) ::
              && id in rows
              && (works(at) ==> LookOk(OneOffs(rows, now, locked, at, Some(id), works(at + 1)), works, priorities))
  {
    ClaimOrder.NothingToClaim(rows, now, priorities, locked);
    hide ClaimOrder.Waits;
  }

  predicate LooksOk(looks: seq<Look>, works: nat -> bool, priorities: set<int>) {
    forall k | 0 <= k < |looks| :: LookOk(looks[k], works, priorities)
  }

  /** The last try for a task went through both tables, and started nothing. */
  predicate TriedInVain(looks: seq<Look>) {
    && |looks| >= 2 && looks[|looks| - 2].OneOffs? && looks[|looks| - 1].Schedules?
    && !looks[|looks| - 2].started && !looks[|looks| - 1].started
  }
}

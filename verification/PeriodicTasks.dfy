/** One row of `pq_periodic`: claims, the lock they take, its release, and `schedule()` on
    an existing row. Rows do not interact, so one row stands for all. */
module PeriodicTasks {
  import opened Wrappers
  import opened Tasks

  /** `run_every`, or a cron expression, whose ticks are supplied by the caller. */
  datatype Cadence = Every(interval: int) | Cron(expr: string)

  datatype Schedule = Schedule(payload: string, priority: int, cadence: Cadence, maxConcurrent: Option<int>,
                               active: bool, maxRuntime: Option<int>)

  datatype PRow = PRow(sched: Schedule, nextRun: int, lastRun: Option<int>, lockedUntil: Option<int>)

  /** The `WHERE` clause of the claim. */
  predicate Due(row: PRow, now: int) {
    && row.sched.active
    && row.nextRun <= now
    && (row.sched.maxConcurrent.None? || row.lockedUntil.None? || row.lockedUntil.value <= now)
  }

  /** The wall-clock ceiling of a run: the schedule's own budget, else the worker's default. */
  function Effective(sched: Schedule, workerDefault: int): int {
    if sched.maxRuntime.Some? then sched.maxRuntime.value else workerDefault
  }

  const HOUR := 3600 * SECOND

  /** How long a claim locks the row: the effective budget, or an hour if that is not positive. */
  function LockDuration(sched: Schedule, workerDefault: int): (d: int)
    ensures 0 < d
  {
    var effective := Effective(sched, workerDefault);
    if effective > 0 then effective else HOUR
  }

  /** What a claim writes; `tick` is the next cron tick after `now`. */
  function ClaimedRow(row: PRow, now: int, workerDefault: int, tick: int): PRow {
    row.(lockedUntil := if row.sched.maxConcurrent.Some? then Some(now + LockDuration(row.sched, workerDefault))
                        else row.lockedUntil,
         lastRun := Some(now),
         nextRun := match row.sched.cadence case Cron(_) => tick case Every(d) => now + d)
  }

  /** `ON CONFLICT (name, key) DO UPDATE`: the lock and the last run stay. */
  function Rescheduled(row: PRow, s: Schedule, now: int, tick: int): PRow {
    row.(sched := s, nextRun := match s.cadence case Cron(_) => tick case Every(_) => now)
  }

  /** The row object of the ORM, as the claim updates it. */
  class Periodic {
    var sched: Schedule
    var nextRun: int
    var lastRun: Option<int>
    var lockedUntil: Option<int>

    function AsRow(): PRow
      reads this
    {
      PRow(sched, nextRun, lastRun, lockedUntil)
    }

    constructor (row: PRow)
      ensures AsRow() == row
    {
      sched, nextRun, lastRun, lockedUntil := row.sched, row.nextRun, row.lastRun, row.lockedUntil;
    }

    /** The claim phase of `_process_periodic_task` and `_claim_and_fork_periodic`. */
    method Claim(now: int, workerDefault: int, tick: int) returns (claimed: bool)
      modifies this
      ensures claimed == Due(old(AsRow()), now)
      ensures AsRow() == if claimed then ClaimedRow(old(AsRow()), now, workerDefault, tick) else old(AsRow())
      ensures var row := old(AsRow());
              claimed <==>
              && row.sched.active && row.nextRun <= now
              && (row.sched.maxConcurrent.None? || row.lockedUntil.None? || row.lockedUntil.value <= now)
      ensures claimed ==> sched == old(sched) && lastRun == Some(now)
      ensures claimed ==> nextRun == match sched.cadence case Cron(_) => tick case Every(d) => now + d
      ensures claimed && sched.maxConcurrent.None? ==> lockedUntil == old(lockedUntil)
      ensures claimed && sched.maxConcurrent.Some? ==>
                lockedUntil ==
                if sched.maxRuntime.Some? && 0 < sched.maxRuntime.value then Some(now + sched.maxRuntime.value)
                else if sched.maxRuntime.None? && 0 < workerDefault then Some(now + workerDefault)
                else Some(now + 3600 * SECOND)
    {
      if !Due(AsRow(), now) {
        return false;
      }
      if sched.maxConcurrent.Some? {
        lockedUntil := Some(now + LockDuration(sched, workerDefault));
      }
      lastRun := Some(now);
      if sched.cadence.Cron? {
        nextRun := tick;
      } else {
        nextRun := now + sched.cadence.interval;
      }
      claimed := true;
    }

    /** The unguarded `UPDATE ... SET locked_until = NULL` after a run; `maxConcurrent` is
        the value its claim read. */
    method ClearLock(maxConcurrent: Option<int>)
      modifies this
      ensures sched == old(sched) && nextRun == old(nextRun) && lastRun == old(lastRun)
      ensures lockedUntil == if maxConcurrent.Some? then None else old(lockedUntil)
    {
      if maxConcurrent.Some? {
        lockedUntil := None;
      }
    }

    /** `schedule()` on an existing row. */
    method Reschedule(s: Schedule, now: int, tick: int)
      modifies this
      ensures AsRow() == Rescheduled(old(AsRow()), s, now, tick)
      ensures sched == s && lastRun == old(lastRun) && lockedUntil == old(lockedUntil)
      ensures nextRun == match s.cadence case Cron(_) => tick case Every(_) => now
    {
      sched := s;
      nextRun := if s.cadence.Cron? then tick else now;
    }
  }

  // ---------- runs of one schedule ----------

  /** One claim: its time, the end of its lock, and the `next_run` it has set. */
  datatype PRun = PRun(startedAt: int, lockUntil: int, next: int, inFlight: bool)

  datatype PSys = PSys(row: PRow, now: int, runs: seq<PRun>)

  /** `slack` bounds how late a run ends, if anything does: by `lockUntil + slack`. `Clear` is
      its end with the lock released, `Lost` its end when the worker is gone and
      releases nothing. */
  datatype PStep =
    | Claim(workerDefault: int, tick: int)
    | Clear(run: nat)
    | Lost(run: nat)
    | Update(sched: Schedule, tick: int)
    | Tick(to: int)

  predicate Enabled(slack: Option<int>, s: PSys, step: PStep) {
    match step
    case Claim(_, tick) => Due(s.row, s.now) && s.now < tick
    case Clear(i) => i < |s.runs| && s.runs[i].inFlight
    case Lost(i) => i < |s.runs| && s.runs[i].inFlight
    case Update(sched, tick) => sched.maxConcurrent.Some? && s.now < tick
    case Tick(to) =>
      s.now <= to && (slack.Some? ==> forall r | r in s.runs && r.inFlight :: to <= r.lockUntil + slack.value)
  }

  function Apply(slack: Option<int>, s: PSys, step: PStep): PSys
    requires Enabled(slack, s, step)
  {
    match step
    case Claim(d, tick) =>
      var row := ClaimedRow(s.row, s.now, d, tick);
      s.(row := row, runs := s.runs + [PRun(s.now, s.now + LockDuration(s.row.sched, d), row.nextRun, true)])
    case Clear(i) => s.(row := s.row.(lockedUntil := None), runs := s.runs[i := s.runs[i].(inFlight := false)])
    case Lost(i) => s.(runs := s.runs[i := s.runs[i].(inFlight := false)])
    case Update(sched, tick) => s.(row := Rescheduled(s.row, sched, s.now, tick))
    case Tick(to) => s.(now := to)
  }

  /** A schedule with overlap control that has not run yet. */
  predicate Initial(s: PSys) {
    s.runs == [] && s.row.sched.maxConcurrent.Some? && s.row.lockedUntil.None?
  }

  predicate Execution(slack: Option<int>, states: seq<PSys>, steps: seq<PStep>) {
    && |states| == |steps| + 1
    && Initial(states[0])
    && forall k {:trigger steps[k]} | 0 <= k < |steps| ::
         Enabled(slack, states[k], steps[k]) && states[k + 1] == Apply(slack, states[k], steps[k])
  }

  predicate OneInFlight(runs: seq<PRun>) {
    forall i, j | 0 <= i < j < |runs| :: !(runs[i].inFlight && runs[j].inFlight)
  }

  /** Every run ends strictly before its lock expires. */
  predicate InTime(slack: Option<int>) {
    slack.Some? && slack.value < 0
  }

  /** The run in flight owns the lock, and the lock has not expired. */
  predicate LockOwned(s: PSys) {
    && s.row.sched.maxConcurrent.Some?
    && OneInFlight(s.runs)
    && forall r | r in s.runs && r.inFlight :: s.row.lockedUntil == Some(r.lockUntil) && s.now < r.lockUntil
  }

  lemma StepKeepsLock(slack: Option<int>, s: PSys, step: PStep)
    requires InTime(slack) && LockOwned(s) && Enabled(slack, s, step)
    ensures LockOwned(Apply(slack, s, step))
  {
    var s' := Apply(slack, s, step);
    forall i | 0 <= i < |s'.runs| && s'.runs[i].inFlight
      ensures s'.row.lockedUntil == Some(s'.runs[i].lockUntil) && s'.now < s'.runs[i].lockUntil
      ensures forall j | 0 <= j < i :: !s'.runs[j].inFlight
    {
      if i < |s.runs| {
        assert s.runs[i] in s.runs;
      }
      forall j | 0 <= j < i ensures !s'.runs[j].inFlight {
        assert s.runs[j] in s.runs;
      }
    }
  }

  /** If every run clears its lock strictly before it expires, then over any sequence of
      claims, clears and `schedule()` calls at most one run is in flight, and the lock
      it will clear is its own. */
  lemma {:induction false} LockKeepsRunsApart(slack: Option<int>, states: seq<PSys>, steps: seq<PStep>, k: nat)
    requires InTime(slack) && Execution(slack, states, steps) && k < |states|
    ensures OneInFlight(states[k].runs)
    ensures forall r | r in states[k].runs && r.inFlight :: states[k].row.lockedUntil == Some(r.lockUntil)
    ensures LockOwned(states[k])
  {
    if k > 0 {
      hide LockOwned, Enabled, Apply;
      LockKeepsRunsApart(slack, states, steps, k - 1);
      StepKeepsLock(slack, states[k - 1], steps[k - 1]);
      ApartIfOwned(states[k]);
    }
  }

  /** The end of a run in good time releases its own lock: the schedule can be claimed as soon as
      it is due. A run whose worker is lost leaves its lock, which holds until it expires. */
  lemma EndReleases(slack: Option<int>, s: PSys, i: nat)
    requires InTime(slack) && LockOwned(s) && i < |s.runs| && s.runs[i].inFlight
    ensures Enabled(slack, s, Clear(i)) && Enabled(slack, s, Lost(i))
    ensures var s' := Apply(slack, s, Clear(i));
            && s'.row == s.row.(lockedUntil := None) && (forall r | r in s'.runs :: !r.inFlight)
            && (Due(s'.row, s'.now) <==> s.row.sched.active && s.row.nextRun <= s.now)
    ensures var s' := Apply(slack, s, Lost(i));
            && s'.row == s.row && (forall r | r in s'.runs :: !r.inFlight)
            && forall t: int :: Due(s'.row, t) ==> s.runs[i].lockUntil <= t
  {
    assert s.runs[i] in s.runs;
    forall j | 0 <= j < |s.runs| && j != i ensures !s.runs[j].inFlight {
      assert s.runs[j] in s.runs;
    }
  }

  lemma ApartIfOwned(s: PSys)
    requires LockOwned(s)
    ensures OneInFlight(s.runs)
    ensures forall r | r in s.runs && r.inFlight :: s.row.lockedUntil == Some(r.lockUntil)
  {
  }

  ghost predicate NeverTwoInFlight(slack: Option<int>) {
    forall states: seq<PSys>, steps: seq<PStep>, k: nat | Execution(slack, states, steps) && k < |states| ::
      OneInFlight(states[k].runs)
  }

  /** All claims are of this schedule and use this worker default. */
  predicate UsesOnly(sched: Schedule, workerDefault: int, states: seq<PSys>, steps: seq<PStep>) {
    && (states != [] ==> states[0].row.sched == sched)
    && (forall k | 0 <= k < |steps| && steps[k].Claim? :: steps[k].workerDefault == workerDefault)
    && (forall k | 0 <= k < |steps| && steps[k].Update? :: steps[k].sched == sched)
  }

  /** A run of any schedule that may last until its lock has expired meets the next claim. */
  lemma ExpiredLockOverlaps(slack: Option<int>, sched: Schedule, workerDefault: int)
    returns (states: seq<PSys>, steps: seq<PStep>)
    requires !InTime(slack) && sched.maxConcurrent.Some? && sched.active
    ensures Execution(slack, states, steps) && UsesOnly(sched, workerDefault, states, steps)
    ensures |states| == 5 && !OneInFlight(states[4].runs)
  {
    hide LockDuration;
    var lock := LockDuration(sched, workerDefault);
    var s0 := PSys(PRow(sched, 0, None, None), 0, []);
    steps := [PStep.Claim(workerDefault, 1), Update(sched, 1), Tick(lock), PStep.Claim(workerDefault, lock + 1)];
    assert Enabled(slack, s0, steps[0]);
    var s1 := Apply(slack, s0, steps[0]);
    assert Enabled(slack, s1, steps[1]);
    var s2 := Apply(slack, s1, steps[1]);
    assert |s2.runs| == 1 && s2.runs[0].lockUntil == lock && Enabled(slack, s2, steps[2]);
    var s3 := Apply(slack, s2, steps[2]);
    assert Enabled(slack, s3, steps[3]);
    var s4 := Apply(slack, s3, steps[3]);
    states := [s0, s1, s2, s3, s4];
    assert s4.runs[0].inFlight && s4.runs[1].inFlight;
  }

  /** Overlap control works exactly when locks are cleared strictly before they expire. */
  lemma NoOverlapIffClearedInTime(slack: Option<int>)
    ensures NeverTwoInFlight(slack) <==> InTime(slack)
  {
    if InTime(slack) {
      forall states: seq<PSys>, steps: seq<PStep>, k: nat | Execution(slack, states, steps) && k < |states|
        ensures OneInFlight(states[k].runs)
      {
        LockKeepsRunsApart(slack, states, steps, k);
      }
    } else {
      var sched := Schedule("{}", 50, Every(1), Some(1), true, None);
      var states, steps := ExpiredLockOverlaps(slack, sched, 1);
    }
  }

  // ---------- what the child's alarm can do for it ----------

  /** With nothing but the alarm to end it, a run ends by `delay` (from the claim to
      `signal.alarm`) plus the alarm after its claim. */
  function AlarmSlack(sched: Schedule, workerDefault: int, delay: nat): Option<int> {
    var alarm := Alarm(Effective(sched, workerDefault));
    if alarm.Some? then Some(delay + alarm.value - LockDuration(sched, workerDefault)) else None
  }

  ghost predicate AlarmKeepsApart(sched: Schedule, workerDefault: int, delay: nat) {
    forall states: seq<PSys>, steps: seq<PStep>, k: nat |
        Execution(AlarmSlack(sched, workerDefault, delay), states, steps)
        && UsesOnly(sched, workerDefault, states, steps) && k < |states| ::
      OneInFlight(states[k].runs)
  }

  /** For a schedule with overlap control, the alarm keeps its runs apart exactly when the
      effective budget is a worker default in (-1 s, 0], for which the lock lasts an
      hour: not for any positive budget, whose lock expires first, and not for a
      default of -1 s or less, which sets no alarm. */
  lemma AlarmKeepsApartIff(sched: Schedule, workerDefault: int, delay: nat)
    requires sched.maxConcurrent.Some? && sched.active
    ensures AlarmKeepsApart(sched, workerDefault, delay) <==>
            -SECOND < Effective(sched, workerDefault) <= 0 && delay + SECOND < HOUR
  {
    hide Execution, UsesOnly, OneInFlight, Alarm;
    var slack, effective := AlarmSlack(sched, workerDefault, delay), Effective(sched, workerDefault);
    AlarmFires(effective, effective);
    AlarmOfNothing(effective);
    if InTime(slack) {
      forall states: seq<PSys>, steps: seq<PStep>, k: nat | Execution(slack, states, steps) && k < |states|
        ensures OneInFlight(states[k].runs)
      {
        LockKeepsRunsApart(slack, states, steps, k);
      }
    } else {
      var states, steps := ExpiredLockOverlaps(slack, sched, workerDefault);
      assert !OneInFlight(states[4].runs);
    }
  }

  lemma AlarmOfNothing(budget: int)
    ensures -SECOND < budget <= 0 ==> Alarm(budget) == Some(SECOND)
  {
  }

  // ---------- how often it runs ----------

  /** Every claim sets the next one to a later tick, or an interval later, and no claim comes
      before the time that the one before it has set. */
  predicate Paced(s: PSys, c: Cadence) {
    && s.row.sched.cadence == c
    && (forall i | 0 <= i < |s.runs| ::
          match c
          case Every(d) => s.runs[i].next == s.runs[i].startedAt + d
          case Cron(_) => s.runs[i].startedAt < s.runs[i].next)
    && (forall i | 0 < i < |s.runs| :: s.runs[i - 1].next <= s.runs[i].startedAt)
    && (s.runs != [] ==> s.row.nextRun == s.runs[|s.runs| - 1].next)
  }

  lemma StepKeepsPace(slack: Option<int>, s: PSys, step: PStep, c: Cadence)
    requires Paced(s, c) && Enabled(slack, s, step) && !step.Update?
    ensures Paced(Apply(slack, s, step), c)
  {
    hide LockDuration;
    if step.Claim? {
      var s' := Apply(slack, s, step);
      forall i | 0 <= i < |s'.runs|
        ensures i < |s.runs| ==> s'.runs[i] == s.runs[i]
        ensures i == |s.runs| ==> s'.runs[i].startedAt == s.now && s'.runs[i].next == s'.row.nextRun
      {
      }
    }
  }

  /** Without re-scheduling, a schedule that is overdue does not catch up: it runs at most once
      per tick or interval, and each tick counts from the claim before. */
  lemma {:induction false} OnePerTick(slack: Option<int>, states: seq<PSys>, steps: seq<PStep>, k: nat)
    requires Execution(slack, states, steps) && k < |states|
    requires forall j | 0 <= j < k :: !steps[j].Update?
    ensures Paced(states[k], states[0].row.sched.cadence)
  {
    if k > 0 {
      hide Paced, Enabled, Apply;
      OnePerTick(slack, states, steps, k - 1);
      StepKeepsPace(slack, states[k - 1], steps[k - 1], states[0].row.sched.cadence);
    } else {
      assert states[0].runs == [];
    }
  }

  lemma {:induction false} PacedRuns(s: PSys, d: int, i: nat, j: nat)
    requires Paced(s, Every(d)) && i <= j < |s.runs|
    ensures s.runs[i].startedAt + (j - i) * d <= s.runs[j].startedAt
    decreases j - i
  {
    if i < j {
      PacedRuns(s, d, i, j - 1);
      assert (j - i) * d == (j - 1 - i) * d + d;
    }
  }

  /** No burst: without re-scheduling, the claims `i..j` of an interval schedule that fall
      into a window of length `length` number at most one more than the intervals it
      holds, however overdue the schedule was. */
  lemma RateBound(slack: Option<int>, states: seq<PSys>, steps: seq<PStep>, k: nat, d: int, i: nat, j: nat,
                  from: int, length: int)
    requires Execution(slack, states, steps) && k < |states| && states[0].row.sched.cadence == Every(d)
    requires forall n | 0 <= n < k :: !steps[n].Update?
    requires i <= j < |states[k].runs|
    requires from <= states[k].runs[i].startedAt && states[k].runs[j].startedAt <= from + length
    ensures (j - i) * d <= length
  {
    hide Execution;
    OnePerTick(slack, states, steps, k);
    PacedRuns(states[k], d, i, j);
  }
}

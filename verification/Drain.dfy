/** Graceful shutdown: the drain deadline, and waiting for children under it. */
module Drain {
  import opened Wrappers
  import opened Tasks

  /** What `os.wait4` reports. */
  datatype WaitStatus = Exited(code: int) | Signaled(signal: int) | Unknown

  datatype ExitKind = Success | Timeout | Oom | KilledBySignal | Interrupted | Error

  datatype ChildResult = ChildResult(status: Status, kind: ExitKind)

  const SIGKILL := 9
  const EXIT_TIMEOUT := 124

  /** The verdict of `_wait_for_child`. */
  function Decode(raw: WaitStatus, killedByDrain: bool): (r: ChildResult)
    ensures r.status == Completed <==> raw == Exited(0)
    ensures r.status in {Completed, Failed}
    ensures r.kind == Success <==> r.status == Completed
    ensures r.kind == Interrupted <==> killedByDrain && raw == Signaled(SIGKILL)
    ensures r.kind == Oom <==> !killedByDrain && raw == Signaled(SIGKILL)
    ensures r.kind == KilledBySignal <==> raw.Signaled? && raw.signal != SIGKILL
    ensures r.kind == Timeout <==> raw == Exited(EXIT_TIMEOUT)
  {
    match raw
    case Signaled(s) =>
      if killedByDrain && s == SIGKILL then ChildResult(Failed, Interrupted)
      else if s == SIGKILL then ChildResult(Failed, Oom)
      else ChildResult(Failed, KilledBySignal)
    case Exited(code) =>
      if code == 0 then ChildResult(Completed, Success)
      else if code == EXIT_TIMEOUT then ChildResult(Failed, Timeout)
      else ChildResult(Failed, Error)
    case Unknown => ChildResult(Failed, Error)
  }

  /** `_ShutdownState`; the handler runs between any two steps of the worker. */
  class ShutdownState {
    var signum: Option<int>
    var deadline: Option<int>
    var drainTimeout: nat
    var logged: bool

    constructor (drainTimeout: nat)
      ensures signum == None && deadline == None && this.drainTimeout == drainTimeout && !logged
    {
      signum, deadline, this.drainTimeout, logged := None, None, drainTimeout, false;
    }

    predicate Requested()
      reads this
    {
      signum.Some?
    }

    /** A request comes with the deadline set by the first signal. */
    predicate Valid()
      reads this
    {
      Requested() ==> deadline.Some?
    }

    predicate DeadlinePassed(now: int)
      reads this
    {
      Requested() && (deadline.None? || deadline.value <= now)
    }

    method Reset(drainTimeout: nat)
      modifies this
      ensures signum == None && deadline == None && this.drainTimeout == drainTimeout && !logged
    {
      signum, deadline, this.drainTimeout, logged := None, None, drainTimeout, false;
    }

    /** Only the first signal sets the deadline; a repeated one changes nothing. */
    method HandleSignal(signal: int, now: int)
      requires Valid()
      modifies this
      ensures Valid() && Requested()
      ensures old(Requested()) ==> signum == old(signum) && deadline == old(deadline)
      ensures !old(Requested()) ==> signum == Some(signal) && deadline == Some(now + drainTimeout)
      ensures drainTimeout == old(drainTimeout) && logged == old(logged)
    {
      if Requested() {
        return;
      }
      deadline := Some(now + drainTimeout);
      signum := Some(signal);
    }

    /** True once per shutdown, for the loop that notices it first. */
    method LogRequest() returns (logs: bool)
      modifies this`logged
      ensures logs == (Requested() && !old(logged))
      ensures logged == (old(logged) || Requested())
    {
      logs := Requested() && !logged;
      if logs {
        logged := true;
      }
    }
  }

  /** A forked child, with the moment and the manner of its exit. The alarm makes the
      moment finite. */
  class Process {
    var exitAt: int
    var raw: WaitStatus

    constructor (exitAt: int, raw: WaitStatus)
      ensures this.exitAt == exitAt && this.raw == raw
    {
      this.exitAt, this.raw := exitAt, raw;
    }

    /** `_kill_child_group`: the child is gone at most `latency` later, unless it was
        about to exit anyway. */
    method Kill(now: int, latency: nat)
      modifies this
      ensures exitAt <= now + latency
      ensures || (exitAt == old(exitAt) && raw == old(raw))
              || (now <= exitAt < old(exitAt) && raw == Signaled(SIGKILL))
    {
      var gone: int :| now <= gone <= now + latency;
      if gone < exitAt {
        exitAt, raw := gone, Signaled(SIGKILL);
      }
    }
  }

  /** The least `select` timeout while draining, 10 ms. */
  const GRAIN: int := 10_000

  /** The timeout of one round of the wait. */
  function PollTimeout(deadline: Option<int>, requested: bool, now: int): (t: int)
    ensures GRAIN <= t <= SECOND
    ensures t < SECOND ==> requested && deadline.Some? && deadline.value <= now + t
    ensures requested && deadline.Some? ==> t <= GRAIN || now + t <= deadline.value
  {
    if requested && deadline.Some? then
      var remaining := if deadline.value - now < 0 then 0 else deadline.value - now;
      var t := if remaining < SECOND then remaining else SECOND;
      if t < GRAIN then GRAIN else t
    else
      SECOND
  }

  function Max(a: int, b: int): int {
    if a < b then b else a
  }

  /** The worker's view of time. `overrun` bounds what one round of the wait takes beyond its
      timeout, `killLatency` the time from SIGKILL to the exit of the child. */
  class Waiter {
    var now: int
    const overrun: nat
    const killLatency: nat

    constructor (now: int, overrun: nat, killLatency: nat)
      ensures this.now == now && this.overrun == overrun && this.killLatency == killLatency
    {
      this.now, this.overrun, this.killLatency := now, overrun, killLatency;
    }

    /** What one child can add to the shared deadline. */
    function PerChild(): int
      reads this
    {
      killLatency + 2 * (GRAIN + overrun)
    }

    /** When a shutdown is noticed at the latest, but for the overrun: one that was requested
        before the wait is looked at when the wait begins and then by the deadline; one
        that arrives inside a round of up to a second, when that round is over. */
    function NoticedBy(before: bool, start: int, deadline: int, drainTimeout: nat): int {
      if before then Max(start, deadline) + GRAIN else deadline + Max(GRAIN, SECOND - drainTimeout)
    }

    /** `select` on the error pipe: it returns when the pipe is readable, or at the timeout. A
        signal may arrive while it sleeps; the sleep goes on after the handler. */
    method Select(timeout: int, shutdown: ShutdownState)
      requires GRAIN <= timeout && shutdown.Valid()
      modifies this`now, shutdown
      ensures old(now) < now <= old(now) + timeout + overrun
      ensures shutdown.Valid() && shutdown.drainTimeout == old(shutdown.drainTimeout)
      ensures shutdown.logged == old(shutdown.logged)
      ensures old(shutdown.Requested()) ==>
                shutdown.signum == old(shutdown.signum) && shutdown.deadline == old(shutdown.deadline)
      ensures !old(shutdown.Requested()) && shutdown.Requested() ==>
                old(now) + shutdown.drainTimeout <= shutdown.deadline.value <= now + shutdown.drainTimeout
    {
      var elapsed: int :| 0 < elapsed <= timeout + overrun;
      var signalled: bool := *;
      if signalled {
        var into: int :| 0 <= into <= elapsed;
        shutdown.HandleSignal(15, now + into);
      }
      now := now + elapsed;
    }

    /** A child is left alone without a shutdown, and as long as the drain lasts: if it exits by
        the deadline, it does so at its own time and in its own way. Otherwise it is at
        most killed, and not before the deadline. */
    predicate Spared(shutdown: ShutdownState, exitAt: int, raw: WaitStatus, child: Process)
      reads shutdown, child
    {
      if shutdown.Requested() && shutdown.deadline.Some? && shutdown.deadline.value < exitAt then
        || (child.raw == raw && child.exitAt == exitAt)
        || (child.raw == Signaled(SIGKILL) && shutdown.deadline.value <= child.exitAt < exitAt)
      else
        child.raw == raw && child.exitAt == exitAt
    }

    /** One round of the wait: kill the child if its time is up, then sleep. */
    method PollOnce(shutdown: ShutdownState, child: Process, killed: bool) returns (killedByDrain: bool)
      requires shutdown.Valid() && now < child.exitAt
      requires killed ==> shutdown.Requested() && shutdown.deadline.value <= now
      modifies this`now, shutdown, child
      ensures shutdown.Valid() && shutdown.drainTimeout == old(shutdown.drainTimeout) && old(now) < now
      ensures killed || old(shutdown.Requested() && shutdown.deadline.value <= now) ==> killedByDrain
      ensures old(shutdown.Requested()) ==> shutdown.logged
      ensures shutdown.logged ==> old(shutdown.logged) || shutdown.Requested()
      ensures killedByDrain ==> killed || (shutdown.Requested() && shutdown.deadline.value <= old(now))
      ensures if killedByDrain && !killed then
                && child.exitAt <= old(now) + killLatency
                && (|| (child.exitAt == old(child.exitAt) && child.raw == old(child.raw))
                    || (old(now) <= child.exitAt < old(child.exitAt) && child.raw == Signaled(SIGKILL)))
              else
                child.exitAt == old(child.exitAt) && child.raw == old(child.raw)
      ensures old(shutdown.Requested()) ==>
                && shutdown.signum == old(shutdown.signum) && shutdown.deadline == old(shutdown.deadline)
                && now <= Max(old(now) + GRAIN, shutdown.deadline.value) + overrun
      ensures !old(shutdown.Requested()) && shutdown.Requested() ==>
                && old(now) + shutdown.drainTimeout <= shutdown.deadline.value <= now + shutdown.drainTimeout
                && now <= shutdown.deadline.value + Max(GRAIN, SECOND - shutdown.drainTimeout) + overrun
    {
      var signalled: bool := *;
      if signalled {
        shutdown.HandleSignal(15, now);
      }
      var _ := shutdown.LogRequest();
      killedByDrain := killed;
      if !killedByDrain && shutdown.DeadlinePassed(now) {
        child.Kill(now, killLatency);
        killedByDrain := true;
      }
      Select(PollTimeout(shutdown.deadline, shutdown.Requested(), now), shutdown);
    }

    /** `_wait_for_child`, with signals arriving before the wait, between two lines of it, or
        inside its `select`. */
    method WaitForChild(shutdown: ShutdownState, child: Process) returns (result: ChildResult)
      requires shutdown.Valid()
      modifies this`now, shutdown, child
      ensures shutdown.Valid() && shutdown.drainTimeout == old(shutdown.drainTimeout)
      ensures old(now) <= now && child.exitAt <= now
      ensures old(shutdown.Requested()) && old(now) < old(child.exitAt) ==> shutdown.logged
      ensures shutdown.logged ==> old(shutdown.logged) || shutdown.Requested()
      ensures result.status == Completed <==> child.raw == Exited(0)
      ensures result == Decode(child.raw, result.kind == Interrupted)
      ensures Spared(shutdown, old(child.exitAt), old(child.raw), child)
      ensures child.raw != old(child.raw) ==> result.kind == Interrupted
      ensures result.kind == Interrupted ==> shutdown.Requested() && shutdown.deadline.value <= now
      ensures old(shutdown.Requested()) ==>
                && shutdown.signum == old(shutdown.signum) && shutdown.deadline == old(shutdown.deadline)
                && now <= Max(old(now), shutdown.deadline.value) + PerChild()
      ensures !old(shutdown.Requested()) && shutdown.Requested() ==>
                && old(now) + shutdown.drainTimeout <= shutdown.deadline.value <= now + shutdown.drainTimeout
                && now <= shutdown.deadline.value + Max(0, SECOND - shutdown.drainTimeout - GRAIN) + PerChild()
    {
      ghost var before := shutdown.Requested();
      var killedByDrain := false;
      while now < child.exitAt
        invariant shutdown.Valid() && old(now) <= now && child.exitAt <= old(child.exitAt)
        invariant shutdown.drainTimeout == old(shutdown.drainTimeout)
        invariant if now == old(now) then child.exitAt == old(child.exitAt) && shutdown.logged == old(shutdown.logged)
                  else
                    (before ==> shutdown.logged) && (shutdown.logged ==> old(shutdown.logged) || shutdown.Requested())
        invariant Spared(shutdown, old(child.exitAt), old(child.raw), child)
        invariant child.raw != old(child.raw) ==> killedByDrain && child.raw == Signaled(SIGKILL)
        invariant killedByDrain ==> shutdown.Requested() && shutdown.deadline.value <= now
        invariant before ==> shutdown.signum == old(shutdown.signum) && shutdown.deadline == old(shutdown.deadline)
        invariant !before && shutdown.Requested() ==>
                    old(now) + shutdown.drainTimeout <= shutdown.deadline.value <= now + shutdown.drainTimeout
        invariant shutdown.Requested() ==>
                    var noticed :=
                      NoticedBy(before, old(now), shutdown.deadline.value, shutdown.drainTimeout) + overrun;
                    if killedByDrain then
                      child.exitAt <= noticed + killLatency && now <= noticed + killLatency + GRAIN + overrun
                    else
                      now <= noticed
        decreases child.exitAt - now
      {
        killedByDrain := PollOnce(shutdown, child, killedByDrain);
      }
      result := Decode(child.raw, killedByDrain);
    }

    /** The drain at the end of `_run_concurrent`: one wait after the other, all against the
        same deadline, so each child adds its own latency and never a drain timeout. */
    method DrainAll(shutdown: ShutdownState, children: seq<Process>) returns (results: seq<ChildResult>)
      requires shutdown.Valid() && shutdown.Requested()
      requires forall i, j | 0 <= i < j < |children| :: children[i] != children[j]
      modifies this`now, shutdown, children
      ensures shutdown.deadline == old(shutdown.deadline) && shutdown.Requested()
      ensures now <= Max(old(now), shutdown.deadline.value) + |children| * PerChild()
      ensures |results| == |children|
      ensures forall i | 0 <= i < |children| ::
                && children[i].exitAt <= now && results[i] == Decode(children[i].raw, results[i].kind == Interrupted)
                && Spared(shutdown, old(children[i].exitAt), old(children[i].raw), children[i])
                && (children[i].raw != old(children[i].raw) ==> results[i].kind == Interrupted)
    {
      results := [];
      for k := 0 to |children|
        invariant shutdown.Valid() && shutdown.Requested() && shutdown.deadline == old(shutdown.deadline)
        invariant old(now) <= now <= Max(old(now), shutdown.deadline.value) + k * PerChild()
        invariant |results| == k
        invariant forall i | 0 <= i < k ::
                    && children[i].exitAt <= now
                    && results[i] == Decode(children[i].raw, results[i].kind == Interrupted)
                    && Spared(shutdown, old(children[i].exitAt), old(children[i].raw), children[i])
                    && (children[i].raw != old(children[i].raw) ==> results[i].kind == Interrupted)
        invariant forall i | k <= i < |children| ::
                    children[i].exitAt == old(children[i].exitAt) && children[i].raw == old(children[i].raw)
      {
        ghost var before := now;
        var result := WaitForChild(shutdown, children[k]);
        results := results + [result];
        assert (k + 1) * PerChild() == k * PerChild() + PerChild();
      }
    }
  }
}

/** The converse of the refinement: with no other transaction open, every atomic step can be
    taken lock by lock. So the locks take no behaviour away. */
module RowLocksComplete {
  import opened Wrappers
  import opened Tasks
  import opened TaskTable
  import opened Protocol
  import opened RowLocks
  import opened RowLocksRefine

  ghost predicate FinePath(e: Env, f: Fine, steps: seq<FineStep>, f': Fine)
    decreases |steps|
  {
    if steps == [] then f' == f
    else FineEnabled(e, f, steps[0]) && FinePath(e, FineApply(e, f, steps[0]), steps[1..], f')
  }

  lemma {:induction false} PathThenPath(e: Env, f: Fine, a: seq<FineStep>, g: Fine, b: seq<FineStep>, h: Fine)
    requires FinePath(e, f, a, g) && FinePath(e, g, b, h)
    ensures FinePath(e, f, a + b, h)
    decreases |a|
  {
    hide FineEnabled, FineApply;
    if a == [] {
      assert a + b == b;
    } else {
      assert (a + b)[1..] == a[1..] + b;
      PathThenPath(e, FineApply(e, f, a[0]), a[1..], g, b, h);
    }
  }

  lemma OneStepPath(e: Env, f: Fine, step: FineStep)
    requires FineEnabled(e, f, step)
    ensures FinePath(e, f, [step], FineApply(e, f, step))
  {
    assert FinePath(e, FineApply(e, f, step), [step][1..], FineApply(e, f, step));
  }

  /** A reaper alone in the table, with no row left to look at twice. */
  predicate Reaping(f: Fine, tx: nat, window: int, asOf: int, selecting: bool) {
    && f.txns.Keys == {tx} && f.txns[tx].ReapTxn?
    && f.txns[tx].window == window && f.txns[tx].asOf == asOf && f.txns[tx].selecting == selecting
    && f.txns[tx].todo !! Locks(f.txns[tx]) && (selecting || f.txns[tx].parked == map[])
  }

  /** It gets through the candidates of its statement. */
  lemma {:induction false} LockAll(e: Env, f: Fine, tx: nat, window: int, asOf: int, selecting: bool)
    returns (steps: seq<FineStep>, f': Fine)
    requires FineInv(e, f) && TableInv(f.sys.table) && Reaping(f, tx, window, asOf, selecting)
    ensures FinePath(e, f, steps, f') && FineInv(e, f') && f'.sys == f.sys
    ensures Reaping(f', tx, window, asOf, selecting) && f'.txns[tx].todo == {}
    decreases |f.txns[tx].todo|
  {
    hide FineInv, TableInv, Matches;
    if f.txns[tx].todo == {} {
      return [], f;
    }
    var id :| id in f.txns[tx].todo;
    var step := ReapLock(tx, id);
    assert FineEnabled(e, f, step);
    FineStepKeeps(e, f, step);
    OneStepPath(e, f, step);
    var next := FineApply(e, f, step);
    steps, f' := LockAll(e, next, tx, window, asOf, selecting);
    PathThenPath(e, f, [step], next, steps, f');
    steps := [step] + steps;
  }

  /** The two statements of the reaper, row by row. */
  lemma ReapPath(e: Env, s: Sys, window: int) returns (steps: seq<FineStep>)
    requires TableInv(s.table) && Enabled(e, s, Reap(window, s.now))
    ensures FinePath(e, Fine(s, map[]), steps, Fine(Apply(e, s, Reap(window, s.now)), map[]))
  {
    hide TableInv, FineInv, Matches, Apply, ReapWrites, ReapVersions;
    var start := Fine(s, map[]);
    NoTxns(e, s);
    OneStepPath(e, start, ReapBegin(0, window));
    FineStepKeeps(e, start, ReapBegin(0, window));
    var f1 := FineApply(e, start, ReapBegin(0, window));
    var a, f2 := LockAll(e, f1, 0, window, s.now, false);
    PathThenPath(e, start, [ReapBegin(0, window)], f1, a, f2);
    OneStepPath(e, f2, ReapSelect(0));
    FineStepKeeps(e, f2, ReapSelect(0));
    var f3 := FineApply(e, f2, ReapSelect(0));
    PathThenPath(e, start, [ReapBegin(0, window)] + a, f2, [ReapSelect(0)], f3);
    var b, f4 := LockAll(e, f3, 0, window, s.now, true);
    PathThenPath(e, start, [ReapBegin(0, window)] + a + [ReapSelect(0)], f3, b, f4);
    OneStepPath(e, f4, ReapCommit(0));
    ReapCommitRefines(e, f4, 0);
    PathThenPath(e, start, [ReapBegin(0, window)] + a + [ReapSelect(0)] + b, f4, [ReapCommit(0)],
                 FineApply(e, f4, ReapCommit(0)));
    steps := [ReapBegin(0, window)] + a + [ReapSelect(0)] + b + [ReapCommit(0)];
  }

  lemma NoTxns(e: Env, s: Sys)
    ensures FineInv(e, Fine(s, map[]))
  {
  }

  /** With no transaction open, a lock path leads where any atomic step leads, a reaper's being
      one that started now. */
  lemma AtomicStepsAreFine(e: Env, s: Sys, step: Step) returns (steps: seq<FineStep>)
    requires TableInv(s.table) && Enabled(e, s, step) && (step.Reap? ==> step.asOf == s.now)
    ensures FinePath(e, Fine(s, map[]), steps, Fine(Apply(e, s, step), map[]))
  {
    var start := Fine(s, map[]);
    match step
    case Reap(window, _) =>
      steps := ReapPath(e, s, window);
    case Finish(i, status, error) =>
      steps := FinishPath(e, s, i, status, error);
    case _ =>
      hide Apply, Enabled, TableInv;
      assert FineEnabled(e, start, Plain(step));
      OneStepPath(e, start, Plain(step));
      steps := [Plain(step)];
  }

  lemma FinishPath(e: Env, s: Sys, i: nat, status: Status, error: Option<string>) returns (steps: seq<FineStep>)
    requires TableInv(s.table) && Enabled(e, s, Finish(i, status, error))
    ensures FinePath(e, Fine(s, map[]), steps, Fine(Apply(e, s, Finish(i, status, error)), map[]))
  {
    hide TableInv, FinishRow;
    var start := Fine(s, map[]);
    if FinishMatches(s.table, s.runs[i].row, s.runs[i].token) {
      NoTxns(e, s);
      OneStepPath(e, start, FinishLock(0, i));
      FineStepKeeps(e, start, FinishLock(0, i));
      var locked := FineApply(e, start, FinishLock(0, i));
      FinishCommitRefines(e, locked, 0, status, error);
      OneStepPath(e, locked, FinishCommit(0, status, error));
      var done := FineApply(e, locked, FinishCommit(0, status, error));
      assert done.txns == map[];
      PathThenPath(e, start, [FinishLock(0, i)], locked, [FinishCommit(0, status, error)], done);
      steps := [FinishLock(0, i)] + [FinishCommit(0, status, error)];
    } else {
      OneStepPath(e, start, FinishMiss(i, status, error));
      steps := [FinishMiss(i, status, error)];
    }
  }
}

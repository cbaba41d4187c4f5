/** Why batches cannot deadlock: transactions that take their row locks in `client_id` order
    and keep them until they commit. */
module LockOrder {
  import opened ClientOrder
  import opened Batch

  /** What a statement locks: the unique `client_id`, whether or not its row exists yet, or
      a row that has none. */
  datatype Key = Client(id: string) | Anonymous(row: nat)

  predicate KeyLeq(a: Key, b: Key) {
    match (a, b)
    case (Client(x), Client(y)) => Leq(x, y)
    case (Client(_), Anonymous(_)) => true
    case (Anonymous(_), Client(_)) => false
    case (Anonymous(x), Anonymous(y)) => x <= y
  }

  lemma KeyOrder(a: Key, b: Key, c: Key)
    ensures KeyLeq(a, b) || KeyLeq(b, a)
    ensures KeyLeq(a, b) && KeyLeq(b, a) ==> a == b
    ensures KeyLeq(a, b) && KeyLeq(b, c) ==> KeyLeq(a, c)
  {
    if a.Client? && b.Client? {
      LeqTotal(a.id, b.id);
      if c.Client? && Leq(a.id, b.id) && Leq(b.id, c.id) {
        LeqTransitive(a.id, b.id, c.id);
      }
    }
  }

  /** A transaction that locks `keys` in turn, has locked the first `pos` and then commits.
      A claim has one key and `skips`: when it finds the row locked it goes without. */
  datatype Tx = Tx(keys: seq<Key>, pos: nat, committed: bool, skips: bool)

  predicate Sorted(keys: seq<Key>) {
    forall i, j | 0 <= i < j < |keys| :: KeyLeq(keys[i], keys[j])
  }

  predicate WellFormed(t: Tx) {
    t.pos <= |t.keys| && Sorted(t.keys)
  }

  predicate AllWellFormed(txs: seq<Tx>) {
    forall i | 0 <= i < |txs| :: WellFormed(txs[i])
  }

  predicate Held(t: Tx, k: Key) {
    !t.committed && t.pos <= |t.keys| && k in t.keys[..t.pos]
  }

  predicate Wants(t: Tx) {
    !t.committed && t.pos < |t.keys|
  }

  /** No other transaction holds what transaction `i` wants next. */
  predicate Free(txs: seq<Tx>, i: nat)
    requires i < |txs| && Wants(txs[i])
  {
    forall j | 0 <= j < |txs| && j != i :: !Held(txs[j], txs[i].keys[txs[i].pos])
  }

  predicate CanStep(txs: seq<Tx>, i: nat)
    requires i < |txs|
  {
    !txs[i].committed && (Wants(txs[i]) && !txs[i].skips ==> Free(txs, i))
  }

  /** Lock the next key, or commit and release all of them. */
  function Step(txs: seq<Tx>, i: nat): seq<Tx>
    requires i < |txs| && CanStep(txs, i)
  {
    var t := txs[i];
    txs[i := if Wants(t) && Free(txs, i) then t.(pos := t.pos + 1) else t.(committed := true)]
  }

  /** No key is held twice. */
  ghost predicate Exclusive(txs: seq<Tx>) {
    forall i, j, k: Key | 0 <= i < j < |txs| && Held(txs[i], k) :: !Held(txs[j], k)
  }

  ghost predicate LockInv(txs: seq<Tx>) {
    AllWellFormed(txs) && Exclusive(txs)
  }

  lemma StepKeepsInv(txs: seq<Tx>, i: nat)
    requires LockInv(txs) && i < |txs| && CanStep(txs, i)
    ensures LockInv(Step(txs, i))
  {
    hide Sorted;
    var t, txs' := txs[i], Step(txs, i);
    forall a, k | 0 <= a < |txs| && Held(txs'[a], k)
      ensures Held(txs[a], k) || (a == i && Wants(t) && Free(txs, i) && k == t.keys[t.pos])
    {
    }
  }

  /** Locks are kept until the commit, which releases all of them; a transaction that has all its
      keys holds all of them; and a lock is taken only from nobody. */
  lemma LocksAreKept(txs: seq<Tx>, i: nat, j: nat, k: Key)
    requires AllWellFormed(txs) && i < |txs| && CanStep(txs, i) && j < |txs|
    ensures var txs' := Step(txs, i);
            && (Held(txs[j], k) ==> Held(txs'[j], k) || (j == i && txs'[j].committed))
            && (Held(txs'[j], k) && !Held(txs[j], k) ==>
                  j == i && k == txs[i].keys[txs[i].pos] && forall n | 0 <= n < |txs| :: !Held(txs[n], k))
            && (!txs[j].committed && !Wants(txs[j]) ==> (Held(txs[j], k) <==> k in txs[j].keys))
            && (txs'[j].committed ==> !Held(txs'[j], k))
  {
    hide Sorted;
    assert WellFormed(txs[i]) && WellFormed(txs[j]);
    if Wants(txs[i]) && j == i {
      assert txs[i].keys[..txs[i].pos + 1] == txs[i].keys[..txs[i].pos] + [txs[i].keys[txs[i].pos]];
    }
  }

  /** A claim never waits: it takes a row that is free, and goes without one that is not. */
  lemma ClaimsNeverWait(txs: seq<Tx>, i: nat)
    requires i < |txs| && !txs[i].committed && txs[i].skips && Wants(txs[i])
    ensures CanStep(txs, i)
    ensures Free(txs, i) ==> Step(txs, i)[i] == txs[i].(pos := txs[i].pos + 1)
    ensures !Free(txs, i) ==> Step(txs, i)[i].committed
  {
  }

  /** The transaction whose next key is largest. */
  lemma {:induction false} LargestWant(txs: seq<Tx>, n: nat) returns (m: nat)
    requires n <= |txs| && (exists i :: 0 <= i < n && Wants(txs[i]))
    ensures m < n && Wants(txs[m])
    ensures forall i | 0 <= i < n && Wants(txs[i]) :: KeyLeq(txs[i].keys[txs[i].pos], txs[m].keys[txs[m].pos])
  {
    if i :| 0 <= i < n - 1 && Wants(txs[i]) {
      m := LargestWant(txs, n - 1);
      if Wants(txs[n - 1]) {
        var a, b := txs[m].keys[txs[m].pos], txs[n - 1].keys[txs[n - 1].pos];
        KeyOrder(a, b, a);
        if !KeyLeq(b, a) {
          forall j | 0 <= j < n && Wants(txs[j]) ensures KeyLeq(txs[j].keys[txs[j].pos], b) {
            KeyOrder(txs[j].keys[txs[j].pos], a, b);
            KeyOrder(b, b, b);
          }
          m := n - 1;
        }
      }
    } else {
      m := n - 1;
      KeyOrder(txs[m].keys[txs[m].pos], txs[m].keys[txs[m].pos], txs[m].keys[txs[m].pos]);
    }
  }

  /** The wait-for graph has no cycle: as long as some transaction has not committed, some
      transaction can step. */
  lemma SomeoneCanStep(txs: seq<Tx>)
    requires LockInv(txs) && exists i :: 0 <= i < |txs| && !txs[i].committed
    ensures exists i :: 0 <= i < |txs| && CanStep(txs, i)
  {
    var i :| 0 <= i < |txs| && !txs[i].committed;
    if !Wants(txs[i]) {
      assert CanStep(txs, i);
      return;
    }
    var m := LargestWant(txs, |txs|);
    if !Free(txs, m) {
      var k := txs[m].keys[txs[m].pos];
      var j :| 0 <= j < |txs| && j != m && Held(txs[j], k);
      HolderCanStep(txs, m, j);
      assert CanStep(txs, j);
    } else {
      assert CanStep(txs, m);
    }
  }

  /** Who holds the largest key anyone wants is not waiting. */
  lemma HolderCanStep(txs: seq<Tx>, m: nat, j: nat)
    requires LockInv(txs) && m < |txs| && j < |txs| && j != m && Wants(txs[m])
    requires Held(txs[j], txs[m].keys[txs[m].pos])
    requires forall i | 0 <= i < |txs| && Wants(txs[i]) :: KeyLeq(txs[i].keys[txs[i].pos], txs[m].keys[txs[m].pos])
    ensures CanStep(txs, j)
  {
    if Wants(txs[j]) {
      var k, next := txs[m].keys[txs[m].pos], txs[j].keys[txs[j].pos];
      var p :| 0 <= p < txs[j].pos && txs[j].keys[p] == k;
      assert WellFormed(txs[j]) && KeyLeq(k, next);
      KeyOrder(k, next, k);
    }
  }

  /** Steps still to take. */
  function Remaining(txs: seq<Tx>): nat
    requires AllWellFormed(txs)
  {
    if txs == [] then 0
    else (if txs[0].committed then 0 else |txs[0].keys| - txs[0].pos + 1) + Remaining(txs[1..])
  }

  lemma {:induction false} StepDecreases(txs: seq<Tx>, i: nat, t': Tx)
    requires AllWellFormed(txs) && i < |txs| && WellFormed(t') && !txs[i].committed
    requires t'.keys == txs[i].keys && (t'.committed || t'.pos == txs[i].pos + 1)
    ensures AllWellFormed(txs[i := t'])
    ensures Remaining(txs[i := t']) < Remaining(txs)
  {
    if i > 0 {
      StepDecreases(txs[1..], i - 1, t');
      assert txs[i := t'][1..] == txs[1..][i - 1 := t'];
    } else {
      assert txs[0 := t'][1..] == txs[1..];
    }
  }

  /** Any schedule, step by step; `picks[n]` is who moves. */
  ghost predicate Schedule(txs: seq<Tx>, picks: seq<nat>, end: seq<Tx>)
    decreases |picks|
  {
    if picks == [] then end == txs
    else
      && picks[0] < |txs| && CanStep(txs, picks[0])
      && Schedule(Step(txs, picks[0]), picks[1..], end)
  }

  /** Batches, single-row transactions and claims, in any number, interleaved in any way:
      no schedule is stuck before all have committed, and none goes on for ever. */
  lemma {:induction false} NoDeadlock(txs: seq<Tx>, picks: seq<nat>, end: seq<Tx>)
    requires LockInv(txs) && Schedule(txs, picks, end)
    ensures LockInv(end)
    ensures (forall i | 0 <= i < |end| :: end[i].committed) || (exists i :: 0 <= i < |end| && CanStep(end, i))
    ensures |picks| + Remaining(end) <= Remaining(txs)
    decreases |picks|
  {
    if picks == [] {
      if exists i :: 0 <= i < |end| && !end[i].committed {
        SomeoneCanStep(end);
      }
    } else {
      hide LockInv;
      StepKeepsInv(txs, picks[0]);
      StepDecreases(txs, picks[0], Step(txs, picks[0])[picks[0]]);
      NoDeadlock(Step(txs, picks[0]), picks[1..], end);
    }
  }

  // ---------- the transactions of the client ----------

  /** `upsert_many` locks the client ids of its items, in the order in which it writes. */
  function BatchTx(items: seq<Upsert>): Tx {
    var order := StableOrder(Keys(items));
    Tx(seq(|items|, a requires 0 <= a < |items| => Client(items[order[a]].clientId)), 0, false, false)
  }

  /** It locks each of its clients, in the order of its statements, and that order is sorted. */
  lemma BatchIsSorted(items: seq<Upsert>)
    ensures WellFormed(BatchTx(items))
    ensures var t, order := BatchTx(items), StableOrder(Keys(items));
            && t.pos == 0 && !t.committed && !t.skips && |t.keys| == |items|
            && (forall a | 0 <= a < |items| :: t.keys[a] == Client(items[order[a]].clientId))
            && (forall i | 0 <= i < |items| :: Client(items[i].clientId) in t.keys)
  {
    var keys := Keys(items);
    var order := StableOrder(keys);
    forall i, j | 0 <= i < j < |items| ensures KeyLeq(BatchTx(items).keys[i], BatchTx(items).keys[j]) {
      assert Before(keys, order[i], order[j]);
    }
    forall i | 0 <= i < |items| ensures Client(items[i].clientId) in BatchTx(items).keys {
      assert i in order;
      var a :| 0 <= a < |order| && order[a] == i;
      assert BatchTx(items).keys[a] == Client(items[i].clientId);
    }
  }

  /** Batches and one-row transactions, none of which has started, satisfy the invariant. */
  lemma StartIsFine(batches: seq<seq<Upsert>>, singles: seq<Tx>)
    requires forall t | t in singles :: |t.keys| <= 1 && t.pos == 0
    ensures LockInv(seq(|batches|, i requires 0 <= i < |batches| => BatchTx(batches[i])) + singles)
  {
    var many := seq(|batches|, i requires 0 <= i < |batches| => BatchTx(batches[i]));
    forall i | 0 <= i < |many| ensures WellFormed(many[i]) {
      BatchIsSorted(batches[i]);
    }
    forall i | 0 <= i < |many + singles| ensures WellFormed((many + singles)[i]) && (many + singles)[i].pos == 0 {
      assert i >= |many| ==> (many + singles)[i] in singles;
    }
  }

  /** `upsert_many` without its sort. */
  function UnsortedTx(items: seq<Upsert>): Tx {
    Tx(seq(|items|, a requires 0 <= a < |items| => Client(items[a].clientId)), 0, false, false)
  }

  /** Without the sort it would not hold: of two batches that name two clients in opposite
      orders each locks its first, and then neither can go on. */
  lemma InputOrderCanDeadlock(a: Upsert, b: Upsert) returns (picks: seq<nat>, end: seq<Tx>)
    requires a.clientId != b.clientId
    ensures Schedule([UnsortedTx([a, b]), UnsortedTx([b, a])], picks, end) && |end| == 2
    ensures !end[0].committed && !CanStep(end, 0) && !end[1].committed && !CanStep(end, 1)
  {
    var ab, ba := UnsortedTx([a, b]), UnsortedTx([b, a]);
    var start, middle := [ab, ba], [ab.(pos := 1), ba];
    end, picks := [ab.(pos := 1), ba.(pos := 1)], [0, 1];
    assert Free(start, 0) && middle == Step(start, 0);
    assert forall k | Held(middle[0], k) :: k == Client(a.clientId);
    assert Free(middle, 1) && end == Step(middle, 1);
    assert Schedule(end, picks[1..][1..], end) && Schedule(middle, picks[1..], end);
    assert end[0].keys[..1][0] == Client(a.clientId) && end[1].keys[..1][0] == Client(b.clientId);
    assert Held(end[1], end[0].keys[1]) && Held(end[0], end[1].keys[1]);
  }
}

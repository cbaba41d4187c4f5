/** `upsert_many`: what a batch leaves in the table. */
module Batch {
  import opened Wrappers
  import opened Tasks
  import opened TaskTable
  import opened ClientOrder

  datatype Upsert = Upsert(clientId: string, spec: Spec)

  predicate ValidItems(items: seq<Upsert>) {
    forall i | 0 <= i < |items| :: ValidBudget(items[i].spec.maxRuntime)
  }

  function Keys(items: seq<Upsert>): seq<string> {
    seq(|items|, i requires 0 <= i < |items| => items[i].clientId)
  }

  predicate InRange(items: seq<Upsert>, order: seq<nat>) {
    forall a | 0 <= a < |order| :: order[a] < |items|
  }

  function InputOrder(n: nat): (r: seq<nat>)
    ensures |r| == n && forall i | 0 <= i < n :: r[i] == i
  {
    seq(n, i => i)
  }

  /** The statements of the batch, executed one after the other in `order`. */
  function ApplyIn(t: Table, items: seq<Upsert>, order: seq<nat>, now: int): Table
    requires InRange(items, order)
    decreases |order|
  {
    if order == [] then t
    else
      var u := items[order[|order| - 1]];
      UpsertInto(ApplyIn(t, items, order[..|order| - 1], now), u.clientId, u.spec, now)
  }

  /** The row a client sees, whatever id it has. */
  function RowFor(t: Table, clientId: string): Option<Row> {
    match Conflict(t.rows, Some(clientId))
    case Some(id) => Some(t.rows[id])
    case None => None
  }

  /** One upsert, from the point of view of its client. */
  function UpsertFor(row: Option<Row>, clientId: string, s: Spec, now: int): Option<Row> {
    Some(if row.Some? then UpsertRow(row.value, s) else Fresh(Some(clientId), now, s))
  }

  /** The last item of the input that names this client. */
  function LastItem(items: seq<Upsert>, clientId: string): (r: Option<nat>)
    ensures r.Some? ==> r.value < |items| && items[r.value].clientId == clientId
    ensures r.Some? ==> forall i | r.value < i < |items| :: items[i].clientId != clientId
    ensures r.None? ==> forall i | 0 <= i < |items| :: items[i].clientId != clientId
  {
    if items == [] then None
    else if items[|items| - 1].clientId == clientId then Some(|items| - 1)
    else LastItem(items[..|items| - 1], clientId)
  }

  /** The outcome the batch promises: each client's row is its old row with the last of
      its items applied once; a client not named keeps its row. */
  ghost predicate LastVersionsWin(t: Table, t': Table, items: seq<Upsert>, now: int) {
    && (forall c: string :: RowFor(t', c) ==
          match LastItem(items, c)
          case Some(i) => UpsertFor(RowFor(t, c), c, items[i].spec, now)
          case None => RowFor(t, c))
    && (forall c: string :: Conflict(t.rows, Some(c)).Some? ==> Conflict(t'.rows, Some(c)) == Conflict(t.rows, Some(c)))
    && (forall id | id in t.rows :: id in t'.rows && t'.rows[id].clientId == t.rows[id].clientId)
    && (forall id | id in t.rows && t.rows[id].clientId.None? :: t'.rows[id] == t.rows[id])
    && (forall id | id in t'.rows && id !in t.rows :: t'.rows[id].clientId.Some?)
  }

  lemma OneUpsert(t: Table, clientId: string, s: Spec, now: int, c: string)
    requires TableInv(t) && ValidBudget(s.maxRuntime)
    ensures var t' := UpsertInto(t, clientId, s, now);
            && RowFor(t', c) == (if c == clientId then UpsertFor(RowFor(t, c), c, s, now) else RowFor(t, c))
            && (Conflict(t.rows, Some(c)).Some? ==> Conflict(t'.rows, Some(c)) == Conflict(t.rows, Some(c)))
            && Conflict(t'.rows, Some(clientId)) == Some(UpsertId(t, clientId))
  {
    UpsertKeepsTable(t, clientId, s, now);
    var t', id := UpsertInto(t, clientId, s, now), UpsertId(t, clientId);
    ConflictIsUnique(t'.rows, id);
    var k := Conflict(t.rows, Some(c));
    if k.Some? {
      ConflictIsUnique(t'.rows, k.value);
    }
  }

  /** Only the last of two upserts of one client shows. */
  lemma LastUpsertAbsorbs(row: Option<Row>, c: string, s1: Spec, s2: Spec, now: int)
    requires row.Some? ==> row.value.clientId == Some(c)
    ensures UpsertFor(UpsertFor(row, c, s1, now), c, s2, now) == UpsertFor(row, c, s2, now)
  {
  }

  /** The last entry of `order` that names this client. */
  function LastIn(items: seq<Upsert>, order: seq<nat>, c: string): (r: Option<nat>)
    requires InRange(items, order)
    ensures r.Some? ==> r.value < |items| && items[r.value].clientId == c
    decreases |order|
  {
    if order == [] then None
    else if items[order[|order| - 1]].clientId == c then Some(order[|order| - 1])
    else LastIn(items, order[..|order| - 1], c)
  }

  lemma {:induction false} ApplyInTable(t: Table, items: seq<Upsert>, order: seq<nat>, now: int)
    requires TableInv(t) && ValidItems(items) && InRange(items, order)
    ensures var t' := ApplyIn(t, items, order, now);
            && TableInv(t')
            && (forall id | id in t.rows :: id in t'.rows && t'.rows[id].clientId == t.rows[id].clientId)
            && (forall id | id in t.rows && t.rows[id].clientId.None? :: t'.rows[id] == t.rows[id])
            && (forall id | id in t'.rows && id !in t.rows :: t'.rows[id].clientId.Some?)
    decreases |order|
  {
    if order != [] {
      var front := order[..|order| - 1];
      ApplyInTable(t, items, front, now);
      var u := items[order[|order| - 1]];
      UpsertKeepsTable(ApplyIn(t, items, front, now), u.clientId, u.spec, now);
    }
  }

  lemma {:induction false} ApplyInClient(t: Table, items: seq<Upsert>, order: seq<nat>, now: int, c: string)
    requires TableInv(t) && ValidItems(items) && InRange(items, order)
    ensures var t' := ApplyIn(t, items, order, now);
            && RowFor(t', c) == (match LastIn(items, order, c)
                                 case Some(i) => UpsertFor(RowFor(t, c), c, items[i].spec, now)
                                 case None => RowFor(t, c))
            && (Conflict(t.rows, Some(c)).Some? ==> Conflict(t'.rows, Some(c)) == Conflict(t.rows, Some(c)))
    decreases |order|
  {
    if order != [] {
      var front := order[..|order| - 1];
      ApplyInClient(t, items, front, now, c);
      ApplyInTable(t, items, front, now);
      var u := items[order[|order| - 1]];
      OneUpsert(ApplyIn(t, items, front, now), u.clientId, u.spec, now, c);
      match LastIn(items, front, c)
      case Some(i) => LastUpsertAbsorbs(RowFor(t, c), c, items[i].spec, u.spec, now);
      case None =>
    }
  }

  /** In an order that keeps equal keys in input order, the last write of a client is
      its last item. */
  lemma {:induction false} LastInIsLastItem(items: seq<Upsert>, order: seq<nat>, c: string)
    requires InRange(items, order)
    requires forall i | 0 <= i < |items| && items[i].clientId == c :: i in order
    requires forall a, b | 0 <= a < b < |order| && items[order[a]].clientId == items[order[b]].clientId ::
               order[a] < order[b]
    ensures LastIn(items, order, c) == LastItem(items, c)
  {
    var a := LastInAt(items, order, c);
    if a < |order| {
      var i := order[a];
      forall j | i < j < |items| ensures items[j].clientId != c {
        assert items[j].clientId == c ==> j in order;
      }
    }
  }

  lemma {:induction false} LastInAt(items: seq<Upsert>, order: seq<nat>, c: string) returns (a: nat)
    requires InRange(items, order)
    ensures a <= |order|
    ensures a < |order| ==> LastIn(items, order, c) == Some(order[a]) && items[order[a]].clientId == c
    ensures a == |order| ==> LastIn(items, order, c) == None
    ensures forall b | 0 <= b < |order| && (a == |order| || a < b) :: items[order[b]].clientId != c
    decreases |order|
  {
    if order == [] {
      return 0;
    }
    var front := order[..|order| - 1];
    if items[order[|order| - 1]].clientId == c {
      return |order| - 1;
    }
    a := LastInAt(items, front, c);
    assert forall b | 0 <= b < |front| :: front[b] == order[b];
    if a == |front| {
      a := |order|;
    }
  }

  lemma StableOrderKeepsLast(items: seq<Upsert>, order: seq<nat>)
    requires IsStableOrder(Keys(items), order) || order == InputOrder(|items|)
    ensures InRange(items, order)
    ensures forall c: string :: LastIn(items, order, c) == LastItem(items, c)
  {
    var keys := Keys(items);
    forall c: string ensures LastIn(items, order, c) == LastItem(items, c) {
      if order == InputOrder(|items|) {
        forall i | 0 <= i < |items| ensures i in order {
          assert order[i] == i;
        }
      } else {
        forall a, b | 0 <= a < b < |order| && items[order[a]].clientId == items[order[b]].clientId
          ensures order[a] < order[b]
        {
          assert Before(keys, order[a], order[b]);
        }
        forall i | 0 <= i < |items| ensures i in order {
        }
      }
      LastInIsLastItem(items, order, c);
    }
  }

  /** Writing a batch in `client_id` order leaves each client exactly what writing it
      in input order would, and both keep the promise above. Only the ids
      given to new rows may differ. */
  lemma SortedEqualsInputOrder(t: Table, items: seq<Upsert>, now: int)
    requires TableInv(t) && ValidItems(items)
    ensures var sorted, input := StableOrder(Keys(items)), InputOrder(|items|);
            && InRange(items, sorted) && InRange(items, input)
            && LastVersionsWin(t, ApplyIn(t, items, sorted, now), items, now)
            && LastVersionsWin(t, ApplyIn(t, items, input, now), items, now)
            && (forall c: string ::
                  RowFor(ApplyIn(t, items, sorted, now), c) == RowFor(ApplyIn(t, items, input, now), c))
            && (forall id | id in t.rows ::
                  ApplyIn(t, items, sorted, now).rows[id] == ApplyIn(t, items, input, now).rows[id])
  {
    var sorted, input := StableOrder(Keys(items)), InputOrder(|items|);
    OrderWins(t, items, sorted, now);
    OrderWins(t, items, input, now);
    var a, b := ApplyIn(t, items, sorted, now), ApplyIn(t, items, input, now);
    forall id | id in t.rows ensures a.rows[id] == b.rows[id] {
      match t.rows[id].clientId
      case None =>
      case Some(c) =>
        ConflictIsUnique(t.rows, id);
        assert RowFor(a, c) == Some(a.rows[id]);
        assert RowFor(b, c) == Some(b.rows[id]);
    }
  }

  lemma OrderWins(t: Table, items: seq<Upsert>, order: seq<nat>, now: int)
    requires TableInv(t) && ValidItems(items)
    requires IsStableOrder(Keys(items), order) || order == InputOrder(|items|)
    ensures InRange(items, order)
    ensures TableInv(ApplyIn(t, items, order, now))
    ensures LastVersionsWin(t, ApplyIn(t, items, order, now), items, now)
  {
    StableOrderKeepsLast(items, order);
    ApplyInTable(t, items, order, now);
    forall c: string
      ensures var t' := ApplyIn(t, items, order, now);
              && RowFor(t', c) == (match LastItem(items, c)
                                   case Some(i) => UpsertFor(RowFor(t, c), c, items[i].spec, now)
                                   case None => RowFor(t, c))
              && (Conflict(t.rows, Some(c)).Some? ==> Conflict(t'.rows, Some(c)) == Conflict(t.rows, Some(c)))
    {
      ApplyInClient(t, items, order, now, c);
    }
  }

  /** After `k` statements, `ids` holds the row id of each item written so far. */
  predicate IdsSoFar(t: Table, items: seq<Upsert>, order: seq<nat>, k: nat, ids: seq<nat>)
    requires InRange(items, order) && k <= |order| && |ids| == |items|
  {
    forall j | 0 <= j < k :: Conflict(t.rows, Some(items[order[j]].clientId)) == Some(ids[order[j]])
  }

  lemma IdsKept(t: Table, items: seq<Upsert>, order: seq<nat>, k: nat, ids: seq<nat>, now: int)
    requires TableInv(t) && ValidItems(items) && IsStableOrder(Keys(items), order)
    requires InRange(items, order) && k < |order| && |ids| == |items| && IdsSoFar(t, items, order, k, ids)
    ensures var u := items[order[k]];
            IdsSoFar(UpsertInto(t, u.clientId, u.spec, now), items, order, k + 1,
                     ids[order[k] := UpsertId(t, u.clientId)])
  {
    hide TableInv, UpsertInto, ValidItems;
    var u := items[order[k]];
    assert ValidBudget(u.spec.maxRuntime) by {
      ValidAt(items, order[k]);
    }
    forall j | 0 <= j <= k
      ensures Conflict(UpsertInto(t, u.clientId, u.spec, now).rows, Some(items[order[j]].clientId)) ==
              Some(ids[order[k] := UpsertId(t, u.clientId)][order[j]])
    {
      OneUpsert(t, u.clientId, u.spec, now, items[order[j]].clientId);
      assert j == k || Before(Keys(items), order[j], order[k]);
    }
  }

  lemma ValidAt(items: seq<Upsert>, i: nat)
    requires ValidItems(items) && i < |items|
    ensures ValidBudget(items[i].spec.maxRuntime)
  {
  }

  lemma AllIds(t: Table, items: seq<Upsert>, order: seq<nat>, ids: seq<nat>)
    requires IsStableOrder(Keys(items), order) && InRange(items, order) && |ids| == |items|
    requires IdsSoFar(t, items, order, |order|, ids)
    ensures forall i | 0 <= i < |items| :: Conflict(t.rows, Some(items[i].clientId)) == Some(ids[i])
  {
    forall i | 0 <= i < |items| ensures Conflict(t.rows, Some(items[i].clientId)) == Some(ids[i]) {
      assert i in order;
    }
  }
}

/** Which row a claim picks, and the order in which a lone worker drains a table. */
module ClaimOrder {
  import opened Wrappers
  import opened Tasks
  import opened TaskTable

  /** `ORDER BY priority DESC, run_at`; ties are left to the database. */
  predicate Precedes(a: Row, b: Row) {
    a.spec.priority > b.spec.priority || (a.spec.priority == b.spec.priority && a.spec.runAt <= b.spec.runAt)
  }

  /** The rows the query sees: due, of a wanted priority, and not locked by another
      transaction (`SKIP LOCKED`). */
  function Candidates(rows: map<nat, Row>, now: int, priorities: set<int>, locked: set<nat>): set<nat> {
    set id | id in rows && id !in locked && Claimable(rows[id], now, priorities)
  }

  /** A row the query may return. */
  predicate Best(rows: map<nat, Row>, id: nat, now: int, priorities: set<int>, locked: set<nat>) {
    && id in Candidates(rows, now, priorities, locked)
    && forall k | k in Candidates(rows, now, priorities, locked) :: Precedes(rows[id], rows[k])
  }

  lemma {:induction false} FirstOf(rows: map<nat, Row>, ids: set<nat>) returns (id: nat)
    requires ids != {} && ids <= rows.Keys
    ensures id in ids && forall k | k in ids :: Precedes(rows[id], rows[k])
  {
    id :| id in ids;
    if ids != {id} {
      var other := FirstOf(rows, ids - {id});
      assert forall k | k in ids :: k == id || k in ids - {id};
      if !Precedes(rows[id], rows[other]) {
        id := other;
      }
    }
  }

  /** The query finds nothing only when there is nothing to claim. */
  lemma BestExists(rows: map<nat, Row>, now: int, priorities: set<int>, locked: set<nat>)
    ensures (exists id :: Best(rows, id, now, priorities, locked)) <==> Candidates(rows, now, priorities, locked) != {}
  {
    if Candidates(rows, now, priorities, locked) != {} {
      var id := FirstOf(rows, Candidates(rows, now, priorities, locked));
      assert Best(rows, id, now, priorities, locked);
    }
  }

  /** A PENDING row that is due and wanted, spelled out. */
  predicate Waits(row: Row, now: int, priorities: set<int>) {
    row.status == Pending && row.spec.runAt <= now && (priorities != {} ==> row.spec.priority in priorities)
  }

  /** The query finds nothing exactly when no unlocked row waits. */
  lemma NothingToClaim(rows: map<nat, Row>, now: int, priorities: set<int>, locked: set<nat>)
    ensures Candidates(rows, now, priorities, locked) == {} <==>
            forall id | id in rows && id !in locked :: !Waits(rows[id], now, priorities)
  {
    var found := Candidates(rows, now, priorities, locked);
    forall id ensures id in found <==> id in rows && id !in locked && Waits(rows[id], now, priorities) {
    }
  }

  /** What it finds waits, and no other row that does has a higher priority, or the same one
      and an earlier `run_at`. */
  lemma BestInColumns(rows: map<nat, Row>, id: nat, now: int, priorities: set<int>, locked: set<nat>)
    ensures Best(rows, id, now, priorities, locked) <==>
            && id in rows && id !in locked && Waits(rows[id], now, priorities)
            && forall k | k in rows && k !in locked && Waits(rows[k], now, priorities) ::
                 || rows[k].spec.priority < rows[id].spec.priority
                 || (rows[k].spec.priority == rows[id].spec.priority && rows[id].spec.runAt <= rows[k].spec.runAt)
  {
    var found := Candidates(rows, now, priorities, locked);
    forall k ensures k in found <==> k in rows && k !in locked && Waits(rows[k], now, priorities) {
    }
  }

  /** One `run_worker_once` with no other actor: claim at `now`, run, record the
      result. `after` is the table it leaves. */
  datatype Turn = Turn(id: nat, now: int, status: Status, error: Option<string>, endedAt: int, after: Table)

  predicate TurnOf(t: Table, turn: Turn, priorities: set<int>) {
    && Best(t.rows, turn.id, turn.now, priorities, {})
    && turn.status in {Completed, Failed}
    && (turn.status == Completed ==> turn.error.None?)
    && turn.after ==
       FinishInto(ClaimInto(t, turn.id, turn.now), turn.id, turn.now, turn.status, turn.error, turn.endedAt)
  }

  predicate Turns(t: Table, turns: seq<Turn>, priorities: set<int>)
    decreases |turns|
  {
    turns != [] ==> TurnOf(t, turns[0], priorities) && Turns(turns[0].after, turns[1..], priorities)
  }

  function TableAfter(t: Table, turns: seq<Turn>): Table {
    if turns == [] then t else turns[|turns| - 1].after
  }

  /** The PENDING rows this worker will ever want, due or not. An empty set of
      priorities means no filter. */
  function Wanted(rows: map<nat, Row>, priorities: set<int>): set<nat> {
    set id | id in rows && rows[id].status == Pending && (priorities == {} || rows[id].spec.priority in priorities)
  }

  function Ids(turns: seq<Turn>): (r: set<nat>)
    ensures forall k | 0 <= k < |turns| :: turns[k].id in r
  {
    if turns == [] then {} else {turns[0].id} + Ids(turns[1..])
  }

  /** A turn takes exactly one row out of the wanted ones and touches no other row. */
  lemma TurnTakesOne(t: Table, turn: Turn, priorities: set<int>)
    requires TableInv(t) && TurnOf(t, turn, priorities)
    ensures TableInv(turn.after)
    ensures turn.id in Wanted(t.rows, priorities)
    ensures Wanted(turn.after.rows, priorities) == Wanted(t.rows, priorities) - {turn.id}
    ensures turn.after.rows.Keys == t.rows.Keys
    ensures forall id | id in t.rows && id != turn.id :: turn.after.rows[id] == t.rows[id]
  {
    hide UniqueClients;
    ClaimKeepsTable(t, turn.id, turn.now);
    FinishKeepsTable(ClaimInto(t, turn.id, turn.now), turn.id, turn.now, turn.status, turn.error, turn.endedAt);
    assert Shape(t.rows[turn.id]);
  }

  predicate AllDue(rows: map<nat, Row>, ids: set<nat>, turns: seq<Turn>) {
    forall k, id | 0 <= k < |turns| && id in ids && id in rows :: rows[id].spec.runAt <= turns[k].now
  }

  /** The first row claimed goes before every other row wanted. */
  lemma FirstGoesFirst(t: Table, turn: Turn, priorities: set<int>)
    requires TurnOf(t, turn, priorities)
    requires forall id | id in Wanted(t.rows, priorities) :: t.rows[id].spec.runAt <= turn.now
    ensures forall id | id in Wanted(t.rows, priorities) :: Precedes(t.rows[turn.id], t.rows[id])
  {
    forall id | id in Wanted(t.rows, priorities) ensures Precedes(t.rows[turn.id], t.rows[id]) {
      assert id in Candidates(t.rows, turn.now, priorities, {});
    }
  }

  lemma {:induction false} TurnsTakeAll(t: Table, turns: seq<Turn>, priorities: set<int>)
    requires TableInv(t) && Turns(t, turns, priorities)
    ensures Ids(turns) <= Wanted(t.rows, priorities)
    ensures Wanted(TableAfter(t, turns).rows, priorities) == Wanted(t.rows, priorities) - Ids(turns)
    ensures |Ids(turns)| == |turns|
    decreases |turns|
  {
    if turns != [] {
      hide TableInv, TurnOf, Wanted, TableAfter;
      LastTable(t, turns);
      TurnTakesOne(t, turns[0], priorities);
      TurnsTakeAll(turns[0].after, turns[1..], priorities);
      assert turns[0].id !in Ids(turns[1..]);
    }
  }

  lemma LastTable(t: Table, turns: seq<Turn>)
    ensures TableAfter(t, []) == t
    ensures turns != [] ==> TableAfter(t, turns) == TableAfter(turns[0].after, turns[1..])
  {
  }

  /** The rows that no turn takes stay as they are. */
  lemma {:induction false} TurnsFrame(t: Table, turns: seq<Turn>, priorities: set<int>)
    requires TableInv(t) && Turns(t, turns, priorities)
    ensures forall id | id in t.rows && id !in Ids(turns) ::
              id in TableAfter(t, turns).rows && TableAfter(t, turns).rows[id] == t.rows[id]
    decreases |turns|
  {
    hide TableInv, TurnOf, Wanted, TableAfter;
    LastTable(t, turns);
    if turns != [] {
      TurnTakesOne(t, turns[0], priorities);
      TurnsFrame(turns[0].after, turns[1..], priorities);
    }
  }

  lemma {:induction false} TurnsInOrder(t: Table, turns: seq<Turn>, priorities: set<int>, i: nat, j: nat)
    requires TableInv(t) && Turns(t, turns, priorities) && i < j < |turns|
    requires AllDue(t.rows, Wanted(t.rows, priorities), turns)
    ensures turns[i].id in Wanted(t.rows, priorities) && turns[j].id in Wanted(t.rows, priorities)
    ensures turns[i].id != turns[j].id && Precedes(t.rows[turns[i].id], t.rows[turns[j].id])
    decreases |turns|
  {
    hide TableInv, TurnOf, Precedes;
    var turn, rest := turns[0], turns[1..];
    TurnTakesOne(t, turn, priorities);
    if i > 0 {
      TurnsInOrder(turn.after, rest, priorities, i - 1, j - 1);
    } else {
      TurnsTakeAll(turn.after, rest, priorities);
      assert rest[j - 1].id in Ids(rest);
      FirstGoesFirst(t, turn, priorities);
    }
  }

  /** Once every wanted row is due, the query finds exactly the wanted ones left. */
  lemma LeftIsFound(t: Table, turns: seq<Turn>, priorities: set<int>, now: int)
    requires TableInv(t) && Turns(t, turns, priorities)
    requires forall id | id in Wanted(t.rows, priorities) :: t.rows[id].spec.runAt <= now
    ensures Candidates(TableAfter(t, turns).rows, now, priorities, {}) == Wanted(t.rows, priorities) - Ids(turns)
  {
    hide TableInv, Turns;
    TurnsTakeAll(t, turns, priorities);
    TurnsFrame(t, turns, priorities);
    var rows := TableAfter(t, turns).rows;
    forall id | id in Wanted(rows, priorities) ensures id in Candidates(rows, now, priorities, {}) {
      assert rows[id] == t.rows[id];
    }
  }

  /** A lone worker that finds every wanted row due claims each of them exactly once, by
      non-increasing priority and then non-decreasing `run_at`; each turn lowers
      the number of PENDING rows by one, so it stops; and it can take another
      turn, at any later `now`, until exactly when it has claimed them all. */
  lemma {:induction false} DrainsInOrder(t: Table, turns: seq<Turn>, priorities: set<int>, now: int)
    requires TableInv(t) && Turns(t, turns, priorities)
    requires forall id | id in Wanted(t.rows, priorities) :: t.rows[id].spec.runAt <= now
    requires AllDue(t.rows, Wanted(t.rows, priorities), turns)
    ensures Ids(turns) <= Wanted(t.rows, priorities)
    ensures |Wanted(TableAfter(t, turns).rows, priorities)| + |turns| == |Wanted(t.rows, priorities)|
    ensures (forall id :: !Best(TableAfter(t, turns).rows, id, now, priorities, {})) <==>
            Ids(turns) == Wanted(t.rows, priorities)
    ensures forall i, j | 0 <= i < j < |turns| ::
              turns[i].id != turns[j].id && Precedes(t.rows[turns[i].id], t.rows[turns[j].id])
  {
    hide TableInv, Turns, TurnOf, Best;
    TurnsTakeAll(t, turns, priorities);
    LeftIsFound(t, turns, priorities, now);
    BestExists(TableAfter(t, turns).rows, now, priorities, {});
    var wanted := Wanted(t.rows, priorities);
    assert wanted == (wanted - Ids(turns)) + Ids(turns);
    forall i, j | 0 <= i < j < |turns|
      ensures turns[i].id != turns[j].id && Precedes(t.rows[turns[i].id], t.rows[turns[j].id])
    {
      TurnsInOrder(t, turns, priorities, i, j);
    }
  }
}

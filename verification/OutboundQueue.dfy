/**
 * The outbound queue: its table (src/store/queue.rs) and the one worker that
 * submits from it (src/retry.rs). Time is in whole seconds.
 */
module OutboundQueue {
  datatype Row = Row(id: nat, event: string, body: string, releaseAt: nat, retries: nat, lastRetry: nat)

  type Table = map<nat, Row>

  /** Minutes to wait after the given number of failures, as the query spells them out. */
  function BackoffMinutes(retries: nat): nat {
    match retries
    case 1 => 1
    case 2 => 2
    case 3 => 4
    case 4 => 8
    case 5 => 16
    case 6 => 32
    case 7 => 64
    case 8 => 128
    case _ => 256
  }

  /** Past the hold, and past the backoff when it failed before. */
  predicate Eligible(row: Row, now: nat) {
    && row.retries < 10
    && row.releaseAt <= now
    && (row.retries == 0 || row.lastRetry + 60 * BackoffMinutes(row.retries) < now)
  }

  /** `LIMIT 10` without an order: any ten eligible rows, or all of them. */
  ghost predicate IsBatch(rows: Table, now: nat, batch: seq<Row>) {
    && |batch| <= 10
    && (forall i | 0 <= i < |batch| :: batch[i].id in rows && rows[batch[i].id] == batch[i] && Eligible(batch[i], now))
    && (forall i, j | 0 <= i < j < |batch| :: batch[i].id != batch[j].id)
    && (|batch| < 10 ==> forall id | id in rows && Eligible(rows[id], now) :: rows[id] in batch)
  }

  function Cancelled(rows: Table, event: string): Table {
    map id | id in rows && rows[id].event != event :: rows[id]
  }

  function Edited(rows: Table, event: string, body: string): Table {
    map id | id in rows :: if rows[id].event == event then rows[id].(body := body) else rows[id]
  }

  function Aged(rows: Table, id: nat, now: nat): Table {
    if id in rows then rows[id := rows[id].(retries := rows[id].retries + 1, lastRetry := now)] else rows
  }

  function Removed(rows: Table, id: nat): Table {
    rows - {id}
  }

  predicate SameRow(before: Table, after: Table, id: nat) {
    (id in after <==> id in before) && (id in before ==> after[id] == before[id])
  }

  /**
   * The row is gone after a delivery, for want of its room or after its tenth failure,
   * and otherwise counts one more.
   */
  predicate EndsAs(before: Table, after: Table, id: nat, outcome: Outcome, now: nat) {
    && id in before
    && if outcome.Failed? && before[id].retries < 9
       then id in after && after[id] == before[id].(retries := before[id].retries + 1, lastRetry := now)
       else id !in after
  }

  ghost predicate Keyed(rows: Table, nextId: nat) {
    forall id | id in rows :: rows[id].id == id && id < nextId
  }

  /** How one submission ended: `RoomGone` purges, `Failed` ages the row or gives up. */
  datatype Outcome = Delivered | RoomGone | Failed

  /** `handle_unresolved` gives up on the count the snapshot carried. */
  predicate GivesUp(row: Row) { row.retries >= 9 }

  function Resolved(rows: Table, row: Row, outcome: Outcome, now: nat): Table {
    if outcome.Failed? && !GivesUp(row) then Aged(rows, row.id, now) else Removed(rows, row.id)
  }

  function AllResolved(rows: Table, batch: seq<Row>, outcomes: seq<Outcome>, now: nat): Table
    requires |batch| == |outcomes|
  {
    if batch == [] then rows
    else AllResolved(Resolved(rows, batch[0], outcomes[0], now), batch[1..], outcomes[1..], now)
  }

  /** Which of the first `k` rows of the batch are given up. */
  ghost function GivenUp(batch: seq<Row>, outcomes: seq<Outcome>, k: nat): set<int>
    requires k <= |batch| <= |outcomes|
  {
    set i | 0 <= i < k && outcomes[i].Failed? && GivesUp(batch[i])
  }

  /** The table as the bridge updates it. */
  class Queue {
    var rows: Table
    var nextId: nat

    ghost predicate Valid() reads this { Keyed(rows, nextId) }

    constructor ()
      ensures Valid() && rows == map[]
    {
      rows, nextId := map[], 0;
    }

    /** `add_to_outbound_queue` */
    method Add(event: string, body: string, delay: nat, now: nat)
      requires Valid()
      modifies this
      ensures Valid() && nextId == old(nextId) + 1
      ensures rows == old(rows)[old(nextId) := Row(old(nextId), event, body, now + delay, 0, now)]
      ensures old(nextId) !in old(rows)
    {
      rows := rows[nextId := Row(nextId, event, body, now + delay, 0, now)];
      nextId := nextId + 1;
    }

    /** `get_pending_outbound` */
    method GetPending(now: nat) returns (batch: seq<Row>)
      requires Valid()
      ensures IsBatch(rows, now, batch)
    {
      batch := [];
      var left := rows.Keys;
      while left != {} && |batch| < 10
        invariant left <= rows.Keys && |batch| <= 10
        invariant forall i | 0 <= i < |batch| ::
          batch[i].id in rows && batch[i].id !in left && rows[batch[i].id] == batch[i] && Eligible(batch[i], now)
        invariant forall i, j | 0 <= i < j < |batch| :: batch[i].id != batch[j].id
        invariant forall id | id in rows && id !in left && Eligible(rows[id], now) :: rows[id] in batch
        decreases left
      {
        var id :| id in left;
        left := left - {id};
        if Eligible(rows[id], now) {
          batch := batch + [rows[id]];
        }
      }
    }

    /** `cancel_outbound_by_event` */
    method CancelByEvent(event: string) returns (removed: bool)
      requires Valid()
      modifies this`rows
      ensures Valid() && rows == Cancelled(old(rows), event)
      ensures removed <==> exists id :: id in old(rows) && old(rows)[id].event == event
    {
      removed := exists id :: id in rows && rows[id].event == event;
      rows := map id | id in rows && rows[id].event != event :: rows[id];
    }

    /** `update_outbound_body_by_event` */
    method UpdateBodyByEvent(event: string, body: string) returns (updated: bool)
      requires Valid()
      modifies this`rows
      ensures Valid() && rows == Edited(old(rows), event, body)
      ensures updated <==> exists id :: id in old(rows) && old(rows)[id].event == event
    {
      updated := exists id :: id in rows && rows[id].event == event;
      rows := map id | id in rows :: if rows[id].event == event then rows[id].(body := body) else rows[id];
    }

    /** `update_retry_count` */
    method UpdateRetryCount(id: nat, now: nat)
      requires Valid()
      modifies this`rows
      ensures Valid() && rows == Aged(old(rows), id, now)
    {
      if id in rows {
        var row := rows[id];
        rows := rows[id := row.(retries := row.retries + 1, lastRetry := now)];
      }
    }

    /** `remove_from_outbound_queue` */
    method Remove(id: nat)
      requires Valid()
      modifies this`rows
      ensures Valid() && rows == Removed(old(rows), id)
    {
      rows := rows - {id};
    }

    /**
     * One pass of `run_retry_loop` with nobody else at the table: every row of
     * the snapshot is submitted once, with the outcomes the mail server chooses.
     */
    method RunOnce(now: nat, outcomes: seq<Outcome>) returns (batch: seq<Row>, notices: nat)
      requires Valid() && |outcomes| == 10
      modifies this`rows
      ensures Valid() && IsBatch(old(rows), now, batch)
      ensures rows == AllResolved(old(rows), batch, outcomes[..|batch|], now)
      ensures notices == |GivenUp(batch, outcomes, |batch|)|
      ensures forall i | 0 <= i < |batch| :: EndsAs(old(rows), rows, batch[i].id, outcomes[i], now)
      ensures forall id | forall i | 0 <= i < |batch| :: batch[i].id != id :: SameRow(old(rows), rows, id)
    {
      batch := GetPending(now);
      notices := 0;
      var k := 0;
      hide AllResolved, GivenUp, IsBatch;
      NoneGivenUp(batch, outcomes);
      while k < |batch|
        invariant 0 <= k <= |batch| && Valid()
        invariant AllResolved(rows, batch[k..], outcomes[k..|batch|], now)
               == AllResolved(old(rows), batch, outcomes[..|batch|], now)
        invariant notices == |GivenUp(batch, outcomes, k)|
      {
        ResolveNext(rows, batch, outcomes, k, now);
        OneMoreGivenUp(batch, outcomes, k);
        var noticed := Submit(batch[k], outcomes[k], now);
        if noticed {
          notices := notices + 1;
        }
        k := k + 1;
      }
      AllResolvedNone(rows, batch[k..], outcomes[k..|batch|], now);
      BatchEndsAs(old(rows), batch, outcomes[..|batch|], now);
    }

    /** `submit_one`, with `handle_unresolved` for a failure. */
    method Submit(row: Row, outcome: Outcome, now: nat) returns (noticed: bool)
      requires Valid()
      modifies this`rows
      ensures Valid() && rows == Resolved(old(rows), row, outcome, now)
      ensures outcome.Delivered? || outcome.RoomGone? ==> row.id !in rows && !noticed
      ensures outcome.Failed? && row.retries >= 9 ==> row.id !in rows && noticed
      ensures outcome.Failed? && row.retries < 9 ==>
        !noticed && (row.id in rows <==> row.id in old(rows)) && (row.id in rows ==>
          rows[row.id] == old(rows)[row.id].(retries := old(rows)[row.id].retries + 1, lastRetry := now))
      ensures forall id | id != row.id :: SameRow(old(rows), rows, id)
    {
      noticed := false;
      match outcome {
        case Delivered => Remove(row.id);
        case RoomGone => Remove(row.id);
        case Failed =>
          if row.retries >= 9 {
            noticed := true;
            Remove(row.id);
          } else {
            UpdateRetryCount(row.id, now);
          }
      }
    }
  }

  /** The ids of the rows that are due. */
  ghost function Due(rows: Table, now: nat): set<nat> {
    set id | id in rows && Eligible(rows[id], now)
  }

  /** A batch has ten of the rows that are due, or all of them. */
  lemma BatchIsFull(rows: Table, now: nat, batch: seq<Row>)
    requires IsBatch(rows, now, batch) && forall id | id in rows :: rows[id].id == id
    ensures |batch| == if |Due(rows, now)| < 10 then |Due(rows, now)| else 10
  {
    hide Eligible;
    var ids := set i | 0 <= i < |batch| :: batch[i].id;
    IdsAreAsMany(batch);
    assert ids <= Due(rows, now);
    SubsetIsSmaller(ids, Due(rows, now));
    if |batch| < 10 {
      forall id | id in Due(rows, now) ensures id in ids {
        var i :| 0 <= i < |batch| && batch[i] == rows[id];
        assert batch[i].id == id;
      }
      assert ids == Due(rows, now);
    }
  }

  lemma {:induction false} IdsAreAsMany(batch: seq<Row>)
    requires forall i, j | 0 <= i < j < |batch| :: batch[i].id != batch[j].id
    ensures |set i | 0 <= i < |batch| :: batch[i].id| == |batch|
    decreases |batch|
  {
    var ids := set i | 0 <= i < |batch| :: batch[i].id;
    if batch != [] {
      var n := |batch| - 1;
      var front := batch[..n];
      IdsAreAsMany(front);
      var others := set i | 0 <= i < |front| :: front[i].id;
      assert ids == others + {batch[n].id} by {
        forall id | id in ids ensures id in others + {batch[n].id} {
          var i :| 0 <= i < |batch| && batch[i].id == id;
          if i < n { assert front[i].id == id; }
        }
        forall id | id in others ensures id in ids {
          var i :| 0 <= i < |front| && front[i].id == id;
          assert batch[i].id == id;
        }
      }
    }
  }

  lemma SubsetIsSmaller<T>(a: set<T>, b: set<T>)
    requires a <= b
    ensures |a| <= |b|
  {
    assert b == a + (b - a);
  }

  /** Rows that are not in the batch stay as they are. */
  lemma {:induction false} OthersStay(rows: Table, batch: seq<Row>, outcomes: seq<Outcome>, now: nat, id: nat)
    requires |batch| == |outcomes| && forall i | 0 <= i < |batch| :: batch[i].id != id
    ensures SameRow(rows, AllResolved(rows, batch, outcomes, now), id)
    decreases |batch|
  {
    if batch != [] {
      OthersStay(Resolved(rows, batch[0], outcomes[0], now), batch[1..], outcomes[1..], now, id);
    }
  }

  lemma {:induction false} EachEndsAs(rows: Table, batch: seq<Row>, outcomes: seq<Outcome>, now: nat, k: nat)
    requires k < |batch| == |outcomes|
    requires forall i | 0 <= i < |batch| :: batch[i].id in rows && rows[batch[i].id] == batch[i]
    requires forall i, j | 0 <= i < j < |batch| :: batch[i].id != batch[j].id
    ensures EndsAs(rows, AllResolved(rows, batch, outcomes, now), batch[k].id, outcomes[k], now)
    decreases k
  {
    var rest := Resolved(rows, batch[0], outcomes[0], now);
    if k == 0 {
      OthersStay(rest, batch[1..], outcomes[1..], now, batch[0].id);
    } else {
      assert SameRow(rows, rest, batch[k].id);
      forall i | 0 <= i < |batch[1..]| ensures batch[1..][i].id in rest && rest[batch[1..][i].id] == batch[1..][i] {
        assert batch[1..][i] == batch[i + 1] && SameRow(rows, rest, batch[i + 1].id);
      }
      EachEndsAs(rest, batch[1..], outcomes[1..], now, k - 1);
    }
  }

  lemma BatchEndsAs(rows: Table, batch: seq<Row>, outcomes: seq<Outcome>, now: nat)
    requires IsBatch(rows, now, batch) && |batch| == |outcomes|
    ensures
      var rows' := AllResolved(rows, batch, outcomes, now);
      && (forall i | 0 <= i < |batch| :: EndsAs(rows, rows', batch[i].id, outcomes[i], now))
      && (forall id | forall i | 0 <= i < |batch| :: batch[i].id != id :: SameRow(rows, rows', id))
  {
    hide AllResolved, EndsAs, SameRow, Eligible;
    forall i | 0 <= i < |batch|
      ensures EndsAs(rows, AllResolved(rows, batch, outcomes, now), batch[i].id, outcomes[i], now)
    {
      EachEndsAs(rows, batch, outcomes, now, i);
    }
    forall id | forall i | 0 <= i < |batch| :: batch[i].id != id
      ensures SameRow(rows, AllResolved(rows, batch, outcomes, now), id)
    {
      OthersStay(rows, batch, outcomes, now, id);
    }
  }

  lemma NoneGivenUp(batch: seq<Row>, outcomes: seq<Outcome>)
    requires |batch| <= |outcomes|
    ensures |GivenUp(batch, outcomes, 0)| == 0
  {
    assert GivenUp(batch, outcomes, 0) == {};
  }

  lemma OneMoreGivenUp(batch: seq<Row>, outcomes: seq<Outcome>, k: nat)
    requires k < |batch| <= |outcomes|
    ensures |GivenUp(batch, outcomes, k + 1)| ==
      |GivenUp(batch, outcomes, k)| + if outcomes[k].Failed? && GivesUp(batch[k]) then 1 else 0
  {
    var before, after := GivenUp(batch, outcomes, k), GivenUp(batch, outcomes, k + 1);
    assert after == if outcomes[k].Failed? && GivesUp(batch[k]) then before + {k} else before;
  }

  lemma ResolveNext(rows: Table, batch: seq<Row>, outcomes: seq<Outcome>, k: nat, now: nat)
    requires k < |batch| <= |outcomes|
    ensures AllResolved(rows, batch[k..], outcomes[k..|batch|], now) ==
      AllResolved(Resolved(rows, batch[k], outcomes[k], now), batch[k + 1..], outcomes[k + 1..|batch|], now)
  {
    assert batch[k..][1..] == batch[k + 1..] && outcomes[k..|batch|][1..] == outcomes[k + 1..|batch|];
  }

  lemma AllResolvedNone(rows: Table, batch: seq<Row>, outcomes: seq<Outcome>, now: nat)
    requires batch == [] && outcomes == []
    ensures AllResolved(rows, batch, outcomes, now) == rows
  {
  }
}

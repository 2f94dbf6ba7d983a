// reservation_repo.go: the reservations table and the operations the hold engine runs on it.
module Reservations {
  import opened Prelude
  import opened RedisStore

  const DEFAULT_LIMIT := 100
  const HELD := "INVENTORY_HOLD"
  const EXPIRED := "EXPIRED"

  datatype Reservation = Reservation(
    propertyId: nat, roomTypeId: nat, checkInDay: int, checkOutDay: int,
    status: string, holdToken: Option<Token>, holdExpiresAt: Option<int>)

  type Table = map<nat, Reservation>

  // status = 'INVENTORY_HOLD' AND hold_expires_at <= cutoff; a NULL expiry never qualifies.
  predicate IsExpiredHold(r: Reservation, cutoff: int) {
    r.status == HELD && r.holdExpiresAt.Some? && r.holdExpiresAt.value <= cutoff
  }

  function ExpiredHolds(rows: Table, cutoff: int): set<nat> {
    set id | id in rows && IsExpiredHold(rows[id], cutoff)
  }

  predicate Distinct(ids: seq<nat>) { forall i, j :: 0 <= i < j < |ids| ==> ids[i] != ids[j] }

  function Ids(ids: seq<nat>): set<nat> { set id | id in ids }

  function Expiry(rows: Table, id: nat): int {
    if id in rows && rows[id].holdExpiresAt.Some? then rows[id].holdExpiresAt.value else 0
  }

  // None of `first` expires after any of `rest`.
  ghost predicate Oldest(rows: Table, first: set<nat>, rest: set<nat>) {
    forall a, b :: a in first && b in rest ==> Expiry(rows, a) <= Expiry(rows, b)
  }

  predicate InExpiryOrder(rows: Table, ids: seq<nat>) {
    forall i, j :: 0 <= i < j < |ids| ==> Expiry(rows, ids[i]) <= Expiry(rows, ids[j])
  }

  // What the query ORDER BY hold_expires_at ASC LIMIT n may return; ties are in any order.
  ghost predicate IsBatch(rows: Table, cutoff: int, limit: nat, ids: seq<nat>) {
    && Distinct(ids) && InExpiryOrder(rows, ids)
    && Ids(ids) <= ExpiredHolds(rows, cutoff)
    && |ids| == Min(limit, |ExpiredHolds(rows, cutoff)|)
    && Oldest(rows, Ids(ids), ExpiredHolds(rows, cutoff) - Ids(ids))
  }

  // A row a sweep may take: held, and with an expiry that has come.
  ghost predicate Eligible(rows: Table, id: nat, cutoff: int) {
    && id in rows && rows[id].status == "INVENTORY_HOLD"
    && rows[id].holdExpiresAt.Some? && rows[id].holdExpiresAt.value <= cutoff
  }

  lemma EligibleIff(rows: Table, skipped: set<nat>, id: nat, cutoff: int)
    ensures id in ExpiredHolds(rows - skipped, cutoff) <==> Eligible(rows, id, cutoff) && id !in skipped
    ensures Eligible(rows, id, cutoff) && id !in skipped ==> Expiry(rows - skipped, id) == rows[id].holdExpiresAt.value
  {
  }

  // What a batch is, in terms of the columns.
  lemma BatchIs(rows: Table, skipped: set<nat>, cutoff: int, limit: nat, ids: seq<nat>)
    requires IsBatch(rows - skipped, cutoff, limit, ids)
    ensures forall id :: id in ids ==> Eligible(rows, id, cutoff) && id !in skipped
    ensures forall i, j :: 0 <= i < j < |ids| ==>
                             && ids[i] != ids[j]
                             && ids[i] in rows && rows[ids[i]].holdExpiresAt.Some?
                             && ids[j] in rows && rows[ids[j]].holdExpiresAt.Some?
                             && rows[ids[i]].holdExpiresAt.value <= rows[ids[j]].holdExpiresAt.value
    ensures |ids| <= limit
    ensures forall id :: Eligible(rows, id, cutoff) && id !in skipped && id !in ids ==>
                           && |ids| == limit
                           && forall other :: other in ids ==>
                                && other in rows && rows[other].holdExpiresAt.Some?
                                && rows[other].holdExpiresAt.value <= rows[id].holdExpiresAt.value
  {
    var visible := rows - skipped;
    forall id ensures id in ExpiredHolds(visible, cutoff) <==> Eligible(rows, id, cutoff) && id !in skipped
              ensures Eligible(rows, id, cutoff) && id !in skipped ==> Expiry(visible, id) == rows[id].holdExpiresAt.value {
      EligibleIff(rows, skipped, id, cutoff);
    }
    forall id | id in ids ensures Eligible(rows, id, cutoff) && id !in skipped { assert id in Ids(ids); }
    assert forall i :: 0 <= i < |ids| ==> ids[i] in ids;
    forall id | Eligible(rows, id, cutoff) && id !in skipped && id !in ids
      ensures |ids| == limit
      ensures forall other :: other in ids ==> rows[other].holdExpiresAt.value <= rows[id].holdExpiresAt.value {
      assert id !in Ids(ids) && id in ExpiredHolds(visible, cutoff);
      FewerThanAll(Ids(ids), ExpiredHolds(visible, cutoff), id);
      DistinctCount(ids);
      forall other | other in ids ensures rows[other].holdExpiresAt.value <= rows[id].holdExpiresAt.value {
        assert other in Ids(ids);
      }
    }
  }

  lemma FewerThanAll(some: set<nat>, all: set<nat>, x: nat)
    requires some <= all && x in all && x !in some
    ensures |some| < |all|
  {
    SubsetSize(some, all - {x});
  }

  lemma {:induction false} SubsetSize(a: set<nat>, b: set<nat>)
    requires a <= b
    ensures |a| <= |b|
  {
    if a != {} {
      var x :| x in a;
      SubsetSize(a - {x}, b - {x});
    }
  }

  lemma {:induction false} DistinctCount(ids: seq<nat>)
    requires Distinct(ids)
    ensures |Ids(ids)| == |ids|
  {
    if ids != [] {
      var n := |ids| - 1;
      DistinctCount(ids[..n]);
      assert Ids(ids) == Ids(ids[..n]) + {ids[n]};
    }
  }

  // UPDATE ... SET status = 'EXPIRED' WHERE id = $1: there is no status guard.
  function MarkExpired(rows: Table, id: nat): Table {
    if id in rows then rows[id := rows[id].(status := EXPIRED)] else rows
  }

  function MarkAllExpired(rows: Table, ids: set<nat>): Table {
    map id | id in rows :: if id in ids then rows[id].(status := EXPIRED) else rows[id]
  }

  // UPDATE ... SET status = new WHERE id = $2 [AND status = old]
  function ChangeStatus(rows: Table, id: nat, oldStatus: string, newStatus: string): (Table, Result<()>) {
    if id !in rows then (rows, Err(ReservationNotFound))
    else if oldStatus != "" && rows[id].status != oldStatus then (rows, Err(InvalidStatusChange))
    else (rows[id := rows[id].(status := newStatus)], Ok(()))
  }

  // A guarded transition takes place exactly on a row that has the old status, an unguarded one (an empty
  // old status) on every row; nothing else changes, and the error tells an absent row from a failed guard.
  lemma TransitionIs(rows: Table, id: nat, oldStatus: string, newStatus: string)
    ensures var (after, res) := ChangeStatus(rows, id, oldStatus, newStatus);
            && (res == Ok(()) <==> id in rows && (oldStatus == "" || rows[id].status == oldStatus))
            && (res == Err(ReservationNotFound) <==> id !in rows)
            && (res == Err(InvalidStatusChange) <==> id in rows && oldStatus != "" && rows[id].status != oldStatus)
            && after.Keys == rows.Keys
            && (forall other :: other in rows && other != id ==> after[other] == rows[other])
            && (id in rows ==> after[id] == if res.Ok? then rows[id].(status := newStatus) else rows[id])
  {
  }

  // ---- what anyone may do to the table ----

  datatype RowOp =
    | Insert(id: nat, row: Reservation)
    | Transition(id: nat, oldStatus: string, newStatus: string)
    | Expire(id: nat)

  function ApplyRow(rows: Table, op: RowOp): Table {
    match op
    case Insert(id, row) => if id in rows then rows else rows[id := row]
    case Transition(id, oldStatus, newStatus) => ChangeStatus(rows, id, oldStatus, newStatus).0
    case Expire(id) => MarkExpired(rows, id)
  }

  function ExecRows(rows: Table, ops: seq<RowOp>): Table {
    if ops == [] then rows else ApplyRow(ExecRows(rows, ops[..|ops| - 1]), ops[|ops| - 1])
  }

  lemma {:induction false} ExecRowsConcat(rows: Table, a: seq<RowOp>, b: seq<RowOp>)
    ensures ExecRows(rows, a + b) == ExecRows(ExecRows(rows, a), b)
  {
    if b == [] {
      assert a + b == a;
    } else {
      ExecRowsConcat(rows, a, b[..|b| - 1]);
      assert (a + b)[..|a + b| - 1] == a + b[..|b| - 1];
    }
  }

  // Rows are never removed.
  lemma {:induction false} RowsStay(rows: Table, ops: seq<RowOp>)
    ensures rows.Keys <= ExecRows(rows, ops).Keys
  {
    if ops != [] { RowsStay(rows, ops[..|ops| - 1]); }
  }

  // A row changes only by operations on it.
  lemma {:induction false} RowUntouched(rows: Table, ops: seq<RowOp>, id: nat)
    requires forall op :: op in ops ==> op.id != id
    ensures id in ExecRows(rows, ops) <==> id in rows
    ensures id in rows ==> ExecRows(rows, ops)[id] == rows[id]
  {
    if ops != [] {
      var before := ops[..|ops| - 1];
      assert forall op :: op in before ==> op in ops;
      assert ops[|ops| - 1] in ops;
      RowUntouched(rows, before, id);
    }
  }

  datatype Attempt = Attempt(target: string, delivery: Delivery)

  // The table after the guarded transitions oldStatus -> target have been tried in turn, and the number
  // of callers told that theirs took place.
  function Race(rows: Table, id: nat, oldStatus: string, attempts: seq<Attempt>): (Table, nat) {
    if attempts == [] then (rows, 0)
    else
      var n := |attempts| - 1;
      var (before, winners) := Race(rows, id, oldStatus, attempts[..n]);
      var (after, res) := ChangeStatus(before, id, oldStatus, attempts[n].target);
      match attempts[n].delivery
      case NotRun => (before, winners)
      case ReplyLost => (after, winners)
      case Replied => (after, winners + if res.Ok? then 1 else 0)
  }

  // The first attempt that reaches the database.
  function FirstToRun(attempts: seq<Attempt>): nat {
    if attempts == [] then 0
    else if attempts[0].delivery != NotRun then 0
    else 1 + FirstToRun(attempts[1..])
  }

  lemma {:induction false} FirstToRunSnoc(attempts: seq<Attempt>, last: Attempt)
    ensures FirstToRun(attempts) <= |attempts|
    ensures FirstToRun(attempts + [last]) ==
            if FirstToRun(attempts) < |attempts| || last.delivery != NotRun then FirstToRun(attempts) else |attempts| + 1
  {
    if attempts != [] {
      FirstToRunSnoc(attempts[1..], last);
      assert (attempts + [last])[1..] == attempts[1..] + [last];
    }
  }

  // One more attempt.
  lemma RaceSnoc(rows: Table, id: nat, oldStatus: string, attempts: seq<Attempt>, last: Attempt)
    requires id in Race(rows, id, oldStatus, attempts).0 && oldStatus != ""
    ensures var (before, winners) := Race(rows, id, oldStatus, attempts);
            Race(rows, id, oldStatus, attempts + [last]) ==
            if last.delivery == NotRun || before[id].status != oldStatus then (before, winners)
            else (before[id := before[id].(status := last.target)], winners + if last.delivery == Replied then 1 else 0)
  {
    assert (attempts + [last])[..|attempts|] == attempts;
  }

  // How the race stands: decided by attempt `first`, or open.
  predicate Decided(rows: Table, id: nat, oldStatus: string, attempts: seq<Attempt>, first: nat, end: (Table, nat))
    requires id in rows
  {
    if rows[id].status == oldStatus && first < |attempts|
    then end == (rows[id := rows[id].(status := attempts[first].target)], if attempts[first].delivery == Replied then 1 else 0)
    else end == (rows, 0)
  }

  // However many callers race to move a reservation out of a status, the first that reaches the
  // database decides: its target is the row's status from then on, only it can be told of success,
  // and it is unless its reply is lost. If the row has another status, nobody changes anything.
  lemma {:induction false} GuardedTransitionHasOneWinner(rows: Table, id: nat, oldStatus: string, attempts: seq<Attempt>)
    requires id in rows && oldStatus != ""
    requires forall a :: a in attempts ==> a.target != oldStatus
    ensures Decided(rows, id, oldStatus, attempts, FirstToRun(attempts), Race(rows, id, oldStatus, attempts))
  {
    if attempts != [] {
      var n := |attempts| - 1;
      var earlier, last := attempts[..n], attempts[n];
      assert attempts == earlier + [last];
      assert forall a :: a in earlier ==> a in attempts;
      GuardedTransitionHasOneWinner(rows, id, oldStatus, earlier);
      FirstToRunSnoc(earlier, last);
      RaceSnoc(rows, id, oldStatus, earlier, last);
      if FirstToRun(earlier) < n { assert attempts[FirstToRun(earlier)] in attempts; }
    }
  }

  // A new hold is found by sweeps from its expiry on; the rows found before still are.
  lemma HoldBecomesSweepable(rows: Table, id: nat, hold: Reservation, cutoff: int)
    requires id !in rows && hold.status == HELD
    ensures ExpiredHolds(rows[id := hold], cutoff)
            == ExpiredHolds(rows, cutoff)
               + if hold.holdExpiresAt.Some? && hold.holdExpiresAt.value <= cutoff then {id} else {}
  {
    var after := rows[id := hold];
    assert forall i :: i in ExpiredHolds(after, cutoff) && i != id ==> i in rows && after[i] == rows[i];
  }

  // Marking takes exactly that row from the backlog, at every cutoff, and sweepers that overlap may mark
  // in any order and twice.
  lemma MarkingShrinksBacklog(rows: Table, a: nat, b: nat, cutoff: int)
    ensures ExpiredHolds(MarkExpired(rows, a), cutoff) == ExpiredHolds(rows, cutoff) - {a}
    ensures MarkExpired(MarkExpired(rows, a), b) == MarkExpired(MarkExpired(rows, b), a)
    ensures MarkExpired(MarkExpired(rows, a), a) == MarkExpired(rows, a)
    ensures MarkExpired(rows, a) == if a in rows then rows[a := rows[a].(status := "EXPIRED")] else rows
  {
    var ab, ba := MarkExpired(MarkExpired(rows, a), b), MarkExpired(MarkExpired(rows, b), a);
    assert ab.Keys == ba.Keys && forall id :: id in ab ==> ab[id] == ba[id];
  }

  lemma TakeNext(rows: Table, taken: seq<nat>, rest: set<nat>, id: nat)
    requires Distinct(taken) && InExpiryOrder(rows, taken) && Ids(taken) !! rest
    requires Oldest(rows, Ids(taken), rest) && id in rest && Oldest(rows, {id}, rest)
    ensures Distinct(taken + [id]) && InExpiryOrder(rows, taken + [id])
    ensures Ids(taken + [id]) == Ids(taken) + {id}
    ensures Oldest(rows, Ids(taken + [id]), rest - {id})
  {
    forall i | 0 <= i < |taken| ensures taken[i] != id && Expiry(rows, taken[i]) <= Expiry(rows, id) {
      assert taken[i] in Ids(taken);
    }
  }

  class ReservationRepository {
    var rows: Table

    constructor (rows: Table)
      ensures this.rows == rows
    {
      this.rows := rows;
    }

    // What others do meanwhile.
    method Perform(ops: seq<RowOp>)
      modifies this
      ensures rows == ExecRows(old(rows), ops)
    {
      for i := 0 to |ops|
        invariant rows == ExecRows(old(rows), ops[..i])
      {
        assert ops[..i + 1][..i] == ops[..i];
        rows := ApplyRow(rows, ops[i]);
      }
      assert ops[..|ops|] == ops;
    }

    // The INSERT of a hold; a uniqueness conflict is one of the ways it never takes place.
    method CreateHold(id: nat, hold: Reservation, delivery: Delivery) returns (ok: bool)
      requires id !in rows
      modifies this
      ensures rows == if delivery == NotRun then old(rows) else old(rows)[id := hold]
      ensures ok <==> delivery == Replied
    {
      if delivery != NotRun {
        rows := rows[id := hold];
      }
      ok := delivery == Replied;
    }

    // `skipped`: the rows that others have locked at that moment. Every row returned is held, has expired
    // and is not locked; they come in the order of their expiry; one such row is left out only when the
    // limit is reached, and then expires no earlier than any returned.
    method GetExpiredHolds(cutoff: int, limit: int, skipped: set<nat>) returns (results: seq<nat>)
      ensures forall id :: id in results ==>
                             && id in rows && id !in skipped && rows[id].status == "INVENTORY_HOLD"
                             && rows[id].holdExpiresAt.Some? && rows[id].holdExpiresAt.value <= cutoff
      ensures forall i, j :: 0 <= i < j < |results| ==>
                               && results[i] != results[j]
                               && results[i] in rows && rows[results[i]].holdExpiresAt.Some?
                               && results[j] in rows && rows[results[j]].holdExpiresAt.Some?
                               && rows[results[i]].holdExpiresAt.value <= rows[results[j]].holdExpiresAt.value
      ensures |results| <= if limit <= 0 then 100 else limit
      ensures forall id :: id in rows && id !in skipped && id !in results && rows[id].status == "INVENTORY_HOLD"
                           && rows[id].holdExpiresAt.Some? && rows[id].holdExpiresAt.value <= cutoff ==>
                             && |results| == (if limit <= 0 then 100 else limit)
                             && forall other :: other in results ==>
                                  && other in rows && rows[other].holdExpiresAt.Some?
                                  && rows[other].holdExpiresAt.value <= rows[id].holdExpiresAt.value
      ensures IsBatch(rows - skipped, cutoff, if limit <= 0 then 100 else limit, results)
    {
      var n := if limit <= 0 then DEFAULT_LIMIT else limit;
      results := TakeOldest(rows - skipped, cutoff, n);
      BatchIs(rows, skipped, cutoff, n, results);
    }

    // ORDER BY hold_expires_at ASC LIMIT n
    method TakeOldest(visible: Table, cutoff: int, n: nat) returns (results: seq<nat>)
      ensures IsBatch(visible, cutoff, n, results)
    {
      var expired := ExpiredHolds(visible, cutoff);
      var rest := expired;
      results := [];
      while |results| < n && rest != {}
        invariant rest <= expired && |results| <= n
        invariant Distinct(results)
        invariant Ids(results) == expired - rest
        invariant |results| + |rest| == |expired|
        invariant InExpiryOrder(visible, results)
        invariant Oldest(visible, Ids(results), rest)
        decreases rest
      {
        var id := OldestOf(visible, rest);
        TakeNext(visible, results, rest, id);
        results := results + [id];
        rest := rest - {id};
      }
      assert rest == expired - Ids(results);
    }

    method OldestOf(visible: Table, ids: set<nat>) returns (oldest: nat)
      requires ids != {}
      ensures oldest in ids && Oldest(visible, {oldest}, ids)
    {
      oldest :| oldest in ids;
      var rest := ids - {oldest};
      while rest != {}
        invariant rest <= ids && oldest in ids && Oldest(visible, {oldest}, ids - rest)
        decreases rest
      {
        var id :| id in rest;
        if Expiry(visible, id) < Expiry(visible, oldest) {
          oldest := id;
        }
        rest := rest - {id};
      }
    }

    method MarkReservationExpired(id: nat, delivery: Delivery) returns (res: Result<()>)
      modifies this
      ensures rows == if delivery == NotRun || id !in old(rows) then old(rows)
                      else old(rows)[id := old(rows)[id].(status := "EXPIRED")]
      ensures res == if delivery != Replied then Err(Infrastructure)
                     else if id in old(rows) then Ok(()) else Err(ReservationNotFound)
    {
      var found := id in rows;
      if delivery != NotRun && found {
        rows := rows[id := rows[id].(status := EXPIRED)];
      }
      if delivery != Replied {
        return Err(Infrastructure);
      }
      return if found then Ok(()) else Err(ReservationNotFound);
    }

    // `fetched`: the existence check that follows an update of no row gets through.
    method UpdateStatus(id: nat, oldStatus: string, newStatus: string, delivery: Delivery, fetched: bool)
      returns (res: Result<()>)
      modifies this
      ensures rows == if delivery == NotRun then old(rows) else ChangeStatus(old(rows), id, oldStatus, newStatus).0
      ensures res == if delivery != Replied then Err(Infrastructure)
                     else if ChangeStatus(old(rows), id, oldStatus, newStatus).1.Err? && !fetched then Err(Infrastructure)
                     else ChangeStatus(old(rows), id, oldStatus, newStatus).1
    {
      var affected := 0;
      if delivery != NotRun && id in rows && (oldStatus == "" || rows[id].status == oldStatus) {
        rows := rows[id := rows[id].(status := newStatus)];
        affected := 1;
      }
      if delivery != Replied {
        return Err(Infrastructure);
      }
      if affected == 0 {
        if !fetched {
          return Err(Infrastructure);
        }
        return Err(if id in rows then InvalidStatusChange else ReservationNotFound);
      }
      return Ok(());
    }
  }
}

// hold_sweeper.go: one sweep, and draining a backlog with several.
module HoldSweeper {
  import opened Prelude
  import opened RedisStore
  import opened Acquisition
  import opened HoldAdapter
  import opened Reservations

  // The fate of the i-th status update of a sweep.
  function Fate(marks: seq<Delivery>, i: nat): Delivery { if i < |marks| then marks[i] else Replied }

  // The rows whose update ran, among the first n of the batch.
  function Marked(batch: seq<nat>, marks: seq<Delivery>, n: nat): set<nat>
    requires n <= |batch|
  {
    set i | 0 <= i < n && Fate(marks, i) != NotRun :: batch[i]
  }

  // The table after the first n updates.
  function AfterMarks(rows: Table, batch: seq<nat>, marks: seq<Delivery>, n: nat): Table
    requires n <= |batch|
  {
    MarkAllExpired(rows, Marked(batch, marks, n))
  }

  // How many of the first n updates were acknowledged.
  function Acknowledged(marks: seq<Delivery>, n: nat): nat {
    if n == 0 then 0 else Acknowledged(marks, n - 1) + if Fate(marks, n - 1) == Replied then 1 else 0
  }

  // What others do to the table before the i-th update of a sweep.
  function Meanwhile(others: seq<seq<RowOp>>, i: nat): seq<RowOp> { if i < |others| then others[i] else [] }

  // The table after the n-th update: each is preceded by what the others do meanwhile.
  function AfterSweep(rows: Table, batch: seq<nat>, marks: seq<Delivery>, others: seq<seq<RowOp>>, n: nat): Table
    requires n <= |batch|
  {
    if n == 0 then rows
    else
      var met := ExecRows(AfterSweep(rows, batch, marks, others, n - 1), Meanwhile(others, n - 1));
      if Fate(marks, n - 1) == NotRun then met else MarkExpired(met, batch[n - 1])
  }

  // What the others do alone.
  function AfterOthers(rows: Table, others: seq<seq<RowOp>>, n: nat): Table {
    if n == 0 then rows else ExecRows(AfterOthers(rows, others, n - 1), Meanwhile(others, n - 1))
  }

  // What one sweep makes of the table, and the count it returns.
  predicate IsSweep(before: Table, after: Table, batch: seq<nat>, marks: seq<Delivery>, others: seq<seq<RowOp>>, count: nat) {
    after == AfterSweep(before, batch, marks, others, |batch|) && count == Acknowledged(marks, |batch|)
  }

  lemma {:induction false} SweptRowsStay(rows: Table, batch: seq<nat>, marks: seq<Delivery>, others: seq<seq<RowOp>>, n: nat)
    requires n <= |batch|
    ensures rows.Keys <= AfterSweep(rows, batch, marks, others, n).Keys
    ensures rows.Keys <= ExecRows(AfterSweep(rows, batch, marks, others, n), Meanwhile(others, n)).Keys
  {
    RowsStay(AfterSweep(rows, batch, marks, others, n), Meanwhile(others, n));
    if n > 0 { SweptRowsStay(rows, batch, marks, others, n - 1); }
  }

  // Undisturbed, a sweep expires exactly the rows whose update ran.
  lemma {:induction false} UndisturbedSweep(rows: Table, batch: seq<nat>, marks: seq<Delivery>, n: nat)
    requires n <= |batch|
    ensures AfterSweep(rows, batch, marks, [], n) == AfterMarks(rows, batch, marks, n)
  {
    if n > 0 {
      UndisturbedSweep(rows, batch, marks, n - 1);
      MarkOneMore(rows, batch, marks, n - 1);
    } else {
      assert Marked(batch, marks, 0) == {};
    }
  }

  // Disturbed, a row whose update ran is EXPIRED afterwards unless others have changed it since.
  lemma {:induction false} SweptUnlessChanged(rows: Table, batch: seq<nat>, marks: seq<Delivery>, others: seq<seq<RowOp>>,
                                              n: nat, i: nat)
    requires i < n <= |batch| && batch[i] in rows && Fate(marks, i) != NotRun
    requires forall j, op :: i < j < n && op in Meanwhile(others, j) ==> op.id != batch[i]
    ensures var after := AfterSweep(rows, batch, marks, others, n);
            batch[i] in after && after[batch[i]].status == EXPIRED
  {
    SweptRowsStay(rows, batch, marks, others, n - 1);
    if i < n - 1 {
      SweptUnlessChanged(rows, batch, marks, others, n - 1, i);
      RowUntouched(AfterSweep(rows, batch, marks, others, n - 1), Meanwhile(others, n - 1), batch[i]);
    }
  }

  // And every other row is what the others have made of it.
  lemma {:induction false} ElsewhereUndisturbed(rows: Table, batch: seq<nat>, marks: seq<Delivery>, others: seq<seq<RowOp>>,
                                                n: nat, id: nat)
    requires n <= |batch| && id !in Marked(batch, marks, n)
    ensures SameRow(AfterSweep(rows, batch, marks, others, n), AfterOthers(rows, others, n), id)
  {
    if n > 0 {
      assert forall i :: 0 <= i < n && Fate(marks, i) != NotRun ==> batch[i] in Marked(batch, marks, n);
      ElsewhereUndisturbed(rows, batch, marks, others, n - 1, id);
      RowFollows(AfterSweep(rows, batch, marks, others, n - 1), AfterOthers(rows, others, n - 1), Meanwhile(others, n - 1), id);
    }
  }

  predicate SameRow(a: Table, b: Table, id: nat) {
    (id in a <==> id in b) && (id in a ==> a[id] == b[id])
  }

  lemma {:induction false} RowFollows(a: Table, b: Table, ops: seq<RowOp>, id: nat)
    requires SameRow(a, b, id)
    ensures SameRow(ExecRows(a, ops), ExecRows(b, ops), id)
  {
    if ops != [] { RowFollows(a, b, ops[..|ops| - 1], id); }
  }

  // The count is the number of updates whose acknowledgement arrived.
  lemma {:induction false} AcknowledgedIs(marks: seq<Delivery>, n: nat)
    ensures Acknowledged(marks, n) == |set i | 0 <= i < n && Fate(marks, i) == Replied|
  {
    if n > 0 {
      AcknowledgedIs(marks, n - 1);
      var before := set i | 0 <= i < n - 1 && Fate(marks, i) == Replied;
      assert (set i | 0 <= i < n && Fate(marks, i) == Replied) == before + if Fate(marks, n - 1) == Replied then {n - 1} else {};
    }
  }

  // Undisturbed, a sweep leaves every row alone that is not held, has not expired, or was locked; of the
  // others it changes the status only, to EXPIRED.
  lemma SweepSparesOthers(before: Table, after: Table, batch: seq<nat>, marks: seq<Delivery>, count: nat,
                          cutoff: int, limit: nat, skipped: set<nat>)
    requires IsBatch(before - skipped, cutoff, limit, batch) && IsSweep(before, after, batch, marks, [], count)
    ensures after.Keys == before.Keys
    ensures forall id :: id in before ==> after[id] == before[id] || after[id] == before[id].(status := "EXPIRED")
    ensures forall id :: id in before && (id in skipped || before[id].status != "INVENTORY_HOLD"
                                          || before[id].holdExpiresAt == None || cutoff < before[id].holdExpiresAt.value) ==>
                           after[id] == before[id]
  {
    UndisturbedSweep(before, batch, marks, |batch|);
    forall id | id in before && id in Marked(batch, marks, |batch|) ensures Eligible(before, id, cutoff) && id !in skipped {
      assert id in Ids(batch);
      EligibleIff(before, skipped, id, cutoff);
    }
  }

  function Tokens(rows: Table, batch: seq<nat>, n: nat): set<Token>
    requires n <= |batch|
  {
    set i | 0 <= i < n && batch[i] in rows && rows[batch[i]].holdToken.Some? && rows[batch[i]].holdToken.value != ""
      :: rows[batch[i]].holdToken.value
  }

  // Persisted tokens are past their acquisition: nobody holds under them any more.
  ghost predicate AcquisitionsOver(turns: seq<Turn>, rows: Table) {
    forall turn, id :: turn in turns && id in rows && rows[id].holdToken.Some? ==>
                         Retired(turn.others, rows[id].holdToken.value)
  }

  class HoldSweeperService {
    const reservationRepo: ReservationRepository
    const redisHoldAdapter: InventoryHoldAdapter

    constructor (reservationRepo: ReservationRepository, redisHoldAdapter: InventoryHoldAdapter)
      ensures this.reservationRepo == reservationRepo && this.redisHoldAdapter == redisHoldAdapter
    {
      this.reservationRepo := reservationRepo;
      this.redisHoldAdapter := redisHoldAdapter;
    }

    // Gives the n-th hold of the batch back to Redis; a failure is only logged.
    method Reconcile(holdToken: Option<Token>, ghost turns: seq<Turn>, ghost rows: Table, ghost batch: seq<nat>, ghost n: nat)
      requires NoEmptyList(redisHoldAdapter.redis.State()) && AcquisitionsOver(turns, rows)
      requires forall turn :: turn in redisHoldAdapter.turns ==> turn in turns
      requires n < |batch| && batch[n] in rows && rows[batch[n]].holdToken == holdToken
      requires Reachable(turns) ==> Tokens(rows, batch, n) !! redisHoldAdapter.redis.tokens.Keys
      modifies redisHoldAdapter, redisHoldAdapter.redis
      ensures NoEmptyList(redisHoldAdapter.redis.State())
      ensures forall turn :: turn in redisHoldAdapter.turns ==> turn in turns
      ensures Reachable(turns) ==> Tokens(rows, batch, n + 1) !! redisHoldAdapter.redis.tokens.Keys
    {
      if holdToken.Some? && holdToken.value != "" {
        ghost var before := redisHoldAdapter.redis.State();
        var _, trace, gone := redisHoldAdapter.ReleaseFastHold(holdToken.value);
        if Reachable(turns) {
          ReleasedStayReleased(before, trace, turns, rows, batch, n, holdToken.value);
        }
      } else {
        assert Tokens(rows, batch, n + 1) == Tokens(rows, batch, n);
      }
    }

    method SweepExpiredHolds(cancelled: bool, fetched: bool, batchSize: int, cutoff: int, skipped: set<nat>,
                             marks: seq<Delivery>, others: seq<seq<RowOp>>)
      returns (res: Result<nat>, ghost batch: seq<nat>)
      requires NoEmptyList(redisHoldAdapter.redis.State())
      requires AcquisitionsOver(redisHoldAdapter.turns, reservationRepo.rows)
      modifies reservationRepo, redisHoldAdapter, redisHoldAdapter.redis
      ensures cancelled || !fetched ==>
                res == Err(Infrastructure) && reservationRepo.rows == old(reservationRepo.rows)
      ensures !cancelled && fetched ==>
                && IsBatch(old(reservationRepo.rows) - skipped, cutoff, if batchSize <= 0 then 100 else batchSize, batch) && res.Ok?
                && IsSweep(old(reservationRepo.rows), reservationRepo.rows, batch, marks, others, res.value)
      // Every token of the batch has been released when Redis was reached, also where the update failed.
      ensures !cancelled && fetched && Reachable(old(redisHoldAdapter.turns)) ==>
                forall i :: 0 <= i < |batch| && batch[i] in old(reservationRepo.rows) ==>
                  match old(reservationRepo.rows)[batch[i]].holdToken
                  case Some(token) => token == "" || token !in redisHoldAdapter.redis.tokens
                  case None => true
    {
      batch := [];
      if cancelled {
        return Err(Infrastructure), batch;
      }
      var size := if batchSize <= 0 then DEFAULT_LIMIT else batchSize;
      if !fetched {
        return Err(Infrastructure), batch;
      }
      ghost var rows := reservationRepo.rows;
      var expiredHolds := reservationRepo.GetExpiredHolds(cutoff, size, skipped);
      batch := expiredHolds;
      if |expiredHolds| == 0 {
        return Ok(0), batch;
      }
      var sweptCount := SweepBatch(expiredHolds, reservationRepo.rows, marks, others);
      TokensAre(rows, batch);
      return Ok(sweptCount), batch;
    }

    // The loop over the rows fetched, which were as in `snapshot` at that moment.
    method SweepBatch(expiredHolds: seq<nat>, snapshot: Table, marks: seq<Delivery>, others: seq<seq<RowOp>>)
      returns (sweptCount: nat)
      requires NoEmptyList(redisHoldAdapter.redis.State())
      requires AcquisitionsOver(redisHoldAdapter.turns, snapshot)
      requires snapshot == reservationRepo.rows && forall id :: id in expiredHolds ==> id in snapshot
      modifies reservationRepo, redisHoldAdapter, redisHoldAdapter.redis
      ensures IsSweep(snapshot, reservationRepo.rows, expiredHolds, marks, others, sweptCount)
      ensures Reachable(old(redisHoldAdapter.turns)) ==>
                Tokens(snapshot, expiredHolds, |expiredHolds|) !! redisHoldAdapter.redis.tokens.Keys
    {
      ghost var turns := redisHoldAdapter.turns;
      sweptCount := 0;
      for i := 0 to |expiredHolds|
        invariant NoEmptyList(redisHoldAdapter.redis.State())
        invariant forall turn :: turn in redisHoldAdapter.turns ==> turn in turns
        invariant reservationRepo.rows == AfterSweep(snapshot, expiredHolds, marks, others, i)
        invariant sweptCount == Acknowledged(marks, i)
        invariant Reachable(turns) ==> Tokens(snapshot, expiredHolds, i) !! redisHoldAdapter.redis.tokens.Keys
      {
        var id := expiredHolds[i];
        assert id in expiredHolds;
        Reconcile(snapshot[id].holdToken, turns, snapshot, expiredHolds, i);
        reservationRepo.Perform(Meanwhile(others, i));
        SweptRowsStay(snapshot, expiredHolds, marks, others, i);
        var marked := reservationRepo.MarkReservationExpired(id, Fate(marks, i));
        if marked.Err? {
          continue;
        }
        sweptCount := sweptCount + 1;
      }
    }
  }

  lemma TokensAre(rows: Table, batch: seq<nat>)
    ensures forall i :: 0 <= i < |batch| && batch[i] in rows ==>
              match rows[batch[i]].holdToken
              case Some(token) => token == "" || token in Tokens(rows, batch, |batch|)
              case None => true
  {
  }

  lemma ReleasedStayReleased(s: Store, trace: seq<Op>, turns: seq<Turn>, rows: Table, batch: seq<nat>, n: nat, t: Token)
    requires n < |batch| && batch[n] in rows && rows[batch[n]].holdToken == Some(t)
    requires AcquisitionsOver(turns, rows) && Spans(trace, turns, t)
    requires Tokens(rows, batch, n) !! s.tokens.Keys
    requires Retired(trace, t) ==> t !in Exec(s, trace).tokens
    ensures Tokens(rows, batch, n + 1) !! Exec(s, trace).tokens.Keys
  {
    forall u | u in Tokens(rows, batch, n + 1) ensures u !in Exec(s, trace).tokens {
      var i :| 0 <= i <= n && batch[i] in rows && rows[batch[i]].holdToken == Some(u);
      assert Retired(trace, u);
      if u != t { RetiredNeverReturns(s, trace, u); }
    }
  }

  lemma MarkOneMore(rows: Table, batch: seq<nat>, marks: seq<Delivery>, n: nat)
    requires n < |batch|
    ensures AfterMarks(rows, batch, marks, 0) == rows
    ensures var before := AfterMarks(rows, batch, marks, n);
            AfterMarks(rows, batch, marks, n + 1) ==
            if Fate(marks, n) == NotRun then before else MarkExpired(before, batch[n])
  {
    assert Marked(batch, marks, n + 1) ==
           Marked(batch, marks, n) + if Fate(marks, n) == NotRun then {} else {batch[n]};
  }

  lemma MarkingTwice(rows: Table, a: set<nat>, b: set<nat>, cutoff: int)
    ensures MarkAllExpired(MarkAllExpired(rows, a), b) == MarkAllExpired(rows, a + b)
    ensures ExpiredHolds(MarkAllExpired(rows, a), cutoff) == ExpiredHolds(rows, cutoff) - a
    ensures forall id :: Expiry(MarkAllExpired(rows, a), id) == Expiry(rows, id)
  {
  }

  // ---- draining a backlog ----

  // tables[i + 1] is what an undisturbed, failure-free sweep makes of tables[i], returning counts[i].
  ghost predicate Sweeps(tables: seq<Table>, batches: seq<seq<nat>>, counts: seq<nat>, cutoff: int, limit: nat)
    requires |tables| == |batches| + 1 && |counts| == |batches|
  {
    if batches == [] then true
    else
      var k := |batches| - 1;
      && Sweeps(tables[..k + 1], batches[..k], counts[..k], cutoff, limit)
      && IsBatch(tables[k], cutoff, limit, batches[k])
      && IsSweep(tables[k], tables[k + 1], batches[k], [], [], counts[k])
  }

  lemma {:induction false} AllAcknowledged(n: nat)
    ensures Acknowledged([], n) == n
  {
    if n > 0 { AllAcknowledged(n - 1); }
  }

  // A sweep whose updates all succeed expires its whole batch and returns its size.
  lemma CleanSweep(before: Table, after: Table, batch: seq<nat>, count: nat)
    requires IsSweep(before, after, batch, [], [], count)
    ensures after == MarkAllExpired(before, Ids(batch)) && count == |batch|
  {
    UndisturbedSweep(before, batch, [], |batch|);
    assert Marked(batch, [], |batch|) == Ids(batch);
    AllAcknowledged(|batch|);
  }

  function Swept(batches: seq<seq<nat>>): set<nat> {
    if batches == [] then {} else Swept(batches[..|batches| - 1]) + Ids(batches[|batches| - 1])
  }

  // The sum of what the sweeps returned.
  function Reported(counts: seq<nat>): nat {
    if counts == [] then 0 else Reported(counts[..|counts| - 1]) + counts[|counts| - 1]
  }

  // With no failures and no new expiries, k sweeps of batch size b expire exactly min(n, k * b) of
  // the n expired holds, the oldest ones, leave every other row alone, and return counts that add up to
  // that number.
  lemma {:induction false} BacklogDrains(tables: seq<Table>, batches: seq<seq<nat>>, counts: seq<nat>, cutoff: int, limit: nat)
    requires |tables| == |batches| + 1 && |counts| == |batches| && Sweeps(tables, batches, counts, cutoff, limit)
    ensures var backlog := ExpiredHolds(tables[0], cutoff);
            && Swept(batches) <= backlog
            && |Swept(batches)| == Reported(counts) == Min(|backlog|, |batches| * limit)
            && Oldest(tables[0], Swept(batches), backlog - Swept(batches))
            && tables[|batches|] == MarkAllExpired(tables[0], Swept(batches))
    decreases |batches|
  {
    var k := |batches| - 1;
    if k >= 0 {
      BacklogDrains(tables[..k + 1], batches[..k], counts[..k], cutoff, limit);
      CleanSweep(tables[k], tables[k + 1], batches[k], counts[k]);
      SweepExtends(tables[0], tables[k], cutoff, limit, Swept(batches[..k]), batches[k]);
      DrainArithmetic(|ExpiredHolds(tables[0], cutoff)|, k, limit);
    }
  }

  lemma DrainArithmetic(n: nat, k: nat, b: nat)
    ensures Min(n, k * b) + Min(b, n - Min(n, k * b)) == Min(n, (k + 1) * b)
  {
    assert (k + 1) * b == k * b + b;
  }

  lemma SweepExtends(first: Table, rows: Table, cutoff: int, limit: nat, done: set<nat>, batch: seq<nat>)
    requires done <= ExpiredHolds(first, cutoff) && rows == MarkAllExpired(first, done)
    requires Oldest(first, done, ExpiredHolds(first, cutoff) - done)
    requires IsBatch(rows, cutoff, limit, batch)
    ensures var backlog := ExpiredHolds(first, cutoff);
            && done + Ids(batch) <= backlog
            && |done + Ids(batch)| == |done| + |batch|
            && |batch| == Min(limit, |backlog| - |done|)
            && Oldest(first, done + Ids(batch), backlog - (done + Ids(batch)))
            && MarkAllExpired(rows, Ids(batch)) == MarkAllExpired(first, done + Ids(batch))
  {
    var backlog := ExpiredHolds(first, cutoff);
    MarkingTwice(first, done, Ids(batch), cutoff);
    DistinctCount(batch);
    assert backlog - (done + Ids(batch)) == ExpiredHolds(rows, cutoff) - Ids(batch);
  }

  // The same in terms of the columns: every row of another status, or not yet expired, is as before; of
  // the backlog as many as the sweeps returned are EXPIRED and otherwise unchanged, and none of these
  // expires after one that is left.
  lemma BacklogDrainsRows(tables: seq<Table>, batches: seq<seq<nat>>, counts: seq<nat>, cutoff: int, limit: nat)
    requires |tables| == |batches| + 1 && |counts| == |batches| && Sweeps(tables, batches, counts, cutoff, limit)
    ensures var first, last := tables[0], tables[|batches|];
            && last.Keys == first.Keys
            && (forall id :: id in first && !Eligible(first, id, cutoff) ==> last[id] == first[id])
            && (forall id :: id in first ==> last[id] == if id in Swept(batches) then first[id].(status := "EXPIRED") else first[id])
            && |Swept(batches)| == Reported(counts)
    ensures forall a, b :: a in Swept(batches) && Eligible(tables[0], b, cutoff) && b !in Swept(batches) ==>
                             && Eligible(tables[0], a, cutoff)
                             && tables[0][a].holdExpiresAt.value <= tables[0][b].holdExpiresAt.value
  {
    BacklogDrains(tables, batches, counts, cutoff, limit);
    var first := tables[0];
    assert first - {} == first;
    forall id ensures id in ExpiredHolds(first, cutoff) <==> Eligible(first, id, cutoff)
              ensures Eligible(first, id, cutoff) ==> Expiry(first, id) == first[id].holdExpiresAt.value {
      EligibleIff(first, {}, id, cutoff);
    }
  }
}

// allocation_service.go: the rolling horizon, sent in chunks from one reused buffer.
module RollingGenerator {
  import opened Prelude
  import opened StayNights
  import opened Allocations
  import opened AllocationTransactions

  const DEFAULT_ROLLING_HORIZON_DAYS := 365
  const CHUNK_SIZE := 100

  // What a run is asked to provision.
  datatype Horizon = Horizon(propertyId: nat, roomTypeId: nat, totalUnits: int, baseRateMinor: int, daysAhead: int)
  {
    function Length(): nat { if daysAhead <= 0 then DEFAULT_ROLLING_HORIZON_DAYS else daysAhead }

    function Allocation(day: int): DailyAllocation {
      DailyAllocation(Night(propertyId, roomTypeId, day), Slot(totalUnits, 0, 0, baseRateMinor))
    }

    // The first n days from `start`, one allocation a day.
    function Days(start: int, n: nat): seq<DailyAllocation> {
      if n == 0 then [] else Days(start, n - 1) + [Allocation(start + n - 1)]
    }
  }

  function Flatten(chunks: seq<seq<DailyAllocation>>): seq<DailyAllocation> {
    if chunks == [] then [] else Flatten(chunks[..|chunks| - 1]) + chunks[|chunks| - 1]
  }

  lemma {:induction false} DaysAre(h: Horizon, start: int, n: nat)
    ensures |h.Days(start, n)| == n
    ensures forall i :: 0 <= i < n ==> h.Days(start, n)[i] == h.Allocation(start + i)
  {
    if n > 0 { DaysAre(h, start, n - 1); }
  }

  // `chunk` holds the days that follow the first n.
  predicate Follows(h: Horizon, start: int, n: nat, chunk: seq<DailyAllocation>) {
    if chunk == [] then true
    else
      var last := |chunk| - 1;
      chunk[last] == h.Allocation(start + n + last) && Follows(h, start, n, chunk[..last])
  }

  lemma FollowsSnoc(h: Horizon, start: int, n: nat, chunk: seq<DailyAllocation>)
    requires Follows(h, start, n, chunk)
    ensures Follows(h, start, n, chunk + [h.Allocation(start + n + |chunk|)])
  {
    assert (chunk + [h.Allocation(start + n + |chunk|)])[..|chunk|] == chunk;
  }

  lemma {:induction false} FollowsAre(h: Horizon, start: int, n: nat, chunk: seq<DailyAllocation>)
    requires Follows(h, start, n, chunk)
    ensures forall i :: 0 <= i < |chunk| ==> chunk[i] == h.Allocation(start + n + i)
  {
    if chunk != [] { FollowsAre(h, start, n, chunk[..|chunk| - 1]); }
  }

  // The chunk sent after the first n days: a full one, or what is left of the horizon.
  predicate NextStretch(h: Horizon, start: int, n: nat, chunk: seq<DailyAllocation>) {
    0 < |chunk| == Min(CHUNK_SIZE, h.Length() - n) && Follows(h, start, n, chunk)
  }

  lemma DaysConcat(h: Horizon, start: int, n: nat, chunk: seq<DailyAllocation>)
    requires Follows(h, start, n, chunk)
    ensures h.Days(start, n) + chunk == h.Days(start, n + |chunk|)
  {
    FollowsAre(h, start, n, chunk);
    DaysAre(h, start, n);
    DaysAre(h, start, n + |chunk|);
  }

  // The chunks are consecutive stretches that make up the first n days.
  predicate ChunksOf(h: Horizon, start: int, chunks: seq<seq<DailyAllocation>>, n: nat) {
    if chunks == [] then n == 0
    else
      var last := chunks[|chunks| - 1];
      |last| <= n && NextStretch(h, start, n - |last|, last) && ChunksOf(h, start, chunks[..|chunks| - 1], n - |last|)
  }

  // The table after the chunks' transactions, one by one.
  function AfterChunks(table: Table, chunks: seq<seq<DailyAllocation>>): Option<Table> {
    if chunks == [] then Some(table)
    else
      var before := AfterChunks(table, chunks[..|chunks| - 1]);
      if before == None then None else UpsertAll(before.value, chunks[|chunks| - 1])
  }

  lemma {:induction false} ChunksAreSized(h: Horizon, start: int, chunks: seq<seq<DailyAllocation>>, n: nat, i: nat)
    requires ChunksOf(h, start, chunks, n) && i < |chunks|
    ensures 0 < |chunks[i]| <= 100
    ensures |chunks[i]| == 100 || (i == |chunks| - 1 && n == h.Length())
    ensures n <= h.Length()
  {
    var k := |chunks| - 1;
    assert n - |chunks[k]| < h.Length();
    if i < k { ChunksAreSized(h, start, chunks[..k], n - |chunks[k]|, i); }
  }

  lemma {:induction false} ChunksFlatten(h: Horizon, start: int, chunks: seq<seq<DailyAllocation>>, n: nat)
    requires ChunksOf(h, start, chunks, n)
    ensures Flatten(chunks) == h.Days(start, n)
  {
    if chunks != [] {
      var k := |chunks| - 1;
      ChunksFlatten(h, start, chunks[..k], n - |chunks[k]|);
      DaysConcat(h, start, n - |chunks[k]|, chunks[k]);
    }
  }

  lemma {:induction false} ChunksUpsert(table: Table, chunks: seq<seq<DailyAllocation>>)
    requires AfterChunks(table, chunks).Some?
    ensures AfterChunks(table, chunks) == UpsertAll(table, Flatten(chunks))
  {
    if chunks != [] {
      var k := |chunks| - 1;
      ChunksUpsert(table, chunks[..k]);
      UpsertConcat(table, Flatten(chunks[..k]), chunks[k]);
    }
  }

  // Chunked provisioning is day-by-day provisioning: the chunks concatenate to the days in order
  // without repeats, and their effect is the upsert of each day.
  lemma ChunksRefineDays(h: Horizon, start: int, chunks: seq<seq<DailyAllocation>>, n: nat, table: Table)
    requires ChunksOf(h, start, chunks, n) && AfterChunks(table, chunks).Some?
    ensures Flatten(chunks) == h.Days(start, n)
    ensures AfterChunks(table, chunks) == UpsertAll(table, h.Days(start, n))
  {
    ChunksFlatten(h, start, chunks, n);
    ChunksUpsert(table, chunks);
  }

  // ---- what a run does to the table, night by night ----

  predicate InHorizon(h: Horizon, start: int, n: nat, k: Night) {
    k.propertyId == h.propertyId && k.roomTypeId == h.roomTypeId && start <= k.day < start + n
  }

  // Each of the n nights from `start` is there afterwards: as a free one with the horizon's units and rate
  // if it was absent; with those units and that rate, and its blocked units, if nothing was allocated; and
  // unchanged if something was. All other nights are as before.
  ghost predicate Provisioned(before: Table, after: Table, h: Horizon, start: int, n: nat) {
    && (forall k :: k in after <==> k in before || InHorizon(h, start, n, k))
    && (forall k :: k in after ==>
          after[k] ==
          if k !in before then Slot(h.totalUnits, 0, 0, h.baseRateMinor)
          else if InHorizon(h, start, n, k) && before[k].allocatedCount == 0
          then Slot(h.totalUnits, 0, before[k].blockedCount, h.baseRateMinor)
          else before[k])
  }

  lemma {:induction false} DaysProvision(table: Table, h: Horizon, start: int, n: nat)
    requires UpsertAll(table, h.Days(start, n)).Some?
    ensures Provisioned(table, UpsertAll(table, h.Days(start, n)).value, h, start, n)
  {
    if n > 0 {
      var days := h.Days(start, n);
      assert days[..|days| - 1] == h.Days(start, n - 1);
      DaysProvision(table, h, start, n - 1);
      NextDayProvisions(table, UpsertAll(table, h.Days(start, n - 1)).value, h, start, n - 1);
    }
  }

  lemma NextDayProvisions(before: Table, mid: Table, h: Horizon, start: int, n: nat)
    requires Provisioned(before, mid, h, start, n) && Upsert(mid, h.Allocation(start + n)).Some?
    ensures Provisioned(before, Upsert(mid, h.Allocation(start + n)).value, h, start, n + 1)
  {
  }

  lemma ChunksProvision(table: Table, h: Horizon, start: int, chunks: seq<seq<DailyAllocation>>, n: nat)
    requires ChunksOf(h, start, chunks, n) && AfterChunks(table, chunks).Some?
    ensures Provisioned(table, AfterChunks(table, chunks).value, h, start, n)
  {
    ChunksRefineDays(h, start, chunks, n, table);
    DaysProvision(table, h, start, n);
  }

  lemma StoppedShortProvisions(h: Horizon, start: int, before: Table, after: Table, chunks: seq<seq<DailyAllocation>>,
                               n: nat, failed: seq<DailyAllocation>, fates: seq<Delivery>)
    requires ChunksOf(h, start, chunks, n) && AfterChunks(before, chunks).Some?
    requires StoppedShort(h, start, before, after, chunks, n, failed, fates)
    ensures Provisioned(before, after, h, start, n) || (FateOf(fates, |chunks|) == ReplyLost && Provisioned(before, after, h, start, n + |failed|))
  {
    var mid := AfterChunks(before, chunks).value;
    ChunksProvision(before, h, start, chunks, n);
    ChunkCommitted(before, h, start, chunks, n, failed);
    if after != mid {
      assert AfterChunks(before, chunks + [failed]) == Some(after);
      ChunksProvision(before, h, start, chunks + [failed], n + |failed|);
    }
  }

  function FateOf(fates: seq<Delivery>, j: nat): Delivery { if j < |fates| then fates[j] else Replied }

  // A run that reports an error after `chunks`: the chunk that failed is the next stretch of days, and
  // the table holds exactly the effect of the chunks before it and, if its COMMIT ran unacknowledged,
  // of that chunk as a whole.
  predicate StoppedShort(h: Horizon, start: int, before: Table, after: Table,
                         chunks: seq<seq<DailyAllocation>>, n: nat, failed: seq<DailyAllocation>, fates: seq<Delivery>)
    requires AfterChunks(before, chunks).Some?
  {
    var mid, fate := AfterChunks(before, chunks).value, FateOf(fates, |chunks|);
    && NextStretch(h, start, n, failed)
    && (fate != Replied || UpsertAll(mid, failed) == None)
    && after == AfterBatch(mid, failed, fate)
  }

  class AllocationService {
    const inventoryRepo: InventoryRepository

    constructor (inventoryRepo: InventoryRepository)
      ensures this.inventoryRepo == inventoryRepo
    {
      this.inventoryRepo := inventoryRepo;
    }

    // Upserts the chunk that follows `chunks`, those acknowledged so far.
    method Send(h: Horizon, start: int, chunk: seq<DailyAllocation>, delivery: Delivery,
                ghost before: Table, ghost chunks: seq<seq<DailyAllocation>>, ghost n: nat)
      returns (res: Result<()>, ghost sent: seq<seq<DailyAllocation>>)
      requires ChunksOf(h, start, chunks, n) && NextStretch(h, start, n, chunk)
      requires AfterChunks(before, chunks) == Some(inventoryRepo.table)
      modifies inventoryRepo
      ensures res.Ok? ==> sent == chunks + [chunk] && ChunksOf(h, start, sent, n + |chunk|)
                          && AfterChunks(before, sent) == Some(inventoryRepo.table)
      ensures res.Err? ==> sent == chunks && (delivery != Replied || UpsertAll(old(inventoryRepo.table), chunk) == None)
                           && inventoryRepo.table == AfterBatch(old(inventoryRepo.table), chunk, delivery)
    {
      ChunkCommitted(before, h, start, chunks, n, chunk);
      res := inventoryRepo.BatchUpsertDailyAllocations(chunk, delivery);
      sent := if res.Ok? then chunks + [chunk] else chunks;
    }

    // chunk = append(chunk, alloc), for the day i that follows those buffered.
    method Append(h: Horizon, start: int, i: nat, chunk: array<DailyAllocation>, len: nat, ghost n: nat)
      requires len < chunk.Length && i == n + len && Follows(h, start, n, chunk[..len])
      modifies chunk
      ensures Follows(h, start, n, chunk[..len + 1])
    {
      FollowsSnoc(h, start, n, chunk[..len]);
      ghost var longer := chunk[..len] + [h.Allocation(start + i)];
      chunk[len] := h.Allocation(start + i);
      assert chunk[..len + 1] == longer;
    }

    // The day loop.
    method Provision(h: Horizon, startDate: int, fates: seq<Delivery>)
      returns (res: Result<()>, ghost chunks: seq<seq<DailyAllocation>>, ghost done: nat, ghost failed: seq<DailyAllocation>)
      modifies inventoryRepo
      ensures ChunksOf(h, startDate, chunks, done) && AfterChunks(old(inventoryRepo.table), chunks).Some?
      ensures res.Ok? ==>
                && done == h.Length() && AfterChunks(old(inventoryRepo.table), chunks) == Some(inventoryRepo.table)
                && Provisioned(old(inventoryRepo.table), inventoryRepo.table, h, startDate,
                               if h.daysAhead <= 0 then 365 else h.daysAhead)
      ensures res.Err? ==>
                StoppedShort(h, startDate, old(inventoryRepo.table), inventoryRepo.table, chunks, done, failed, fates)
    {
      chunks, done, failed := [], 0, [];
      ghost var before := inventoryRepo.table;
      var daysAhead := h.Length();
      var chunk := new DailyAllocation[CHUNK_SIZE];
      var len, sent := 0, 0;
      for i := 0 to daysAhead
        invariant fresh(chunk) && chunk.Length == CHUNK_SIZE
        invariant len < CHUNK_SIZE && i == done + len && sent == |chunks|
        invariant i == daysAhead ==> len == 0
        invariant ChunksOf(h, startDate, chunks, done)
        invariant AfterChunks(before, chunks) == Some(inventoryRepo.table)
        invariant Follows(h, startDate, done, chunk[..len])
      {
        Append(h, startDate, i, chunk, len, done);
        len := len + 1;
        if len >= CHUNK_SIZE || i == daysAhead - 1 {
          ghost var buffered := chunk[..len];
          res, chunks := Send(h, startDate, chunk[..len], FateOf(fates, sent), before, chunks, done);
          if res.Err? {
            failed := buffered;
            return;
          }
          done := done + len;
          sent := sent + 1;
          len := 0;
        }
      }
      res := Ok(());
      ChunksProvision(before, h, startDate, chunks, done);
    }

    // `fates[j]`: what becomes of the j-th chunk's transaction. `chunks` are those acknowledged; `done`
    // the days they provision; `failed` the chunk whose upsert reported an error, if one did.
    method GenerateRollingAllocations(cancelled: bool, h: Horizon, clock: int, fates: seq<Delivery>)
      returns (res: Result<()>, ghost chunks: seq<seq<DailyAllocation>>, ghost done: nat, ghost failed: seq<DailyAllocation>)
      modifies inventoryRepo
      ensures ChunksOf(h, Day(clock), chunks, done) && AfterChunks(old(inventoryRepo.table), chunks).Some?
      ensures cancelled ==> res.Err? && chunks == [] && inventoryRepo.table == old(inventoryRepo.table)
      // Success: every day of the horizon from today on, once each and in order.
      ensures res.Ok? ==>
                && AfterChunks(old(inventoryRepo.table), chunks) == Some(inventoryRepo.table)
                && Provisioned(old(inventoryRepo.table), inventoryRepo.table, h, clock / 86400,
                               if h.daysAhead <= 0 then 365 else h.daysAhead)
      // Failure part-way: the days of whole chunks, up to the failing one or, if its COMMIT ran
      // unacknowledged, through it.
      ensures res.Err? && !cancelled ==>
                && StoppedShort(h, Day(clock), old(inventoryRepo.table), inventoryRepo.table, chunks, done, failed, fates)
                && (|| Provisioned(old(inventoryRepo.table), inventoryRepo.table, h, clock / 86400, done)
                    || (FateOf(fates, |chunks|) == ReplyLost
                        && Provisioned(old(inventoryRepo.table), inventoryRepo.table, h, clock / 86400, done + |failed|)))
    {
      if cancelled {
        return Err(Infrastructure), [], 0, [];
      }
      var startDate := Day(clock);
      res, chunks, done, failed := Provision(h, startDate, fates);
      if res.Err? {
        StoppedShortProvisions(h, startDate, old(inventoryRepo.table), inventoryRepo.table, chunks, done, failed, fates);
      }
    }
  }

  lemma ChunkCommitted(table: Table, h: Horizon, start: int,
                       chunks: seq<seq<DailyAllocation>>, n: nat, chunk: seq<DailyAllocation>)
    requires ChunksOf(h, start, chunks, n) && NextStretch(h, start, n, chunk)
    ensures ChunksOf(h, start, chunks + [chunk], n + |chunk|)
    ensures AfterChunks(table, chunks + [chunk]) ==
            if AfterChunks(table, chunks) == None then None else UpsertAll(AfterChunks(table, chunks).value, chunk)
  {
    assert (chunks + [chunk])[..|chunks|] == chunks;
  }

  // Every stretch of the horizon's days is a batch as the transaction machine wants it: one room
  // type, ascending dates, nothing allocated.
  lemma ChunksAreBatches(h: Horizon, start: int, n: nat, chunk: seq<DailyAllocation>)
    requires NextStretch(h, start, n, chunk)
    ensures WellFormed(Batch(chunk)) && InsertsUnallocated(Batch(chunk))
  {
    FollowsAre(h, start, n, chunk);
  }

  // ---- repeating a run, with bookings and other runs in between ----

  // The row of a's night is there, and has a's total and rate unless it has allocations.
  predicate Settled(table: Table, a: DailyAllocation) {
    && InBounds(a.slot) && a.night in table && InBounds(table[a.night])
    && (table[a.night].allocatedCount != 0
        || (table[a.night].totalUnits == a.slot.totalUnits && table[a.night].rateMinor == a.slot.rateMinor))
  }

  lemma SettledIsFixed(table: Table, a: DailyAllocation)
    requires Settled(table, a)
    ensures Upsert(table, a) == Some(table)
  {
    assert table[a.night := table[a.night]] == table;
  }

  // Two allocations that agree on the night they share.
  predicate Agree(a: DailyAllocation, b: DailyAllocation) {
    a.night == b.night ==> a.slot.totalUnits == b.slot.totalUnits && a.slot.rateMinor == b.slot.rateMinor
  }

  lemma UpsertKeepsSettled(table: Table, a: DailyAllocation, b: DailyAllocation)
    requires Settled(table, a) && Upsert(table, b).Some? && Agree(a, b)
    ensures Settled(Upsert(table, b).value, a)
  {
  }

  lemma {:induction false} UpsertsKeepSettled(table: Table, a: DailyAllocation, batch: seq<DailyAllocation>)
    requires Settled(table, a) && UpsertAll(table, batch).Some? && forall b :: b in batch ==> Agree(a, b)
    ensures Settled(UpsertAll(table, batch).value, a)
  {
    if batch != [] {
      UpsertsKeepSettled(table, a, batch[..|batch| - 1]);
      assert batch[|batch| - 1] in batch;
      UpsertKeepsSettled(UpsertAll(table, batch[..|batch| - 1]).value, a, batch[|batch| - 1]);
    }
  }

  lemma UpsertSettles(table: Table, a: DailyAllocation)
    requires Bounded(table) && Upsert(table, a).Some?
    ensures Settled(Upsert(table, a).value, a)
  {
  }

  lemma {:induction false} UpsertsSettle(table: Table, batch: seq<DailyAllocation>, i: nat)
    requires Ascending(ItemNights(batch)) && UpsertAll(table, batch).Some? && i < |batch| && Bounded(table)
    ensures Settled(UpsertAll(table, batch).value, batch[i])
    decreases |batch|
  {
    var n := |batch| - 1;
    assert ItemNights(batch[..n]) == ItemNights(batch)[..n];
    UpsertsProtectAllocations(table, batch[..n]);
    var mid := UpsertAll(table, batch[..n]).value;
    if i < n {
      UpsertsSettle(table, batch[..n], i);
      assert batch[i].night != batch[n].night by { assert ItemNights(batch)[i].day < ItemNights(batch)[n].day; }
      UpsertKeepsSettled(mid, batch[i], batch[n]);
    } else {
      UpsertSettles(mid, batch[n]);
    }
  }

  // What may happen between two runs: any bookings, and batches, of this generator or others, that
  // carry the same total and rate for the nights they share with it.
  ghost predicate Harmless(a: DailyAllocation, job: Job) {
    job.Batch? ==> forall b :: b in job.items ==> Agree(a, b)
  }

  lemma JobKeepsSettled(table: Table, a: DailyAllocation, job: Job)
    requires Settled(table, a) && Harmless(a, job) && Serial(table, job).Some?
    ensures Settled(Serial(table, job).value, a)
  {
    match job
    case Booking(stay) => CommitEffect(table, stay);
    case Batch(items) => UpsertsKeepSettled(table, a, items);
  }

  lemma {:induction false} SettledBatch(table: Table, batch: seq<DailyAllocation>)
    requires forall i :: 0 <= i < |batch| ==> Upsert(table, batch[i]) == Some(table)
    ensures UpsertAll(table, batch) == Some(table)
  {
    if batch != [] { SettledBatch(table, batch[..|batch| - 1]); }
  }

  // A chunk committed anywhere in a history settles its items for good.
  lemma {:induction false} CommittedChunkSettles(table: Table, history: seq<Job>, chunk: seq<DailyAllocation>, i: nat)
    requires Bounded(table) && Replay(table, history).Some? && Batch(chunk) in history
    requires Ascending(ItemNights(chunk)) && i < |chunk|
    requires forall job :: job in history ==> Harmless(chunk[i], job)
    ensures Settled(Replay(table, history).value, chunk[i])
  {
    var n := |history| - 1;
    var before := history[..n];
    assert forall job :: job in before ==> job in history;
    assert history[n] in history;
    ReplayKeepsBounds(table, before);
    if history[n] == Batch(chunk) {
      UpsertsSettle(Replay(table, before).value, chunk, i);
    } else {
      CommittedChunkSettles(table, before, chunk, i);
      JobKeepsSettled(Replay(table, before).value, chunk[i], history[n]);
    }
  }

  predicate Committed(history: seq<Job>, chunks: seq<seq<DailyAllocation>>) {
    forall chunk :: chunk in chunks ==> Batch(chunk) in history
  }

  lemma {:induction false} CommittedRunSettles(table: Table, history: seq<Job>, h: Horizon, start: int,
                                               chunks: seq<seq<DailyAllocation>>, n: nat, d: int)
    requires Bounded(table) && Replay(table, history).Some? && ChunksOf(h, start, chunks, n) && Committed(history, chunks)
    requires start <= d < start + n && forall job :: job in history ==> Harmless(h.Allocation(d), job)
    ensures Settled(Replay(table, history).value, h.Allocation(d))
  {
    var k := |chunks| - 1;
    var m := n - |chunks[k]|;
    assert chunks[k] in chunks && forall chunk :: chunk in chunks[..k] ==> chunk in chunks;
    if d < start + m {
      CommittedRunSettles(table, history, h, start, chunks[..k], m, d);
    } else {
      ChunksAreBatches(h, start, m, chunks[k]);
      FollowsAre(h, start, m, chunks[k]);
      CommittedChunkSettles(table, history, chunks[k], d - start - m);
    }
  }

  // Repeating a run on the same days changes nothing. Its chunks may have been committed at any time among
  // any bookings, and any other batches with the same total and rate for those days, that were committed
  // before, between and since.
  lemma RepeatedRunIsNoOp(table: Table, h: Horizon, start: int, chunks: seq<seq<DailyAllocation>>, n: nat, history: seq<Job>)
    requires Bounded(table) && Replay(table, history).Some?
    requires ChunksOf(h, start, chunks, n) && Committed(history, chunks)
    requires forall job, d :: job in history && start <= d < start + n ==> Harmless(h.Allocation(d), job)
    ensures var after := Replay(table, history).value;
            UpsertAll(after, h.Days(start, n)) == Some(after)
  {
    var batch, after := h.Days(start, n), Replay(table, history).value;
    DaysAre(h, start, n);
    forall i | 0 <= i < |batch| ensures Upsert(after, batch[i]) == Some(after) {
      assert batch[i] == h.Allocation(start + i);
      CommittedRunSettles(table, history, h, start, chunks, n, start + i);
      SettledIsFixed(after, batch[i]);
    }
    SettledBatch(after, batch);
  }

  // A run of the same room type, total and rate on any days is harmless in this sense.
  lemma OtherRunsAreHarmless(h: Horizon, other: Horizon, start: int, n: nat, chunk: seq<DailyAllocation>, d: int)
    requires NextStretch(other, start, n, chunk)
    requires h.propertyId != other.propertyId || h.roomTypeId != other.roomTypeId
             || (h.totalUnits == other.totalUnits && h.baseRateMinor == other.baseRateMinor)
    ensures Harmless(h.Allocation(d), Batch(chunk))
  {
    FollowsAre(other, start, n, chunk);
  }

  // ---- the days covered ----

  function HorizonNights(h: Horizon, start: int, n: nat): set<Night> {
    set d | start <= d < start + n :: Night(h.propertyId, h.roomTypeId, d)
  }

  lemma DaysCover(h: Horizon, start: int, n: nat)
    ensures NightsIn(h.Days(start, n)) == HorizonNights(h, start, n)
  {
    var days := h.Days(start, n);
    DaysAre(h, start, n);
    forall k | k in HorizonNights(h, start, n) ensures k in NightsIn(days) {
      assert days[k.day - start] in days;
    }
  }

  // The chunks a run has committed, alone on the table, provision exactly their days: the nights are
  // those from before and the days up to the last committed one.
  lemma RunCovers(table: Table, h: Horizon, start: int, chunks: seq<seq<DailyAllocation>>, n: nat)
    requires ChunksOf(h, start, chunks, n) && AfterChunks(table, chunks).Some?
    ensures AfterChunks(table, chunks).value.Keys == table.Keys + HorizonNights(h, start, n)
  {
    ChunksRefineDays(h, start, chunks, n, table);
    UpsertsProtectAllocations(table, h.Days(start, n));
    DaysCover(h, start, n);
  }

  lemma {:induction false} NamedIn(history: seq<Job>, job: Job)
    requires job in history
    ensures Named(job) <= AllNamed(history)
  {
    var n := |history| - 1;
    if job != history[n] { NamedIn(history[..n], job); }
  }

  // Among any other transactions (AllocationTransactions.AllocationsAreCommittedStays), every night of
  // every run whose chunks were committed is among the nights named, and so in the table.
  lemma {:induction false} CommittedRunIsNamed(history: seq<Job>, h: Horizon, start: int, chunks: seq<seq<DailyAllocation>>, n: nat)
    requires ChunksOf(h, start, chunks, n) && Committed(history, chunks)
    ensures HorizonNights(h, start, n) <= AllNamed(history)
  {
    if chunks != [] {
      var k := |chunks| - 1;
      var m := n - |chunks[k]|;
      assert chunks[k] in chunks && forall chunk :: chunk in chunks[..k] ==> chunk in chunks;
      CommittedRunIsNamed(history, h, start, chunks[..k], m);
      NamedIn(history, Batch(chunks[k]));
      FollowsAre(h, start, m, chunks[k]);
      forall night | night in HorizonNights(h, start, n) ensures night in AllNamed(history) {
        if night.day < start + m {
          assert night in HorizonNights(h, start, m);
        } else {
          assert chunks[k][night.day - start - m] in chunks[k];
          assert night in Named(Batch(chunks[k]));
        }
      }
    }
  }
}

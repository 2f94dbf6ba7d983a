// Any number of CommitAllocation and BatchUpsertDailyAllocations transactions, interleaved lock by
// lock: row locks are taken one at a time and held to the end, and a row is read when it is locked.
module AllocationTransactions {
  import opened Prelude
  import opened StayNights
  import opened Allocations

  datatype Job = Booking(stay: Stay) | Batch(items: seq<DailyAllocation>)

  // Locking: the rows of `plan` are locked in turn, those before `next` already are. Updated: the
  // statements are done and their writes wait for the commit.
  datatype Phase =
    | Idle
    | Locking(plan: seq<Night>, next: nat)
    | Updated(plan: seq<Night>)
    | Done(committed: bool)

  datatype Tx = Tx(job: Job, phase: Phase)

  datatype State = State(table: Table, locks: map<Night, nat>, txs: seq<Tx>, history: seq<Job>)

  datatype Action = Start(i: nat) | Lock(i: nat) | Finish(i: nat) | Commit(i: nat) | Abort(i: nat)

  function ItemNights(items: seq<DailyAllocation>): (nights: seq<Night>)
    ensures |nights| == |items|
    ensures forall i :: 0 <= i < |items| ==> nights[i] == items[i].night
  {
    if items == [] then [] else ItemNights(items[..|items| - 1]) + [items[|items| - 1].night]
  }

  // A stay whose nights, if it is valid, are counted right (MiscountedStays tells what happens
  // otherwise); a batch in date order, as the generator builds it (RollingGenerator.ChunksAreBatches).
  predicate WellFormed(job: Job) {
    match job
    case Booking(stay) => stay.Valid() ==> stay.CountsItsNights()
    case Batch(items) => Ascending(ItemNights(items))
  }

  // All that the invariant asks of a job: batches are in date order.
  predicate Ordered(job: Job) { job.Batch? ==> Ascending(ItemNights(job.items)) }

  // The job run with nothing beside it: the new table, or None for no change.
  function Serial(table: Table, job: Job): Option<Table> {
    match job
    case Booking(stay) => (match CommitSpec(table, stay) case Ok(after) => Some(after) case Err(_) => None)
    case Batch(items) => UpsertAll(table, items)
  }

  // The locks it will ask for, in its statements' order, as the table stands at its first statement.
  function Wanted(table: Table, job: Job): seq<Night> {
    match job
    case Booking(stay) => Rows(table, stay)
    case Batch(items) => ItemNights(items)
  }

  // The check made on row k once it is locked.
  predicate Accepts(table: Table, job: Job, k: Night) {
    match job
    case Booking(stay) => k in table && HasRoom(table[k])
    case Batch(items) => forall a :: a in items && a.night == k ==> Upsert(table, a).Some?
  }

  function Held(phase: Phase): seq<Night> {
    match phase case Locking(plan, next) => plan[..Min(next, |plan|)] case Updated(plan) => plan case _ => []
  }

  function Unlocked(locks: map<Night, nat>, i: nat): map<Night, nat> { map k | k in locks && locks[k] != i :: locks[k] }

  // Rollback: nothing written, every lock given up.
  function Failed(s: State, i: nat): State
    requires i < |s.txs|
  {
    s.(txs := s.txs[i := s.txs[i].(phase := Done(false))], locks := Unlocked(s.locks, i))
  }

  // The writes of a transaction that has locked `held`.
  function Written(table: Table, job: Job, held: seq<Night>): Table {
    match job
    case Booking(_) =>
      map k | k in table :: if k in held then table[k].(allocatedCount := table[k].allocatedCount + 1) else table[k]
    case Batch(items) => (match UpsertAll(table, items) case Some(after) => after case None => table)
  }

  // A lock waits for whoever holds it, and so does the UPDATE for a row it has not locked yet.
  predicate Enabled(s: State, a: Action) {
    && a.i < |s.txs|
    && var tx := s.txs[a.i];
       match a
       case Start(_) => tx.phase.Idle?
       case Lock(_) => tx.phase.Locking? && tx.phase.next < |tx.phase.plan| && tx.phase.plan[tx.phase.next] !in s.locks
       case Finish(_) =>
         && tx.phase.Locking? && tx.phase.next >= |tx.phase.plan|
         && (tx.job.Booking? && |tx.phase.plan| >= tx.job.stay.Expected() ==>
               forall k :: k in Rows(s.table, tx.job.stay) ==> k !in s.locks || s.locks[k] == a.i)
       case Commit(_) => tx.phase.Updated?
       case Abort(_) => !tx.phase.Done?
  }

  function Step(s: State, a: Action): State
    requires Enabled(s, a)
  {
    var tx := s.txs[a.i];
    match a
    case Start(i) =>
      if tx.job.Booking? && !tx.job.stay.Valid() then Failed(s, i)
      else s.(txs := s.txs[i := tx.(phase := Locking(Wanted(s.table, tx.job), 0))])
    case Lock(i) =>
      var k := tx.phase.plan[tx.phase.next];
      if Accepts(s.table, tx.job, k)
      then s.(txs := s.txs[i := tx.(phase := Locking(tx.phase.plan, tx.phase.next + 1))], locks := s.locks[k := i])
      else Failed(s, i)
    case Finish(i) =>
      if tx.job.Booking? && (|tx.phase.plan| < tx.job.stay.Expected()
                             || |Rows(s.table, tx.job.stay)| != tx.job.stay.Expected())
      then Failed(s, i)
      else s.(txs := s.txs[i := tx.(phase := Updated(tx.phase.plan))])
    case Commit(i) =>
      State(Written(s.table, tx.job, tx.phase.plan), Unlocked(s.locks, i),
            s.txs[i := tx.(phase := Done(true))], s.history + [tx.job])
    case Abort(i) => Failed(s, i)
  }

  // ---- the invariant ----

  predicate LocksAgree(s: State) {
    && (forall k :: k in s.locks ==> s.locks[k] < |s.txs| && k in Held(s.txs[s.locks[k]].phase))
    && (forall i, k :: 0 <= i < |s.txs| && k in Held(s.txs[i].phase) ==> k in s.locks && s.locks[k] == i)
  }

  // What a transaction relies on: its locks come in date order, and each row it holds still passes
  // its check.
  predicate TxInv(table: Table, tx: Tx) {
    && Ordered(tx.job)
    && (forall k :: k in Held(tx.phase) ==> Accepts(table, tx.job, k))
    && match tx.phase
       case Locking(plan, next) => PlanInv(table, tx.job, plan)
       case Updated(plan) => PlanInv(table, tx.job, plan) && (tx.job.Booking? ==> |plan| == tx.job.stay.Expected())
       case _ => true
  }

  predicate PlanInv(table: Table, job: Job, plan: seq<Night>) {
    && Ascending(plan)
    && match job
       case Booking(stay) => stay.Valid() && forall k :: k in plan ==> stay.Covers(k) && k in table
       case Batch(items) => plan == ItemNights(items)
  }

  predicate TxsInv(s: State) { forall i :: 0 <= i < |s.txs| ==> TxInv(s.table, s.txs[i]) }

  function Replay(table: Table, history: seq<Job>): Option<Table> {
    if history == [] then Some(table)
    else
      var before := Replay(table, history[..|history| - 1]);
      if before == None then None else Serial(before.value, history[|history| - 1])
  }

  ghost predicate Inv(initial: Table, s: State) {
    && LocksAgree(s) && TxsInv(s)
    && Replay(initial, s.history) == Some(s.table)
  }

  lemma {:induction false} AscendingFills(nights: seq<Night>, stay: Stay, i: nat)
    requires Ascending(nights) && (forall k :: k in nights ==> stay.Covers(k)) && i < |nights|
    ensures Day(stay.checkIn) + i <= nights[i].day <= Day(stay.checkOut) - (|nights| - i)
    decreases i
  {
    assert nights[i] in nights;
    LastDay(nights, stay, i);
    if i > 0 { AscendingFills(nights, stay, i - 1); }
  }

  lemma {:induction false} LastDay(nights: seq<Night>, stay: Stay, i: nat)
    requires Ascending(nights) && (forall k :: k in nights ==> stay.Covers(k)) && i < |nights|
    ensures nights[i].day <= Day(stay.checkOut) - (|nights| - i)
    decreases |nights| - i
  {
    assert nights[i] in nights;
    if i + 1 < |nights| { LastDay(nights, stay, i + 1); }
  }

  // A booking that has locked as many rows as its stay has nights has locked all of them: no night
  // is missing and no row can appear in the range beside them.
  lemma LockedAllNights(stay: Stay, held: seq<Night>, k: Night)
    requires stay.CountsItsNights()
    requires Ascending(held) && |held| == stay.Expected() && forall q :: q in held ==> stay.Covers(q)
    ensures k in held <==> stay.Covers(k)
  {
    if stay.Covers(k) {
      var i := k.day - Day(stay.checkIn);
      AscendingFills(held, stay, i);
      assert held[i] in held && stay.Covers(held[i]);
      assert held[i] == k;
    }
  }

  // Rows of distinct nights are upserted independently.
  lemma {:induction false} UpsertPointwise(table: Table, items: seq<DailyAllocation>)
    requires Ascending(ItemNights(items)) && forall i :: 0 <= i < |items| ==> Upsert(table, items[i]).Some?
    ensures UpsertAll(table, items).Some?
    ensures ChangesOnly(table, UpsertAll(table, items).value, ItemNights(items))
  {
    if items != [] {
      var n := |items| - 1;
      var nights := ItemNights(items);
      assert ItemNights(items[..n]) == nights[..n];
      UpsertPointwise(table, items[..n]);
      UpsertOneMore(table, UpsertAll(table, items[..n]).value, items[n], nights[..n]);
      assert nights == nights[..n] + [nights[n]];
    }
  }

  lemma UpsertOneMore(table: Table, mid: Table, a: DailyAllocation, nights: seq<Night>)
    requires ChangesOnly(table, mid, nights) && a.night !in nights && Upsert(table, a).Some?
    ensures Upsert(mid, a).Some? && ChangesOnly(table, Upsert(mid, a).value, nights + [a.night])
  {
  }

  // after comes from before by changing rows of `held` only, removing none.
  ghost predicate ChangesOnly(before: Table, after: Table, held: seq<Night>) {
    && before.Keys <= after.Keys
    && forall k :: k !in held ==> (k in after <==> k in before) && (k in before ==> after[k] == before[k])
  }

  lemma BookingIsSerial(table: Table, stay: Stay, held: seq<Night>)
    requires TxInv(table, Tx(Booking(stay), Updated(held))) && WellFormed(Booking(stay))
    ensures CommitSpec(table, stay) == Ok(Written(table, Booking(stay), held))
  {
    forall k ensures k in held <==> stay.Covers(k) { LockedAllNights(stay, held, k); }
    forall k | stay.Covers(k) ensures k in table && HasRoom(table[k]) { assert Accepts(table, Booking(stay), k); }
    CommitOkIff(table, stay);
    assert Increment(table, stay) == Written(table, Booking(stay), held);
  }

  lemma BatchApplies(table: Table, tx: Tx)
    requires TxInv(table, tx) && tx.phase.Updated? && tx.job.Batch?
    ensures UpsertAll(table, tx.job.items).Some?
    ensures ChangesOnly(table, UpsertAll(table, tx.job.items).value, tx.phase.plan)
  {
    var items := tx.job.items;
    forall i | 0 <= i < |items| ensures Upsert(table, items[i]).Some? {
      assert tx.phase.plan[i] in Held(tx.phase) && Accepts(table, tx.job, tx.phase.plan[i]);
    }
    UpsertPointwise(table, items);
  }

  // A commit changes only rows its transaction has locked.
  lemma CommitTouchesHeld(table: Table, tx: Tx)
    requires TxInv(table, tx) && tx.phase.Updated?
    ensures ChangesOnly(table, Written(table, tx.job, tx.phase.plan), tx.phase.plan)
  {
    if tx.job.Batch? { BatchApplies(table, tx); }
  }

  // And it is the serial execution of its job on the table it finds.
  lemma CommitIsSerial(table: Table, tx: Tx)
    requires TxInv(table, tx) && tx.phase.Updated? && WellFormed(tx.job)
    ensures Serial(table, tx.job) == Some(Written(table, tx.job, tx.phase.plan))
    ensures ChangesOnly(table, Written(table, tx.job, tx.phase.plan), tx.phase.plan)
  {
    CommitTouchesHeld(table, tx);
    match tx.job
    case Booking(stay) => BookingIsSerial(table, stay, tx.phase.plan);
    case Batch(items) => BatchApplies(table, tx);
  }

  // What others may do between two steps of a transaction: nothing to the rows it holds.
  lemma TxInvSurvives(before: Table, after: Table, changed: seq<Night>, tx: Tx)
    requires TxInv(before, tx) && ChangesOnly(before, after, changed)
    requires forall k :: k in Held(tx.phase) ==> k !in changed
    ensures TxInv(after, tx)
  {
  }

  lemma WantedIsOrdered(table: Table, job: Job)
    ensures (job.Batch? ==> Ascending(ItemNights(job.items))) ==> Ascending(Wanted(table, job))
    ensures |Wanted(table, job)| <= Size(job)
    ensures job.Booking? ==> forall k :: k in Wanted(table, job) ==> job.stay.Covers(k) && k in table
  {
    if job.Booking? {
      RowsAre(table, job.stay);
      RangeNightsAre(job.stay.propertyId, job.stay.roomTypeId, Day(job.stay.checkIn), Day(job.stay.checkOut));
      PresentAscends(table, job.stay.Nights());
    }
  }

  // ---- measure ----

  function Size(job: Job): nat {
    match job case Booking(stay) => Max(0, Day(stay.checkOut) - Day(stay.checkIn)) case Batch(items) => |items|
  }

  function Work(tx: Tx): nat {
    match tx.phase
    case Idle => Size(tx.job) + 3
    case Locking(plan, next) => |plan| - Min(next, |plan|) + 2
    case Updated(_) => 1
    case Done(_) => 0
  }

  function TotalWork(txs: seq<Tx>): nat { if txs == [] then 0 else TotalWork(txs[..|txs| - 1]) + Work(txs[|txs| - 1]) }

  lemma {:induction false} TotalWorkUpdate(txs: seq<Tx>, i: nat, tx: Tx)
    requires i < |txs|
    ensures TotalWork(txs[i := tx]) == TotalWork(txs) - Work(txs[i]) + Work(tx)
  {
    var n := |txs| - 1;
    if i == n {
      assert txs[i := tx][..n] == txs[..n];
    } else {
      TotalWorkUpdate(txs[..n], i, tx);
      assert txs[i := tx][..n] == txs[..n][i := tx];
    }
  }

  // ---- runs ----

  ghost predicate IsRun(s: State, actions: seq<Action>)
    decreases |actions|, 0
  {
    if actions == [] then true
    else
      var n := |actions| - 1;
      IsRun(s, actions[..n]) && Enabled(RunState(s, actions[..n]), actions[n])
  }

  ghost function RunState(s: State, actions: seq<Action>): State
    requires IsRun(s, actions)
    decreases |actions|, 1
  {
    if actions == [] then s
    else var n := |actions| - 1; Step(RunState(s, actions[..n]), actions[n])
  }

  // Every transaction ready to begin on `table`.
  ghost function Init(table: Table, jobs: seq<Job>): State {
    State(table, map[], seq(|jobs|, i requires 0 <= i < |jobs| => Tx(jobs[i], Idle)), [])
  }

  lemma HoldsAreDisjoint(s: State, i: nat, j: nat, held: seq<Night>)
    requires LocksAgree(s) && i < |s.txs| && j < |s.txs| && i != j
    requires forall k :: k in held ==> k in Held(s.txs[i].phase)
    ensures forall k :: k in Held(s.txs[j].phase) ==> k !in held
  {
    forall k | k in Held(s.txs[j].phase) ensures k !in held {
      assert s.locks[k] == j;
    }
  }

  lemma OthersUntouched(s: State, s': State, i: nat, held: seq<Night>)
    requires LocksAgree(s) && TxsInv(s) && i < |s.txs| == |s'.txs|
    requires forall j :: 0 <= j < |s.txs| && j != i ==> s'.txs[j] == s.txs[j]
    requires ChangesOnly(s.table, s'.table, held) && forall k :: k in held ==> k in Held(s.txs[i].phase)
    requires TxInv(s'.table, s'.txs[i])
    ensures TxsInv(s')
  {
    forall j | 0 <= j < |s'.txs| ensures TxInv(s'.table, s'.txs[j]) {
      if j != i { OtherUntouched(s, s'.table, i, j, held); }
    }
  }

  lemma OtherUntouched(s: State, after: Table, i: nat, j: nat, held: seq<Night>)
    requires LocksAgree(s) && TxsInv(s) && i < |s.txs| && j < |s.txs| && i != j
    requires ChangesOnly(s.table, after, held) && forall k :: k in held ==> k in Held(s.txs[i].phase)
    ensures TxInv(after, s.txs[j])
  {
    HoldsAreDisjoint(s, i, j, held);
    TxInvSurvives(s.table, after, held, s.txs[j]);
  }

  lemma LockedNext(table: Table, tx: Tx)
    requires TxInv(table, tx) && tx.phase.Locking? && tx.phase.next < |tx.phase.plan|
    requires Accepts(table, tx.job, tx.phase.plan[tx.phase.next])
    ensures TxInv(table, tx.(phase := Locking(tx.phase.plan, tx.phase.next + 1)))
  {
    HeldNext(tx.phase);
  }

  lemma HeldNext(phase: Phase)
    requires phase.Locking? && phase.next < |phase.plan|
    ensures Held(Locking(phase.plan, phase.next + 1)) == Held(phase) + [phase.plan[phase.next]]
  {
  }

  lemma {:induction false} AscendingSize(nights: seq<Night>)
    requires Ascending(nights)
    ensures |set k | k in nights| == |nights|
  {
    if nights != [] {
      var n := |nights| - 1;
      AscendingSize(nights[..n]);
      assert (set k | k in nights) == (set k | k in nights[..n]) + {nights[n]};
    }
  }

  lemma {:induction false} SubsetSize(a: set<Night>, b: set<Night>)
    requires a <= b
    ensures |a| <= |b| && (|a| == |b| ==> a == b)
  {
    if a != {} {
      var x :| x in a;
      SubsetSize(a - {x}, b - {x});
    }
  }

  // The rows a booking has planned are among those its range has now, and are all of them if they are
  // as many.
  lemma PlanAmongRows(table: Table, stay: Stay, plan: seq<Night>)
    requires PlanInv(table, Booking(stay), plan)
    ensures |plan| <= |Rows(table, stay)|
    ensures |plan| == |Rows(table, stay)| ==> forall k :: k in Rows(table, stay) ==> k in plan
  {
    var rows := Rows(table, stay);
    RowsAre(table, stay);
    WantedIsOrdered(table, Booking(stay));
    AscendingSize(plan);
    AscendingSize(rows);
    var planned, found := set k | k in plan, set k | k in rows;
    SubsetSize(planned, found);
    if |plan| == |rows| {
      forall k | k in rows ensures k in plan { assert k in found && found == planned; }
    }
  }

  lemma LockedAll(table: Table, tx: Tx)
    requires TxInv(table, tx) && tx.phase.Locking? && tx.phase.next >= |tx.phase.plan|
    requires tx.job.Booking? ==>
               |tx.phase.plan| >= tx.job.stay.Expected() && |Rows(table, tx.job.stay)| == tx.job.stay.Expected()
    ensures TxInv(table, tx.(phase := Updated(tx.phase.plan)))
  {
    assert Held(tx.phase) == tx.phase.plan;
    if tx.job.Booking? { PlanAmongRows(table, tx.job.stay, tx.phase.plan); }
  }

  lemma OwnStep(s: State, a: Action)
    requires TxsInv(s) && Enabled(s, a)
    ensures a.Commit? || TxInv(s.table, Step(s, a).txs[a.i])
  {
    var tx, tx' := s.txs[a.i], Step(s, a).txs[a.i];
    assert TxInv(s.table, tx);
    if tx'.phase.Locking? {
      if a.Start? { WantedIsOrdered(s.table, tx.job); } else { LockedNext(s.table, tx); }
    } else if tx'.phase.Updated? {
      LockedAll(s.table, tx);
    }
  }

  lemma CommitKeepsTxs(s: State, i: nat)
    requires LocksAgree(s) && TxsInv(s) && Enabled(s, Commit(i))
    ensures TxsInv(Step(s, Commit(i)))
  {
    assert TxInv(s.table, s.txs[i]);
    CommitTouchesHeld(s.table, s.txs[i]);
    OthersUntouched(s, Step(s, Commit(i)), i, s.txs[i].phase.plan);
  }

  lemma StepKeepsTxs(s: State, a: Action)
    requires LocksAgree(s) && TxsInv(s) && Enabled(s, a)
    ensures TxsInv(Step(s, a))
  {
    if a.Commit? {
      CommitKeepsTxs(s, a.i);
    } else {
      OwnStep(s, a);
      OthersUntouched(s, Step(s, a), a.i, []);
    }
  }

  lemma HeldAtMost(stay: Stay, held: seq<Night>)
    requires stay.CountsItsNights() && Ascending(held) && forall q :: q in held ==> stay.Covers(q)
    ensures |held| <= stay.Expected()
  {
    if held != [] { AscendingFills(held, stay, |held| - 1); }
  }

  lemma UnlockingKeepsLocks(s: State, s': State, i: nat, phase: Phase)
    requires LocksAgree(s) && i < |s.txs| && Held(phase) == []
    requires s'.txs == s.txs[i := s.txs[i].(phase := phase)] && s'.locks == Unlocked(s.locks, i)
    ensures LocksAgree(s')
  {
  }

  lemma LockingKeepsLocks(s: State, s': State, i: nat, k: Night, phase: Phase)
    requires LocksAgree(s) && i < |s.txs| && k !in s.locks && Held(phase) == Held(s.txs[i].phase) + [k]
    requires s'.txs == s.txs[i := s.txs[i].(phase := phase)] && s'.locks == s.locks[k := i]
    ensures LocksAgree(s')
  {
  }

  lemma StepKeepsLocks(s: State, a: Action)
    requires LocksAgree(s) && Enabled(s, a)
    ensures LocksAgree(Step(s, a))
  {
    var tx, s' := s.txs[a.i], Step(s, a);
    if s'.txs[a.i].phase.Done? {
      UnlockingKeepsLocks(s, s', a.i, s'.txs[a.i].phase);
    } else if a.Lock? {
      HeldNext(tx.phase);
      LockingKeepsLocks(s, s', a.i, tx.phase.plan[tx.phase.next], s'.txs[a.i].phase);
    } else {
      assert Held(s'.txs[a.i].phase) == Held(tx.phase);
    }
  }

  lemma StepReplays(initial: Table, s: State, a: Action)
    requires Inv(initial, s) && Enabled(s, a) && (a.Commit? ==> WellFormed(s.txs[a.i].job))
    ensures Replay(initial, Step(s, a).history) == Some(Step(s, a).table)
  {
    if a.Commit? {
      assert TxInv(s.table, s.txs[a.i]);
      CommitIsSerial(s.table, s.txs[a.i]);
      assert (s.history + [s.txs[a.i].job])[..|s.history|] == s.history;
    }
  }

  // Whatever stays are booked: locks and transactions fit together in every reachable state.
  lemma {:induction false} RunsKeepTxs(table: Table, jobs: seq<Job>, actions: seq<Action>)
    requires IsRun(Init(table, jobs), actions) && forall job :: job in jobs ==> Ordered(job)
    ensures var s := RunState(Init(table, jobs), actions);
            LocksAgree(s) && TxsInv(s) && JobsAre(s, jobs) && forall job :: job in s.history ==> job in jobs
  {
    if actions != [] {
      var n := |actions| - 1;
      RunsKeepTxs(table, jobs, actions[..n]);
      var mid := RunState(Init(table, jobs), actions[..n]);
      StepKeepsTxs(mid, actions[n]);
      StepKeepsLocks(mid, actions[n]);
      StepKeepsJobs(mid, actions[n], jobs);
    }
  }

  // ---- the theorems ----

  // Serialisability: in every reachable state of any interleaving, the table is what running the
  // committed jobs one after another, in commit order, makes of the initial table.
  lemma {:induction false} CommitsAreSerialisable(table: Table, jobs: seq<Job>, actions: seq<Action>)
    requires IsRun(Init(table, jobs), actions) && forall job :: job in jobs ==> WellFormed(job)
    ensures var s := RunState(Init(table, jobs), actions);
            && Replay(table, s.history) == Some(s.table)
            && (forall job :: job in s.history ==> job in jobs)
  {
    if actions != [] {
      var n := |actions| - 1;
      CommitsAreSerialisable(table, jobs, actions[..n]);
      RunsKeepTxs(table, jobs, actions[..n]);
      RunsKeepTxs(table, jobs, actions);
      var mid := RunState(Init(table, jobs), actions[..n]);
      if actions[n].Commit? { assert mid.txs[actions[n].i].job in jobs; }
      StepReplays(table, mid, actions[n]);
    }
  }

  lemma StepKeepsJobs(s: State, a: Action, jobs: seq<Job>)
    requires Enabled(s, a) && JobsAre(s, jobs) && forall job :: job in s.history ==> job in jobs
    ensures JobsAre(Step(s, a), jobs) && forall job :: job in Step(s, a).history ==> job in jobs
  {
    assert s.txs[a.i].job == jobs[a.i];
  }

  predicate JobsAre(s: State, jobs: seq<Job>) {
    |s.txs| == |jobs| && forall i :: 0 <= i < |jobs| ==> s.txs[i].job == jobs[i]
  }

  function Covering(history: seq<Job>, k: Night): nat {
    if history == [] then 0
    else Covering(history[..|history| - 1], k) + Covers(history[|history| - 1], k)
  }

  function Covers(job: Job, k: Night): nat { if job.Booking? && job.stay.Covers(k) then 1 else 0 }

  // The nights a committed job adds to the table unless they are there.
  function Named(job: Job): set<Night> { if job.Batch? then NightsIn(job.items) else {} }

  function AllNamed(history: seq<Job>): set<Night> {
    if history == [] then {} else AllNamed(history[..|history| - 1]) + Named(history[|history| - 1])
  }

  // As the generator's batches do.
  predicate InsertsUnallocated(job: Job) { job.Batch? ==> forall a :: a in job.items ==> a.slot.allocatedCount == 0 }

  function Allocated(table: Table, k: Night): int { if k in table then table[k].allocatedCount else 0 }

  lemma {:induction false} InsertedAreUnallocated(table: Table, items: seq<DailyAllocation>, k: Night)
    requires UpsertAll(table, items).Some? && forall a :: a in items ==> a.slot.allocatedCount == 0
    ensures Allocated(UpsertAll(table, items).value, k) == Allocated(table, k)
  {
    if items != [] {
      InsertedAreUnallocated(table, items[..|items| - 1], k);
      assert items[|items| - 1] in items;
    }
  }

  lemma SerialCounts(table: Table, job: Job, k: Night)
    requires WellFormed(job) && InsertsUnallocated(job) && Serial(table, job).Some?
    ensures var after := Serial(table, job).value;
            && after.Keys == table.Keys + Named(job)
            && (k in table ==> after[k].blockedCount == table[k].blockedCount)
            && Allocated(after, k) == Allocated(table, k) + Covers(job, k)
            && (Bounded(table) ==> Bounded(after))
  {
    match job
    case Booking(stay) =>
      CommitEffect(table, stay);
      CommitOkIff(table, stay);
    case Batch(items) =>
      UpsertsProtectAllocations(table, items);
      InsertedAreUnallocated(table, items, k);
  }

  lemma {:induction false} ReplayCounts(table: Table, history: seq<Job>, k: Night)
    requires Replay(table, history).Some?
    requires forall job :: job in history ==> WellFormed(job) && InsertsUnallocated(job)
    ensures var after := Replay(table, history).value;
            && after.Keys == table.Keys + AllNamed(history)
            && (k in table ==> after[k].blockedCount == table[k].blockedCount)
            && Allocated(after, k) == Allocated(table, k) + Covering(history, k)
            && (Bounded(table) ==> Bounded(after))
  {
    if history != [] {
      var n := |history| - 1;
      assert history[n] in history && forall job :: job in history[..n] ==> job in history;
      ReplayCounts(table, history[..n], k);
      SerialCounts(Replay(table, history[..n]).value, history[n], k);
    }
  }

  lemma {:induction false} ReplayKeepsBounds(table: Table, history: seq<Job>)
    requires Replay(table, history).Some? && Bounded(table)
    ensures Bounded(Replay(table, history).value)
  {
    if history != [] {
      var n := |history| - 1;
      ReplayKeepsBounds(table, history[..n]);
      var mid := Replay(table, history[..n]).value;
      match history[n]
      case Booking(stay) => CommitEffect(mid, stay);
      case Batch(items) => UpsertsProtectAllocations(mid, items);
    }
  }

  // For each night allocated_count is the initial one plus the number of committed stays covering
  // it; chk_inventory_bounds holds in every reachable state; what is blocked never changes; and the nights
  // provisioned are the initial ones and those of every committed batch.
  lemma AllocationsAreCommittedStays(table: Table, jobs: seq<Job>, actions: seq<Action>, k: Night)
    requires IsRun(Init(table, jobs), actions) && Bounded(table)
    requires forall job :: job in jobs ==> WellFormed(job) && InsertsUnallocated(job)
    ensures var s := RunState(Init(table, jobs), actions);
            && Allocated(s.table, k) == Allocated(table, k) + Covering(s.history, k)
            && (k in table ==> k in s.table && s.table[k].blockedCount == table[k].blockedCount)
            && s.table.Keys == table.Keys + AllNamed(s.history)
            && Bounded(s.table)
  {
    CommitsAreSerialisable(table, jobs, actions);
    ReplayCounts(table, RunState(Init(table, jobs), actions).history, k);
  }

  // ---- deadlock freedom ----

  // What order alone needs: a valid stay has its nights counted right or has no counted night, and a
  // batch is in date order. MiscountedStays.MiscountCanDeadlock has all other stays.
  predicate Orderly(job: Job) {
    match job
    case Booking(stay) => stay.Valid() ==> stay.CountsItsNights() || stay.Expected() == 0
    case Batch(items) => Ascending(ItemNights(items))
  }

  predicate Unfinished(s: State, i: nat) { i < |s.txs| && !s.txs[i].phase.Done? }

  function NextStatement(s: State, i: nat): Action
    requires i < |s.txs|
  {
    match s.txs[i].phase
    case Idle => Start(i)
    case Locking(plan, next) => if next < |plan| then Lock(i) else Finish(i)
    case Updated(_) => Commit(i)
    case Done(_) => Abort(i)
  }

  // Its own next statement can run now.
  predicate Ready(s: State, i: nat) { Unfinished(s, i) && Enabled(s, NextStatement(s, i)) }

  // The locks on k's room type from k's date on.
  function LockedFrom(s: State, k: Night): set<Night> {
    set q | q in s.locks && q.propertyId == k.propertyId && q.roomTypeId == k.roomTypeId && k.day <= q.day
  }

  lemma NoNightIsOneDate(stay: Stay)
    requires stay.Valid() && stay.Expected() == 0
    ensures Day(stay.checkOut) <= Day(stay.checkIn) + 1
  {
  }

  // A booking that holds rows and has asked for all it planned holds every row of its range.
  lemma RowsAreLocked(s: State, i: nat, stay: Stay, plan: seq<Night>, k: Night)
    requires LocksAgree(s) && i < |s.txs| && plan == Held(s.txs[i].phase)
    requires PlanInv(s.table, Booking(stay), plan) && Orderly(Booking(stay)) && |plan| >= stay.Expected()
    requires stay.CountsItsNights() || plan != []
    requires k in Rows(s.table, stay)
    ensures k in s.locks && s.locks[k] == i
  {
    RowsAre(s.table, stay);
    if stay.CountsItsNights() {
      HeldAtMost(stay, plan);
      LockedAllNights(stay, plan, k);
    } else {
      NoNightIsOneDate(stay);
      assert plan[0] in plan && stay.Covers(plan[0]);
      assert k == plan[0];
    }
  }

  predicate AtFinish(s: State, i: nat) {
    i < |s.txs| && s.txs[i].phase.Locking? && s.txs[i].phase.next >= |s.txs[i].phase.plan|
  }

  // At its UPDATE a booking that counts its nights, or that holds anything, waits for nobody.
  lemma FinishIsReady(s: State, i: nat)
    requires LocksAgree(s) && TxsInv(s) && AtFinish(s, i) && Orderly(s.txs[i].job)
    requires s.txs[i].phase.plan != [] || (s.txs[i].job.Booking? ==> s.txs[i].job.stay.CountsItsNights())
    ensures Ready(s, i)
  {
    var job, plan := s.txs[i].job, s.txs[i].phase.plan;
    assert TxInv(s.table, s.txs[i]);
    assert Held(s.txs[i].phase) == plan;
    if job.Booking? && |plan| >= job.stay.Expected() {
      forall k | k in Rows(s.table, job.stay) ensures k in s.locks && s.locks[k] == i {
        RowsAreLocked(s, i, job.stay, plan, k);
      }
    }
  }

  predicate Waiting(s: State, i: nat) {
    i < |s.txs| && s.txs[i].phase.Locking? && s.txs[i].phase.next < |s.txs[i].phase.plan|
  }

  // The row a locking transaction asks for next.
  function Next(s: State, i: nat): Night
    requires Waiting(s, i)
  {
    s.txs[i].phase.plan[s.txs[i].phase.next]
  }

  lemma NextWaitIsLater(s: State, j: nat, k: Night)
    requires LocksAgree(s) && TxsInv(s) && Waiting(s, j) && k in s.locks && s.locks[k] == j
    ensures |LockedFrom(s, Next(s, j))| < |LockedFrom(s, k)|
  {
    assert TxInv(s.table, s.txs[j]);
    var plan := s.txs[j].phase.plan;
    assert k in Held(s.txs[j].phase);
    var h :| 0 <= h < s.txs[j].phase.next && plan[h] == k;
    assert k in LockedFrom(s, k) && k !in LockedFrom(s, Next(s, j));
    SmallerSet(LockedFrom(s, Next(s, j)), LockedFrom(s, k));
  }

  // Follow the waits from a locked row: each leads to a strictly later date of the same room type, so
  // they end.
  lemma {:induction false} FollowWaits(s: State, k: Night) returns (j: nat)
    requires LocksAgree(s) && TxsInv(s) && k in s.locks && forall i :: 0 <= i < |s.txs| ==> Orderly(s.txs[i].job)
    ensures Ready(s, j)
    decreases |LockedFrom(s, k)|
  {
    j := s.locks[k];
    assert Unfinished(s, j) && !s.txs[j].phase.Idle? by { assert k in Held(s.txs[j].phase); }
    if Waiting(s, j) {
      if Next(s, j) in s.locks {
        NextWaitIsLater(s, j, k);
        j := FollowWaits(s, Next(s, j));
      }
    } else if s.txs[j].phase.Locking? {
      assert k in s.txs[j].phase.plan;
      FinishIsReady(s, j);
    }
  }

  lemma {:induction false} SmallerSet(a: set<Night>, b: set<Night>)
    requires a < b
    ensures |a| < |b|
  {
    var x :| x in b && x !in a;
    assert a <= b - {x};
    SubsetSize(a, b - {x});
  }

  // The row an unfinished transaction waits for, unless it is ready.
  lemma BlockedBy(s: State, i: nat) returns (k: Night)
    requires Unfinished(s, i) && !Ready(s, i)
    ensures k in s.locks
  {
    if Waiting(s, i) {
      k := Next(s, i);
    } else {
      k :| k in Rows(s.table, s.txs[i].job.stay) && k in s.locks && s.locks[k] != i;
    }
  }

  // Deadlock freedom: with any number of concurrent bookings and batches over any room types, every
  // reachable state with an unfinished transaction has one whose next statement can run.
  lemma NoDeadlock(table: Table, jobs: seq<Job>, actions: seq<Action>, i: nat) returns (j: nat)
    requires IsRun(Init(table, jobs), actions) && forall job :: job in jobs ==> Orderly(job)
    requires Unfinished(RunState(Init(table, jobs), actions), i)
    ensures Ready(RunState(Init(table, jobs), actions), j)
  {
    RunsKeepTxs(table, jobs, actions);
    var s := RunState(Init(table, jobs), actions);
    j := i;
    if !Ready(s, i) {
      var k := BlockedBy(s, i);
      j := FollowWaits(s, k);
    }
  }

  // ---- what makes a transaction fail ----

  // A statement of transaction i that ends it without a commit had its reason in the table: for a batch,
  // an item out of bounds; for a booking, dates that do not end after they begin, a row without a free
  // unit or gone, or rows in a number other than the nights counted.
  ghost predicate HasReason(s: State, a: Action)
    requires Enabled(s, a)
  {
    var tx := s.txs[a.i];
    match tx.job
    case Batch(items) => exists item :: item in items && Upsert(s.table, item) == None
    case Booking(stay) =>
      || stay.checkOut <= stay.checkIn
      || (a.Lock? && var k := tx.phase.plan[tx.phase.next];
                     k !in s.table || s.table[k].allocatedCount + s.table[k].blockedCount >= s.table[k].totalUnits)
      || (a.Finish? && (|tx.phase.plan| < ElapsedNights(stay.checkIn, stay.checkOut)
                        || |Rows(s.table, stay)| != ElapsedNights(stay.checkIn, stay.checkOut)))
  }

  lemma FailsForAReason(s: State, a: Action)
    requires Enabled(s, a) && !a.Abort? && Step(s, a).txs[a.i].phase == Done(false)
    ensures HasReason(s, a)
  {
  }

  // When a booking's nights are counted right, a night of its range is then full, or was missing when it
  // began.
  lemma WellFormedFailsForAReason(s: State, a: Action)
    requires TxsInv(s) && Enabled(s, a) && !a.Abort? && Step(s, a).txs[a.i].phase == Done(false)
    requires s.txs[a.i].job.Booking? && s.txs[a.i].job.stay.CountsItsNights()
    ensures var stay, phase := s.txs[a.i].job.stay, s.txs[a.i].phase;
            phase.Locking? && exists k :: stay.Covers(k) && (k !in phase.plan || (k in s.table && !HasRoom(s.table[k])))
  {
    var stay, phase := s.txs[a.i].job.stay, s.txs[a.i].phase;
    assert TxInv(s.table, s.txs[a.i]);
    FailsForAReason(s, a);
    if a.Lock? {
      assert phase.plan[phase.next] in phase.plan;
    } else {
      RowsAre(s.table, stay);
      PlanAmongRows(s.table, stay, phase.plan);
      AscendingSize(phase.plan);
      MissedNight(stay, phase.plan);
    }
  }

  // Fewer rows than nights miss one.
  lemma MissedNight(stay: Stay, plan: seq<Night>)
    requires Ascending(plan) && (forall k :: k in plan ==> stay.Covers(k))
    requires |plan| < Day(stay.checkOut) - Day(stay.checkIn)
    ensures exists k :: stay.Covers(k) && k !in plan
  {
    var nights := stay.Nights();
    RangeNightsAre(stay.propertyId, stay.roomTypeId, Day(stay.checkIn), Day(stay.checkOut));
    forall k ensures k in nights <==> stay.Covers(k) { CoversIff(stay, k); }
    AscendingSize(plan);
    AscendingSize(nights);
    if forall k :: stay.Covers(k) ==> k in plan {
      SubsetSize(set k | k in nights, set k | k in plan);
    }
  }

  // ---- a booking by itself ----

  predicate NoAbort(actions: seq<Action>) { forall a :: a in actions ==> !a.Abort? }

  // How far the only transaction has come: it has the rows its query finds, and those locked have room.
  predicate Alone(table: Table, stay: Stay, s: State) {
    && |s.txs| == 1 && s.txs[0].job == Booking(stay)
    && match s.txs[0].phase
       case Idle => s.table == table
       case Locking(plan, next) =>
         && s.table == table && stay.Valid() && plan == Rows(table, stay)
         && AllHaveRoom(table, plan[..Min(next, |plan|)])
       case Updated(plan) => s.table == table && plan == Rows(table, stay) && CommitSpec(table, stay).Ok?
       case Done(committed) =>
         if committed then CommitSpec(table, stay) == Ok(s.table) else s.table == table && CommitSpec(table, stay).Err?
  }

  lemma AloneStep(table: Table, stay: Stay, s: State, a: Action)
    requires Alone(table, stay, s) && Enabled(s, a) && !a.Abort?
    ensures Alone(table, stay, Step(s, a))
  {
    var phase := s.txs[0].phase;
    match a
    case Start(_) =>
    case Lock(_) => AloneLock(table, stay, phase.plan, phase.next);
    case Finish(_) => assert phase.plan[..Min(phase.next, |phase.plan|)] == phase.plan;
    case Commit(_) => RowsAre(table, stay); assert Written(table, Booking(stay), phase.plan) == Increment(table, stay);
  }

  lemma AloneLock(table: Table, stay: Stay, plan: seq<Night>, next: nat)
    requires next < |plan| && plan == Rows(table, stay) && stay.Valid() && AllHaveRoom(table, plan[..next])
    ensures Accepts(table, Booking(stay), plan[next]) ==> AllHaveRoom(table, plan[..Min(next + 1, |plan|)])
    ensures !Accepts(table, Booking(stay), plan[next]) ==> CommitSpec(table, stay).Err?
  {
    assert plan[..next + 1] == plan[..next] + [plan[next]];
    assert plan[next] in plan;
  }

  // Undisturbed and not aborted, a booking that ends has committed the table that CommitAllocation leaves,
  // or has failed exactly when CommitAllocation reports an error. (By NoDeadlock and RunsAreBounded it
  // ends.)
  lemma {:induction false} AloneIff(table: Table, stay: Stay, actions: seq<Action>)
    requires IsRun(Init(table, [Booking(stay)]), actions) && NoAbort(actions)
    ensures var s := RunState(Init(table, [Booking(stay)]), actions);
            && Alone(table, stay, s)
            && (s.txs[0].phase == Done(true) ==> CommitSpec(table, stay) == Ok(s.table))
            && (s.txs[0].phase == Done(false) ==> CommitSpec(table, stay).Err? && s.table == table)
  {
    if actions != [] {
      var n := |actions| - 1;
      var before := actions[..n];
      assert forall a :: a in before ==> a in actions;
      assert actions[n] in actions;
      AloneIff(table, stay, before);
      AloneStep(table, stay, RunState(Init(table, [Booking(stay)]), before), actions[n]);
    }
  }

  // And there is always a next statement to run until it has ended.
  lemma AloneProceeds(table: Table, stay: Stay, actions: seq<Action>)
    requires IsRun(Init(table, [Booking(stay)]), actions)
    ensures var s := RunState(Init(table, [Booking(stay)]), actions);
            Unfinished(s, 0) ==> Ready(s, 0)
  {
    var s := RunState(Init(table, [Booking(stay)]), actions);
    RunsKeepTxs(table, [Booking(stay)], actions);
    if Unfinished(s, 0) && !Ready(s, 0) {
      var k := BlockedBy(s, 0);
      assert s.locks[k] == 0;
      assert TxInv(s.table, s.txs[0]);
    }
  }

  // ---- termination ----

  lemma StepWorks(s: State, a: Action)
    requires Enabled(s, a)
    ensures TotalWork(Step(s, a).txs) < TotalWork(s.txs)
  {
    WantedIsOrdered(s.table, s.txs[a.i].job);
    TotalWorkUpdate(s.txs, a.i, Step(s, a).txs[a.i]);
    assert Step(s, a).txs == s.txs[a.i := Step(s, a).txs[a.i]];
  }

  // Every step, failing or not, uses up work, so no run of any jobs is longer than the work they begin
  // with.
  lemma {:induction false} RunsAreBounded(table: Table, jobs: seq<Job>, actions: seq<Action>)
    requires IsRun(Init(table, jobs), actions)
    ensures |actions| + TotalWork(RunState(Init(table, jobs), actions).txs) <= TotalWork(Init(table, jobs).txs)
  {
    if actions != [] {
      var n := |actions| - 1;
      RunsAreBounded(table, jobs, actions[..n]);
      StepWorks(RunState(Init(table, jobs), actions[..n]), actions[n]);
    }
  }
}

// Why commit order and deadlock freedom ask that a stay's nights be counted right: any stay for which the
// hours/24 count falls short of the dates in its range (StayNights.SqlCountIff) can break the first, and
// the second if a night is counted at all.
module MiscountedStays {
  import opened Prelude
  import opened StayNights
  import opened Allocations
  import opened AllocationTransactions

  const OPEN := Slot(2, 0, 0, 100)

  predicate Miscounted(stay: Stay) { stay.Valid() && !stay.CountsItsNights() }

  lemma MiscountedFallsShort(stay: Stay)
    requires Miscounted(stay)
    ensures 0 <= stay.Expected() < Day(stay.checkOut) - Day(stay.checkIn)
  {
    SqlCountIff(stay.checkIn, stay.checkOut);
  }

  function At(stay: Stay, offset: int): Night { Night(stay.propertyId, stay.roomTypeId, Day(stay.checkIn) + offset) }

  predicate Within(stay: Stay, k: Night, n: int) {
    k.propertyId == stay.propertyId && k.roomTypeId == stay.roomTypeId && 0 < k.day - Day(stay.checkIn) <= n
  }

  // The table that has the n nights after the first one, which is missing.
  function Later(stay: Stay, n: nat): (table: Table)
    ensures forall k :: k in table <==> Within(stay, k, n)
    ensures forall k :: k in table ==> table[k] == OPEN
  {
    if n == 0 then map[] else Later(stay, n - 1)[At(stay, n) := OPEN]
  }

  function FirstNight(stay: Stay): Job { Batch([DailyAllocation(At(stay, 0), OPEN)]) }

  // A two-night stay over the first night and the next.
  function TwoNights(stay: Stay): Job {
    Booking(Stay(stay.propertyId, stay.roomTypeId, Day(stay.checkIn) * 86400, Day(stay.checkIn) * 86400 + 172800))
  }

  function Jobs(stay: Stay): seq<Job> { [Booking(stay), FirstNight(stay), TwoNights(stay)] }

  lemma OthersAreWellFormed(stay: Stay)
    ensures WellFormed(FirstNight(stay)) && WellFormed(TwoNights(stay))
    ensures TwoNights(stay).stay.Nights() == [At(stay, 0), At(stay, 1)]
  {
    var two := TwoNights(stay).stay;
    assert Day(two.checkIn) == Day(stay.checkIn) && Day(two.checkOut) == Day(stay.checkIn) + 2;
    RangeNightsAre(two.propertyId, two.roomTypeId, Day(two.checkIn), Day(two.checkOut));
  }

  // A range query over a table that has just the days lo to hi of the range.
  lemma {:induction false} PresentStretch(table: Table, stay: Stay, until: int, lo: int, hi: int)
    requires Day(stay.checkIn) <= lo <= hi
    requires forall d :: Day(stay.checkIn) <= d < until ==>
                           (Night(stay.propertyId, stay.roomTypeId, d) in table <==> lo <= d < hi)
    ensures Present(table, RangeNights(stay.propertyId, stay.roomTypeId, Day(stay.checkIn), until))
            == RangeNights(stay.propertyId, stay.roomTypeId, lo, Min(until, hi))
    decreases until - Day(stay.checkIn)
  {
    if Day(stay.checkIn) < until {
      PresentStretch(table, stay, until - 1, lo, hi);
      var nights := RangeNights(stay.propertyId, stay.roomTypeId, Day(stay.checkIn), until);
      assert nights[..|nights| - 1] == RangeNights(stay.propertyId, stay.roomTypeId, Day(stay.checkIn), until - 1);
    }
  }

  lemma RowsBefore(stay: Stay)
    requires Miscounted(stay)
    ensures Rows(Later(stay, stay.Expected()), stay) == Plan(stay)
  {
    MiscountedFallsShort(stay);
    var a, e := Day(stay.checkIn), stay.Expected();
    PresentStretch(Later(stay, e), stay, Day(stay.checkOut), a + 1, a + e + 1);
  }

  // Once the first night is there, too.
  lemma RowsAfter(stay: Stay)
    requires Miscounted(stay)
    ensures |Rows(Later(stay, stay.Expected())[At(stay, 0) := OPEN], stay)| == stay.Expected() + 1
  {
    MiscountedFallsShort(stay);
    var a, e := Day(stay.checkIn), stay.Expected();
    PresentStretch(Later(stay, e)[At(stay, 0) := OPEN], stay, Day(stay.checkOut), a, a + e + 1);
    RangeNightsAre(stay.propertyId, stay.roomTypeId, a, a + e + 1);
  }

  function Plan(stay: Stay): seq<Night>
    requires Miscounted(stay)
  {
    RangeNights(stay.propertyId, stay.roomTypeId, Day(stay.checkIn) + 1, Day(stay.checkIn) + stay.Expected() + 1)
  }

  lemma PlanIs(stay: Stay)
    requires Miscounted(stay)
    ensures |Plan(stay)| == stay.Expected() && forall i :: 0 <= i < |Plan(stay)| ==> Plan(stay)[i] == At(stay, i + 1)
  {
    MiscountedFallsShort(stay);
    RangeNightsAre(stay.propertyId, stay.roomTypeId, Day(stay.checkIn) + 1, Day(stay.checkIn) + stay.Expected() + 1);
  }

  // ---- the booking locks every row there is ----

  function OwnLocks(stay: Stay, n: nat): (locks: map<Night, nat>)
    ensures forall k :: k in locks <==> Within(stay, k, n)
    ensures forall k :: k in locks ==> locks[k] == 0
  {
    if n == 0 then map[] else OwnLocks(stay, n - 1)[At(stay, n) := 0]
  }

  function Locked(stay: Stay, n: nat): State
    requires Miscounted(stay)
  {
    State(Later(stay, Max(0, stay.Expected())), OwnLocks(stay, n),
          [Tx(Booking(stay), Locking(Plan(stay), n)), Tx(FirstNight(stay), Idle), Tx(TwoNights(stay), Idle)], [])
  }

  function LockActions(n: nat): seq<Action> { if n == 0 then [] + [Start(0)] else LockActions(n - 1) + [Lock(0)] }

  ghost predicate Reaches(s: State, actions: seq<Action>, end: State) {
    IsRun(s, actions) && RunState(s, actions) == end
  }

  lemma ReachesMore(s: State, actions: seq<Action>, mid: State, a: Action, end: State)
    requires Reaches(s, actions, mid) && Enabled(mid, a) && Step(mid, a) == end
    ensures Reaches(s, actions + [a], end)
  {
    assert (actions + [a])[..|actions|] == actions;
  }

  ghost function Begin(stay: Stay): State { Init(Later(stay, Max(0, stay.Expected())), Jobs(stay)) }

  lemma StartLocks(stay: Stay)
    requires Miscounted(stay)
    ensures Reaches(Begin(stay), LockActions(0), Locked(stay, 0))
  {
    RowsBefore(stay);
    MiscountedFallsShort(stay);
    assert Step(Begin(stay), Start(0)) == Locked(stay, 0);
    ReachesMore(Begin(stay), [], Begin(stay), Start(0), Locked(stay, 0));
  }

  lemma {:induction false} LocksAll(stay: Stay, n: nat)
    requires Miscounted(stay) && n <= stay.Expected()
    ensures Reaches(Begin(stay), LockActions(n), Locked(stay, n))
  {
    if n == 0 {
      StartLocks(stay);
    } else {
      LocksAll(stay, n - 1);
      LockOneMore(stay, n - 1);
      ReachesMore(Begin(stay), LockActions(n - 1), Locked(stay, n - 1), Lock(0), Locked(stay, n));
    }
  }

  lemma LockOneMore(stay: Stay, n: nat)
    requires Miscounted(stay) && n < stay.Expected()
    ensures Enabled(Locked(stay, n), Lock(0)) && Step(Locked(stay, n), Lock(0)) == Locked(stay, n + 1)
  {
    PlanIs(stay);
    assert Plan(stay)[n] == At(stay, n + 1);
  }

  // ---- the missing night appears meanwhile ----

  predicate BeforeBatch(stay: Stay, s: State) {
    && |s.txs| == 3 && s.txs[1] == Tx(FirstNight(stay), Idle) && s.history == []
    && At(stay, 0) !in s.locks && At(stay, 0) !in s.table
    && forall k :: k in s.locks ==> s.locks[k] != 1
  }

  function WithFirstNight(stay: Stay, s: State): State
    requires |s.txs| == 3
  {
    State(s.table[At(stay, 0) := OPEN], s.locks, s.txs[1 := Tx(FirstNight(stay), Done(true))], [] + [FirstNight(stay)])
  }

  lemma UpsertFirstNight(stay: Stay, table: Table)
    requires At(stay, 0) !in table
    ensures UpsertAll(table, FirstNight(stay).items) == Some(table[At(stay, 0) := OPEN])
  {
    assert FirstNight(stay).items[..0] == [];
    assert UpsertAll(table, []) == Some(table);
  }

  lemma BatchCommits(stay: Stay, s: State, actions: seq<Action>, mid: State)
    requires Reaches(s, actions, mid) && BeforeBatch(stay, mid)
    ensures Reaches(s, actions + [Start(1)] + [Lock(1)] + [Finish(1)] + [Commit(1)], WithFirstNight(stay, mid))
  {
    var night := At(stay, 0);
    BatchSteps(stay, mid);
    var s1 := BatchAt(stay, mid, Locking([night], 0), mid.locks);
    var s2 := BatchAt(stay, mid, Locking([night], 1), mid.locks[night := 1]);
    var s3 := BatchAt(stay, mid, Updated([night]), mid.locks[night := 1]);
    ReachesMore(s, actions, mid, Start(1), s1);
    ReachesMore(s, actions + [Start(1)], s1, Lock(1), s2);
    ReachesMore(s, actions + [Start(1)] + [Lock(1)], s2, Finish(1), s3);
    ReachesMore(s, actions + [Start(1)] + [Lock(1)] + [Finish(1)], s3, Commit(1), WithFirstNight(stay, mid));
  }

  function BatchAt(stay: Stay, s: State, phase: Phase, locks: map<Night, nat>): State
    requires |s.txs| == 3
  {
    s.(txs := s.txs[1 := Tx(FirstNight(stay), phase)], locks := locks)
  }

  lemma BatchSteps(stay: Stay, s: State)
    requires BeforeBatch(stay, s)
    ensures var night := At(stay, 0);
            var s1 := BatchAt(stay, s, Locking([night], 0), s.locks);
            var s2 := BatchAt(stay, s, Locking([night], 1), s.locks[night := 1]);
            var s3 := BatchAt(stay, s, Updated([night]), s.locks[night := 1]);
            && Enabled(s, Start(1)) && Step(s, Start(1)) == s1
            && Enabled(s1, Lock(1)) && Step(s1, Lock(1)) == s2
            && Enabled(s2, Finish(1)) && Step(s2, Finish(1)) == s3
            && Enabled(s3, Commit(1)) && Step(s3, Commit(1)) == WithFirstNight(stay, s)
  {
    assert ItemNights(FirstNight(stay).items) == [At(stay, 0)];
    UpsertFirstNight(stay, s.table);
    assert Unlocked(s.locks[At(stay, 0) := 1], 1) == s.locks;
  }

  // ---- not in commit order ----

  function UpdatedShort(stay: Stay): State
    requires Miscounted(stay)
  {
    var s := Locked(stay, Max(0, stay.Expected()));
    s.(txs := s.txs[0 := Tx(Booking(stay), Updated(Plan(stay)))])
  }

  lemma FinishesShort(stay: Stay)
    requires Miscounted(stay)
    ensures var s := Locked(stay, stay.Expected());
            && Enabled(s, Finish(0))
            && Step(s, Finish(0)) == UpdatedShort(stay) && BeforeBatch(stay, UpdatedShort(stay))
            && BeforeBatch(stay, s)
  {
    RowsBefore(stay);
    PlanIs(stay);
  }

  lemma NoCommitOrder(stay: Stay)
    requires Miscounted(stay)
    ensures Replay(Later(stay, stay.Expected()), [] + [FirstNight(stay)] + [Booking(stay)]) == None
  {
    MiscountedFallsShort(stay);
    var table := Later(stay, stay.Expected());
    UpsertFirstNight(stay, table);
    RowsAfter(stay);
    var history := [FirstNight(stay)];
    assert history[..0] == [];
    assert Replay(table, history) == Some(table[At(stay, 0) := OPEN]);
    assert ([] + history + [Booking(stay)])[..1] == history;
  }

  function BreakingRun(stay: Stay): seq<Action>
    requires Miscounted(stay)
  {
    LockActions(Max(0, stay.Expected())) + [Finish(0)] + [Start(1)] + [Lock(1)] + [Finish(1)] + [Commit(1)] + [Commit(0)]
  }

  lemma CommitsUnseen(stay: Stay)
    requires Miscounted(stay)
    ensures var s := WithFirstNight(stay, UpdatedShort(stay));
            && Enabled(s, Commit(0))
            && Step(s, Commit(0)).history == [] + [FirstNight(stay)] + [Booking(stay)]
            && Allocated(Step(s, Commit(0)).table, At(stay, 0)) == 0
  {
    PlanIs(stay);
  }

  lemma BreakingRunEnds(stay: Stay)
    requires Miscounted(stay)
    ensures Enabled(WithFirstNight(stay, UpdatedShort(stay)), Commit(0))
    ensures Reaches(Begin(stay), BreakingRun(stay), Step(WithFirstNight(stay, UpdatedShort(stay)), Commit(0)))
  {
    MiscountedFallsShort(stay);
    var run, updated := LockActions(stay.Expected()), UpdatedShort(stay);
    LocksAll(stay, stay.Expected());
    FinishesShort(stay);
    ReachesMore(Begin(stay), run, Locked(stay, stay.Expected()), Finish(0), updated);
    BatchCommits(stay, Begin(stay), run + [Finish(0)], updated);
    CommitsUnseen(stay);
    var after := WithFirstNight(stay, updated);
    ReachesMore(Begin(stay), run + [Finish(0)] + [Start(1)] + [Lock(1)] + [Finish(1)] + [Commit(1)], after,
                Commit(0), Step(after, Commit(0)));
  }

  // Every miscounted stay, among well-formed jobs, has a run that is not the serial execution of what it
  // committed in the order of the commits: its first night appears beside the booking, which then commits
  // without it. (SerialOrder puts the booking first.)
  lemma MiscountBreaksCommitOrder(stay: Stay)
    requires !WellFormed(Booking(stay))
    ensures Bounded(Begin(stay).table) && IsRun(Begin(stay), BreakingRun(stay))
    ensures forall i :: 0 < i < 3 ==> WellFormed(Jobs(stay)[i])
    ensures var end := RunState(Begin(stay), BreakingRun(stay));
            && Booking(stay) in end.history && stay.Covers(At(stay, 0)) && Allocated(end.table, At(stay, 0)) == 0
            && Replay(Begin(stay).table, end.history) == None
  {
    MiscountedFallsShort(stay);
    OthersAreWellFormed(stay);
    BreakingRunEnds(stay);
    CommitsUnseen(stay);
    NoCommitOrder(stay);
  }

  // ---- deadlock ----

  function DeadlockRun(stay: Stay): seq<Action>
    requires Miscounted(stay)
  {
    LockActions(Max(0, stay.Expected())) + [Start(1)] + [Lock(1)] + [Finish(1)] + [Commit(1)] + [Start(2)] + [Lock(2)]
  }

  function TwoNightsLocked(stay: Stay): State
    requires Miscounted(stay)
  {
    var s := WithFirstNight(stay, Locked(stay, Max(0, stay.Expected())));
    s.(txs := s.txs[2 := Tx(TwoNights(stay), Locking([At(stay, 0), At(stay, 1)], 1))], locks := s.locks[At(stay, 0) := 2])
  }

  lemma TwoNightsRows(stay: Stay)
    requires Miscounted(stay) && stay.Expected() > 0
    ensures Rows(Later(stay, stay.Expected())[At(stay, 0) := OPEN], TwoNights(stay).stay) == [At(stay, 0), At(stay, 1)]
  {
    var table, nights := Later(stay, stay.Expected())[At(stay, 0) := OPEN], [At(stay, 0), At(stay, 1)];
    OthersAreWellFormed(stay);
    assert nights[..1] == [At(stay, 0)] && nights[..1][..0] == [];
    assert Present(table, nights[..1]) == [At(stay, 0)];
  }

  lemma TwoNightsLocks(stay: Stay)
    requires Miscounted(stay) && stay.Expected() > 0
    ensures var s := WithFirstNight(stay, Locked(stay, stay.Expected()));
            && Enabled(s, Start(2)) && Enabled(Step(s, Start(2)), Lock(2))
            && Step(Step(s, Start(2)), Lock(2)) == TwoNightsLocked(stay)
  {
    TwoNightsRows(stay);
    var s := WithFirstNight(stay, Locked(stay, stay.Expected()));
    assert Step(s, Start(2)).txs[2].phase == Locking([At(stay, 0), At(stay, 1)], 0);
  }

  // Each of the two unfinished transactions waits for a row that the other has locked.
  lemma NobodyIsReady(stay: Stay)
    requires Miscounted(stay) && stay.Expected() > 0
    ensures Unfinished(TwoNightsLocked(stay), 0) && forall i :: !Ready(TwoNightsLocked(stay), i)
  {
    var s := TwoNightsLocked(stay);
    MiscountedFallsShort(stay);
    PlanIs(stay);
    RowsAre(s.table, stay);
    assert At(stay, 0) in Rows(s.table, stay);
    assert At(stay, 1) in s.locks;
  }

  lemma DeadlockRunEnds(stay: Stay)
    requires Miscounted(stay) && stay.Expected() > 0
    ensures Reaches(Begin(stay), DeadlockRun(stay), TwoNightsLocked(stay))
  {
    var run, locked := LockActions(stay.Expected()), Locked(stay, stay.Expected());
    LocksAll(stay, stay.Expected());
    FinishesShort(stay);
    BatchCommits(stay, Begin(stay), run, locked);
    TwoNightsLocks(stay);
    var committed, after := run + [Start(1)] + [Lock(1)] + [Finish(1)] + [Commit(1)], WithFirstNight(stay, locked);
    ReachesMore(Begin(stay), committed, after, Start(2), Step(after, Start(2)));
    ReachesMore(Begin(stay), committed + [Start(2)], Step(after, Start(2)), Lock(2), TwoNightsLocked(stay));
  }

  // Every miscounted stay of at least one counted night has a run into deadlock.
  lemma MiscountCanDeadlock(stay: Stay)
    requires !Orderly(Booking(stay))
    ensures Bounded(Begin(stay).table) && IsRun(Begin(stay), DeadlockRun(stay))
    ensures forall i :: 0 < i < 3 ==> WellFormed(Jobs(stay)[i])
    ensures var end := RunState(Begin(stay), DeadlockRun(stay));
            Unfinished(end, 0) && forall i :: !Ready(end, i)
  {
    MiscountedFallsShort(stay);
    OthersAreWellFormed(stay);
    DeadlockRunEnds(stay);
    NobodyIsReady(stay);
  }
}

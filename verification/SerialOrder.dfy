// Strict serialisability of all bookings, whether or not their nights are counted right: each takes effect
// at its UPDATE, when it holds every row of its range, and each batch at its commit. Commit order is
// another matter (MiscountedStays).
module SerialOrder {
  import opened Prelude
  import opened StayNights
  import opened Allocations
  import opened AllocationTransactions

  // One more unit allocated on the rows of `plan`.
  function Raise(table: Table, plan: seq<Night>): Table {
    map k | k in table :: if k in plan then table[k].(allocatedCount := table[k].allocatedCount + 1) else table[k]
  }

  // The job has nothing to do with the rows of `plan`.
  predicate Avoids(job: Job, plan: seq<Night>) {
    match job
    case Booking(stay) => forall k :: k in plan ==> !stay.Covers(k)
    case Batch(items) => forall k :: k in plan ==> k !in ItemNights(items)
  }

  // ---- a booking's effect commutes with jobs that avoid its rows ----

  lemma BookingCommutes(table: Table, stay: Stay, plan: seq<Night>)
    requires CommitSpec(table, stay).Ok? && Avoids(Booking(stay), plan)
    ensures CommitSpec(Raise(table, plan), stay) == Ok(Raise(CommitSpec(table, stay).value, plan))
  {
    var raised := Raise(table, plan);
    PresentDependsOnKeys(table, raised, stay.Nights());
    RowsAre(table, stay);
    forall k | k in Rows(table, stay) ensures k in raised && HasRoom(raised[k]) { assert k !in plan; }
    assert Increment(raised, stay) == Raise(Increment(table, stay), plan);
  }

  lemma UpsertCommutes(table: Table, a: DailyAllocation, plan: seq<Night>)
    requires Upsert(table, a).Some? && a.night !in plan
    ensures Upsert(Raise(table, plan), a) == Some(Raise(Upsert(table, a).value, plan))
  {
    assert Upsert(Raise(table, plan), a).Some?;
    assert Upsert(Raise(table, plan), a).value == Raise(Upsert(table, a).value, plan);
  }

  lemma {:induction false} UpsertsCommute(table: Table, items: seq<DailyAllocation>, plan: seq<Night>)
    requires UpsertAll(table, items).Some? && forall a :: a in items ==> a.night !in plan
    ensures UpsertAll(Raise(table, plan), items) == Some(Raise(UpsertAll(table, items).value, plan))
  {
    if items != [] {
      var n := |items| - 1;
      assert items[n] in items && forall a :: a in items[..n] ==> a in items;
      UpsertsCommute(table, items[..n], plan);
      UpsertCommutes(UpsertAll(table, items[..n]).value, items[n], plan);
    }
  }

  lemma JobCommutes(table: Table, job: Job, plan: seq<Night>)
    requires Serial(table, job).Some? && Avoids(job, plan)
    ensures Serial(Raise(table, plan), job) == Some(Raise(Serial(table, job).value, plan))
  {
    match job
    case Booking(stay) => BookingCommutes(table, stay, plan);
    case Batch(items) =>
      forall a | a in items ensures a.night !in plan {
        var i :| 0 <= i < |items| && items[i] == a;
        assert ItemNights(items)[i] == a.night;
      }
      UpsertsCommute(table, items, plan);
  }

  // ---- splicing a booking into a serial order ----

  // `plan` is every row that the stay's range has in `table`, as many as its nights, each with room.
  predicate PlanAt(table: Table, stay: Stay, plan: seq<Night>) {
    && PlanInv(table, Booking(stay), plan) && |plan| == stay.Expected()
    && (forall k :: k in Rows(table, stay) ==> k in plan)
    && (forall k :: k in plan ==> HasRoom(table[k]))
  }

  lemma PlanCommits(table: Table, stay: Stay, plan: seq<Night>)
    requires PlanAt(table, stay, plan)
    ensures CommitSpec(table, stay) == Ok(Raise(table, plan))
  {
    var rows := Rows(table, stay);
    RowsAre(table, stay);
    PlanAmongRows(table, stay, plan);
    WantedIsOrdered(table, Booking(stay));
    AscendingSize(rows);
    AscendingSize(plan);
    SubsetSize(set k | k in rows, set k | k in plan);
    assert Increment(table, stay) == Raise(table, plan);
  }

  function At(initial: Table, order: seq<Job>, m: nat): Option<Table>
    requires m <= |order|
  {
    Replay(initial, order[..m])
  }

  lemma {:induction false} PrefixReplays(initial: Table, order: seq<Job>, m: nat)
    requires Replay(initial, order).Some? && m <= |order|
    ensures At(initial, order, m).Some? && At(initial, order, m).value.Keys <= Replay(initial, order).value.Keys
    decreases |order|
  {
    var n := |order| - 1;
    if m <= n {
      PrefixReplays(initial, order[..n], m);
      assert order[..n][..m] == order[..m];
      SerialGrows(At(initial, order, n).value, order[n]);
    } else {
      assert order[..m] == order;
    }
  }

  lemma SerialGrows(table: Table, job: Job)
    requires Serial(table, job).Some?
    ensures table.Keys <= Serial(table, job).value.Keys
  {
    match job
    case Booking(stay) => CommitEffect(table, stay);
    case Batch(items) => UpsertsProtectAllocations(table, items);
  }

  function Spliced(order: seq<Job>, pos: nat, job: Job): seq<Job>
    requires pos <= |order|
  {
    order[..pos] + [job] + order[pos..]
  }

  // Splicing one before the end.
  lemma SplicedInit(order: seq<Job>, pos: nat, job: Job)
    requires pos < |order|
    ensures var longer := Spliced(order, pos, job);
            && longer[..|longer| - 1] == Spliced(order[..|order| - 1], pos, job)
            && longer[|longer| - 1] == order[|order| - 1]
            && order[..|order| - 1][..pos] == order[..pos]
  {
  }

  lemma ReplaySnoc(initial: Table, order: seq<Job>, job: Job)
    requires Replay(initial, order).Some?
    ensures Replay(initial, order + [job]) == Serial(Replay(initial, order).value, job)
  {
    assert (order + [job])[..|order|] == order;
  }

  lemma SpliceStep(initial: Table, order: seq<Job>, table: Table, job: Job, plan: seq<Night>)
    requires Replay(initial, order) == Some(Raise(table, plan)) && Serial(table, job).Some? && Avoids(job, plan)
    ensures Replay(initial, order + [job]) == Some(Raise(Serial(table, job).value, plan))
  {
    JobCommutes(table, job, plan);
    ReplaySnoc(initial, order, job);
  }

  // `table` is where the order stands at pos, when the booking raises the rows of `plan`.
  lemma {:induction false} SplicedReplays(initial: Table, order: seq<Job>, pos: nat, job: Job, plan: seq<Night>, table: Table)
    requires Replay(initial, order).Some? && pos <= |order| && At(initial, order, pos) == Some(table)
    requires Serial(table, job) == Some(Raise(table, plan))
    requires forall j :: pos <= j < |order| ==> Avoids(order[j], plan)
    ensures Replay(initial, Spliced(order, pos, job)) == Some(Raise(Replay(initial, order).value, plan))
    decreases |order|
  {
    if pos == |order| {
      assert order[..pos] == order && Spliced(order, pos, job) == order + [job];
      ReplaySnoc(initial, order, job);
    } else {
      var n := |order| - 1;
      var shorter, last := order[..n], order[n];
      SplicedInit(order, pos, job);
      SplicedReplays(initial, shorter, pos, job, plan, table);
      SpliceStep(initial, Spliced(shorter, pos, job), Replay(initial, shorter).value, last, plan);
      assert Spliced(order, pos, job) == Spliced(shorter, pos, job) + [last];
    }
  }

  lemma SpliceReplays(initial: Table, order: seq<Job>, pos: nat, stay: Stay, plan: seq<Night>)
    requires Replay(initial, order).Some? && pos <= |order|
    requires At(initial, order, pos).Some? && PlanAt(At(initial, order, pos).value, stay, plan)
    requires forall j :: pos <= j < |order| ==> Avoids(order[j], plan)
    ensures Replay(initial, Spliced(order, pos, Booking(stay))) == Some(Raise(Replay(initial, order).value, plan))
  {
    PlanCommits(At(initial, order, pos).value, stay, plan);
    SplicedReplays(initial, order, pos, Booking(stay), plan, At(initial, order, pos).value);
  }

  // ---- the invariant ----

  predicate IsPending(tx: Tx) { tx.phase.Updated? && tx.job.Booking? }

  // The booking can still take effect at `pos` of the order: it found its rows there, and everything
  // from there on avoids them.
  predicate Pending(initial: Table, order: seq<Job>, pos: nat, tx: Tx)
    requires IsPending(tx)
  {
    && pos <= |order|
    && At(initial, order, pos).Some? && PlanAt(At(initial, order, pos).value, tx.job.stay, tx.phase.plan)
    && forall j :: pos <= j < |order| ==> Avoids(order[j], tx.phase.plan)
  }

  lemma FinishPends(initial: Table, s: State, order: seq<Job>, i: nat)
    requires TxsInv(s) && Enabled(s, Finish(i)) && Replay(initial, order) == Some(s.table)
    requires IsPending(Step(s, Finish(i)).txs[i])
    ensures Pending(initial, order, |order|, Step(s, Finish(i)).txs[i])
  {
    var tx := s.txs[i];
    assert TxInv(s.table, tx);
    assert Held(tx.phase) == tx.phase.plan;
    PlanAmongRows(s.table, tx.job.stay, tx.phase.plan);
    assert order[..|order|] == order;
    forall k | k in tx.phase.plan ensures HasRoom(s.table[k]) { assert Accepts(s.table, tx.job, k); }
  }

  lemma AppendedAvoids(initial: Table, order: seq<Job>, job: Job, pos: nat, tx: Tx)
    requires IsPending(tx) && Pending(initial, order, pos, tx) && Avoids(job, tx.phase.plan)
    ensures Pending(initial, order + [job], pos, tx)
  {
    assert (order + [job])[..pos] == order[..pos];
  }

  lemma PrefixGrows(initial: Table, order: seq<Job>, m: nat, n: nat)
    requires Replay(initial, order).Some? && m <= n <= |order|
    ensures At(initial, order, m).Some? && At(initial, order, n).Some?
    ensures At(initial, order, m).value.Keys <= At(initial, order, n).value.Keys
  {
    PrefixReplays(initial, order, n);
    PrefixReplays(initial, order[..n], m);
    assert order[..n][..m] == order[..m];
  }

  // A booking avoids rows that were there when it found its own, and are not among them.
  lemma BookingAvoids(table: Table, stay: Stay, plan: seq<Night>, others: seq<Night>)
    requires PlanAt(table, stay, plan)
    requires forall k :: k in others ==> k in table && k !in plan
    ensures Avoids(Booking(stay), others)
  {
    RowsAre(table, stay);
  }

  // Splicing b's job in at p leaves a booking pending that found its rows earlier.
  lemma EarlierSurvives(initial: Table, order: seq<Job>, p: nat, b: Tx, pos: nat, tx: Tx)
    requires Replay(initial, order).Some? && IsPending(b) && IsPending(tx) && pos <= p
    requires Pending(initial, order, p, b) && Pending(initial, order, pos, tx)
    requires forall k :: k in tx.phase.plan ==> k !in b.phase.plan
    ensures Pending(initial, Spliced(order, p, b.job), pos, tx)
  {
    var longer := Spliced(order, p, b.job);
    PrefixGrows(initial, order, pos, p);
    assert longer[..pos] == order[..pos];
    BookingAvoids(At(initial, order, p).value, b.job.stay, b.phase.plan, tx.phase.plan);
    forall j | pos <= j < |longer| ensures Avoids(longer[j], tx.phase.plan) {
      assert longer[j] == if j < p then order[j] else if j == p then b.job else order[j - 1];
    }
  }

  lemma SplicedLater(order: seq<Job>, p: nat, job: Job, pos: nat)
    requires p <= pos <= |order|
    ensures Spliced(order, p, job)[..pos + 1] == Spliced(order[..pos], p, job)
    ensures forall j :: pos + 1 <= j <= |order| ==> Spliced(order, p, job)[j] == order[j - 1]
    ensures order[..pos][..p] == order[..p]
  {
  }

  // And one that found them later.
  lemma LaterSurvives(initial: Table, order: seq<Job>, p: nat, b: Tx, pos: nat, tx: Tx)
    requires Replay(initial, order).Some? && IsPending(b) && IsPending(tx) && p <= pos
    requires Pending(initial, order, p, b) && Pending(initial, order, pos, tx)
    requires forall k :: k in tx.phase.plan ==> k !in b.phase.plan
    ensures Pending(initial, Spliced(order, p, b.job), pos + 1, tx)
  {
    SplicedLater(order, p, b.job, pos);
    SpliceReplays(initial, order[..pos], p, b.job.stay, b.phase.plan);
    RaisedPlan(At(initial, order, pos).value, tx.job.stay, tx.phase.plan, b.phase.plan);
  }

  lemma RaisedPlan(table: Table, stay: Stay, plan: seq<Night>, other: seq<Night>)
    requires PlanAt(table, stay, plan) && forall k :: k in plan ==> k !in other
    ensures PlanAt(Raise(table, other), stay, plan)
  {
    PresentDependsOnKeys(table, Raise(table, other), stay.Nights());
  }

  // ---- the order of effects ----

  predicate TakesEffect(s: State, a: Action)
    requires Enabled(s, a)
  {
    if a.Finish? then IsPending(Step(s, a).txs[a.i]) else a.Commit? && s.txs[a.i].job.Batch?
  }

  function NextPoints(s: State, a: Action, points: seq<nat>): seq<nat>
    requires Enabled(s, a)
  {
    if TakesEffect(s, a) then points + [a.i] else points
  }

  // The transactions in the order in which they take effect: a booking at its UPDATE, a batch at its
  // commit.
  ghost function Points(s: State, actions: seq<Action>): seq<nat>
    requires IsRun(s, actions)
  {
    if actions == [] then []
    else
      var n := |actions| - 1;
      NextPoints(RunState(s, actions[..n]), actions[n], Points(s, actions[..n]))
  }

  // The jobs of those that have committed, in that order.
  function Committed(txs: seq<Tx>, points: seq<nat>): seq<Job> {
    if points == [] then []
    else
      var i := points[|points| - 1];
      Committed(txs, points[..|points| - 1]) + if i < |txs| && txs[i].phase == Done(true) then [txs[i].job] else []
  }

  // The number of them before the x-th point.
  function Place(txs: seq<Tx>, points: seq<nat>, x: nat): nat
    requires x <= |points|
  {
    |Committed(txs, points[..x])|
  }

  lemma {:induction false} PlacesAscend(txs: seq<Tx>, points: seq<nat>, x: nat)
    requires x <= |points|
    ensures Place(txs, points, x) <= |Committed(txs, points)|
    decreases |points|
  {
    var n := |points| - 1;
    if x <= n {
      PlacesAscend(txs, points[..n], x);
      assert points[..n][..x] == points[..x];
    } else {
      assert points[..x] == points;
    }
  }

  predicate DistinctPoints(points: seq<nat>) { forall x, y :: 0 <= x < y < |points| ==> points[x] != points[y] }

  // A step that changes nobody's having committed, among the points.
  lemma {:induction false} CommittedStays(before: seq<Tx>, after: seq<Tx>, points: seq<nat>)
    requires |before| == |after|
    requires forall i :: 0 <= i < |before| && i in points ==>
                           after[i].job == before[i].job && (after[i].phase == Done(true) <==> before[i].phase == Done(true))
    ensures Committed(after, points) == Committed(before, points)
  {
    if points != [] {
      var rest := points[..|points| - 1];
      assert forall i :: i in rest ==> i in points;
      assert points[|points| - 1] in points;
      CommittedStays(before, after, rest);
    }
  }

  // Committing the x-th point splices its job in at its place.
  lemma {:induction false} CommittedSplices(before: seq<Tx>, after: seq<Tx>, points: seq<nat>, x: nat)
    requires x < |points| && DistinctPoints(points) && points[x] < |before|
    requires before[points[x]].phase != Done(true) && after == before[points[x] := before[points[x]].(phase := Done(true))]
    ensures Place(before, points, x) <= |Committed(before, points)|
    ensures Committed(after, points) == Spliced(Committed(before, points), Place(before, points, x), before[points[x]].job)
    decreases |points|
  {
    var n := |points| - 1;
    PlacesAscend(before, points, x);
    if x == n {
      CommittedStays(before, after, points[..n]);
    } else {
      assert points[..n][..x] == points[..x];
      CommittedSplices(before, after, points[..n], x);
    }
  }

  // ---- the invariant ----

  predicate InPlace(initial: Table, txs: seq<Tx>, points: seq<nat>, x: nat)
    requires x < |points|
  {
    && points[x] < |txs|
    && (IsPending(txs[points[x]]) ==>
          Pending(initial, Committed(txs, points), Place(txs, points, x), txs[points[x]]))
  }

  predicate PointsAre(txs: seq<Tx>, points: seq<nat>) {
    && DistinctPoints(points)
    && (forall i :: i in points ==> i < |txs| && (IsPending(txs[i]) || txs[i].phase.Done?))
    && (forall i :: 0 <= i < |txs| && (IsPending(txs[i]) || txs[i].phase == Done(true)) ==> i in points)
  }

  predicate PointsInv(initial: Table, s: State, points: seq<nat>) {
    && PointsAre(s.txs, points)
    && Replay(initial, Committed(s.txs, points)) == Some(s.table)
    && forall x :: 0 <= x < |points| ==> InPlace(initial, s.txs, points, x)
  }

  lemma PointStep(s: State, a: Action, points: seq<nat>)
    requires PointsAre(s.txs, points) && Enabled(s, a)
    ensures PointsAre(Step(s, a).txs, NextPoints(s, a, points))
  {
  }

  // a leaves alone who has committed, among the points.
  lemma NobodyCommits(s: State, a: Action, points: seq<nat>)
    requires PointsAre(s.txs, points) && Enabled(s, a) && (a.Commit? ==> a.i !in points)
    ensures forall j :: 0 <= j < |s.txs| && j in points ==>
                          var tx, tx' := s.txs[j], Step(s, a).txs[j];
                          tx'.job == tx.job && (tx'.phase == Done(true) <==> tx.phase == Done(true))
                          && (IsPending(tx') ==> tx' == tx)
  {
  }

  // What a point keeps in such a step, with `more` appended to the points, of which nobody has committed.
  lemma SamePlace(initial: Table, before: seq<Tx>, after: seq<Tx>, points: seq<nat>, more: seq<nat>, x: nat)
    requires |before| == |after| && x < |points| && InPlace(initial, before, points, x)
    requires forall j :: 0 <= j < |before| && j in points ==>
                           && after[j].job == before[j].job && (after[j].phase == Done(true) <==> before[j].phase == Done(true))
                           && (IsPending(after[j]) ==> after[j] == before[j])
    requires Committed(after, points + more) == Committed(before, points)
    ensures InPlace(initial, after, points + more, x)
  {
    assert (points + more)[..x] == points[..x] && points[x] in points;
    assert forall j :: j in points[..x] ==> j in points;
    CommittedStays(before, after, points[..x]);
  }

  // A step in which nobody commits and nobody takes effect.
  lemma QuietStep(initial: Table, s: State, a: Action, points: seq<nat>)
    requires PointsInv(initial, s, points) && Enabled(s, a) && !a.Commit? && !TakesEffect(s, a)
    ensures PointsInv(initial, Step(s, a), points)
  {
    var after := Step(s, a).txs;
    PointStep(s, a, points);
    NobodyCommits(s, a, points);
    CommittedStays(s.txs, after, points);
    assert points + [] == points;
    forall x | 0 <= x < |points| ensures InPlace(initial, after, points, x) {
      SamePlace(initial, s.txs, after, points, [], x);
    }
  }

  lemma UpdateStep(initial: Table, s: State, a: Action, points: seq<nat>)
    requires TxsInv(s) && PointsInv(initial, s, points) && Enabled(s, a) && a.Finish? && TakesEffect(s, a)
    ensures PointsInv(initial, Step(s, a), points + [a.i])
  {
    var after, longer := Step(s, a).txs, points + [a.i];
    PointStep(s, a, points);
    NobodyCommits(s, a, points);
    CommittedStays(s.txs, after, points);
    assert longer[..|points|] == points;
    assert Committed(after, longer) == Committed(s.txs, points);
    FinishPends(initial, s, Committed(s.txs, points), a.i);
    forall x | 0 <= x < |longer| ensures InPlace(initial, after, longer, x) {
      if x < |points| {
        SamePlace(initial, s.txs, after, points, [a.i], x);
      } else {
        assert Place(after, longer, x) == |Committed(s.txs, points)|;
      }
    }
  }

  // What a point keeps when another is appended and nobody before it has committed meanwhile.
  lemma PlaceStays(before: seq<Tx>, after: seq<Tx>, points: seq<nat>, i: nat, x: nat)
    requires |before| == |after| && x <= |points|
    requires forall j :: 0 <= j < |before| && j in points ==>
                           after[j].job == before[j].job && (after[j].phase == Done(true) <==> before[j].phase == Done(true))
    ensures Place(after, points + [i], x) == Place(before, points, x)
    ensures Committed(after, (points + [i])[..|points|]) == Committed(before, points)
  {
    assert (points + [i])[..x] == points[..x] && (points + [i])[..|points|] == points;
    assert forall j :: j in points[..x] ==> j in points;
    CommittedStays(before, after, points);
    CommittedStays(before, after, points[..x]);
  }

  lemma BatchInPlace(initial: Table, s: State, i: nat, points: seq<nat>, x: nat)
    requires LocksAgree(s) && PointsInv(initial, s, points) && x < |points|
    requires Enabled(s, Commit(i)) && s.txs[i].job.Batch? && s.txs[i].phase.plan == ItemNights(s.txs[i].job.items)
    ensures InPlace(initial, Step(s, Commit(i)).txs, points + [i], x)
  {
    var after, j, job := Step(s, Commit(i)).txs, points[x], s.txs[i].job;
    assert j in points && i !in points;
    PlaceStays(s.txs, after, points, i, x);
    assert InPlace(initial, s.txs, points, x);
    if IsPending(after[j]) {
      HoldsAreDisjoint(s, i, j, s.txs[i].phase.plan);
      AppendedAvoids(initial, Committed(s.txs, points), job, Place(s.txs, points, x), s.txs[j]);
    }
  }

  lemma BatchAppends(s: State, i: nat, points: seq<nat>)
    requires PointsAre(s.txs, points) && Enabled(s, Commit(i)) && s.txs[i].job.Batch?
    ensures i !in points
    ensures Committed(Step(s, Commit(i)).txs, points + [i]) == Committed(s.txs, points) + [s.txs[i].job]
  {
    NobodyCommits(s, Commit(i), points);
    PlaceStays(s.txs, Step(s, Commit(i)).txs, points, i, |points|);
  }

  lemma BatchReplays(initial: Table, s: State, i: nat, points: seq<nat>)
    requires TxsInv(s) && PointsInv(initial, s, points) && Enabled(s, Commit(i)) && s.txs[i].job.Batch?
    ensures Replay(initial, Committed(Step(s, Commit(i)).txs, points + [i])) == Some(Step(s, Commit(i)).table)
  {
    var order, tx := Committed(s.txs, points), s.txs[i];
    BatchAppends(s, i, points);
    assert TxInv(s.table, tx);
    BatchApplies(s.table, tx);
    assert Written(s.table, tx.job, tx.phase.plan) == UpsertAll(s.table, tx.job.items).value;
    ReplaySnoc(initial, order, tx.job);
  }

  lemma BatchStep(initial: Table, s: State, i: nat, points: seq<nat>)
    requires LocksAgree(s) && TxsInv(s) && PointsInv(initial, s, points)
    requires Enabled(s, Commit(i)) && s.txs[i].job.Batch?
    ensures PointsInv(initial, Step(s, Commit(i)), points + [i])
  {
    var s', longer := Step(s, Commit(i)), points + [i];
    PointStep(s, Commit(i), points);
    BatchReplays(initial, s, i, points);
    assert TxInv(s.table, s.txs[i]);
    forall x | 0 <= x < |longer| ensures InPlace(initial, s'.txs, longer, x) {
      if x < |points| { BatchInPlace(initial, s, i, points, x); }
    }
  }

  lemma PlaceAfter(before: seq<Tx>, after: seq<Tx>, points: seq<nat>, x: nat, y: nat)
    requires x < |points| && y < |points| && x != y && DistinctPoints(points) && points[x] < |before|
    requires before[points[x]].phase != Done(true) && after == before[points[x] := before[points[x]].(phase := Done(true))]
    ensures if y < x then Place(after, points, y) == Place(before, points, y) <= Place(before, points, x)
            else Place(after, points, y) == Place(before, points, y) + 1 && Place(before, points, x) <= Place(before, points, y)
  {
    if y < x {
      CommittedStays(before, after, points[..y]);
      PlacesAscend(before, points[..x], y);
      assert points[..x][..y] == points[..y];
    } else {
      CommittedSplices(before, after, points[..y], x);
      assert points[..y][..x] == points[..x];
    }
  }

  // The point at y is pending, another at x commits.
  predicate Commits(initial: Table, before: seq<Tx>, after: seq<Tx>, points: seq<nat>, x: nat, y: nat) {
    && x < |points| && y < |points| && x != y && DistinctPoints(points)
    && points[x] < |before| && points[y] < |before| && IsPending(before[points[x]]) && IsPending(before[points[y]])
    && after == before[points[x] := before[points[x]].(phase := Done(true))]
    && Replay(initial, Committed(before, points)).Some?
    && InPlace(initial, before, points, x) && InPlace(initial, before, points, y)
    && forall k :: k in before[points[y]].phase.plan ==> k !in before[points[x]].phase.plan
  }

  lemma InPlaceFrom(initial: Table, txs: seq<Tx>, points: seq<nat>, y: nat, order: seq<Job>, pos: nat, tx: Tx)
    requires y < |points| && points[y] < |txs| && txs[points[y]] == tx && IsPending(tx)
    requires Committed(txs, points) == order && Place(txs, points, y) == pos && Pending(initial, order, pos, tx)
    ensures InPlace(initial, txs, points, y)
  {
  }

  lemma EarlierInPlace(initial: Table, before: seq<Tx>, after: seq<Tx>, points: seq<nat>, x: nat, y: nat)
    requires Commits(initial, before, after, points, x, y) && y < x
    ensures InPlace(initial, after, points, y)
  {
    var order, p, pos := Committed(before, points), Place(before, points, x), Place(before, points, y);
    var b, tx := before[points[x]], before[points[y]];
    CommittedSplices(before, after, points, x);
    PlaceAfter(before, after, points, x, y);
    EarlierSurvives(initial, order, p, b, pos, tx);
    InPlaceFrom(initial, after, points, y, Spliced(order, p, b.job), pos, tx);
  }

  lemma LaterInPlace(initial: Table, before: seq<Tx>, after: seq<Tx>, points: seq<nat>, x: nat, y: nat)
    requires Commits(initial, before, after, points, x, y) && x < y
    ensures InPlace(initial, after, points, y)
  {
    var order, p, pos := Committed(before, points), Place(before, points, x), Place(before, points, y);
    var b, tx := before[points[x]], before[points[y]];
    CommittedSplices(before, after, points, x);
    PlaceAfter(before, after, points, x, y);
    LaterSurvives(initial, order, p, b, pos, tx);
    InPlaceFrom(initial, after, points, y, Spliced(order, p, b.job), pos + 1, tx);
  }

  lemma BookingInPlace(initial: Table, s: State, i: nat, points: seq<nat>, x: nat, y: nat)
    requires LocksAgree(s) && PointsInv(initial, s, points) && Enabled(s, Commit(i)) && s.txs[i].job.Booking?
    requires x < |points| && points[x] == i && y < |points|
    ensures InPlace(initial, Step(s, Commit(i)).txs, points, y)
  {
    var after, j := Step(s, Commit(i)).txs, points[y];
    assert InPlace(initial, s.txs, points, x) && InPlace(initial, s.txs, points, y);
    if IsPending(after[j]) {
      HoldsAreDisjoint(s, i, j, s.txs[i].phase.plan);
      if y < x {
        EarlierInPlace(initial, s.txs, after, points, x, y);
      } else {
        LaterInPlace(initial, s.txs, after, points, x, y);
      }
    }
  }

  lemma BookingReplays(initial: Table, s: State, i: nat, points: seq<nat>, x: nat)
    requires PointsInv(initial, s, points) && Enabled(s, Commit(i)) && s.txs[i].job.Booking?
    requires x < |points| && points[x] == i
    ensures Replay(initial, Committed(Step(s, Commit(i)).txs, points)) == Some(Step(s, Commit(i)).table)
  {
    var s' := Step(s, Commit(i));
    assert InPlace(initial, s.txs, points, x);
    CommittedSplices(s.txs, s'.txs, points, x);
    SpliceReplays(initial, Committed(s.txs, points), Place(s.txs, points, x), s.txs[i].job.stay, s.txs[i].phase.plan);
    assert s'.table == Raise(s.table, s.txs[i].phase.plan);
  }

  lemma BookingStep(initial: Table, s: State, i: nat, points: seq<nat>)
    requires LocksAgree(s) && PointsInv(initial, s, points) && Enabled(s, Commit(i)) && s.txs[i].job.Booking?
    ensures PointsInv(initial, Step(s, Commit(i)), points)
  {
    assert i in points;
    var x :| 0 <= x < |points| && points[x] == i;
    PointStep(s, Commit(i), points);
    BookingReplays(initial, s, i, points, x);
    forall y | 0 <= y < |points| ensures InPlace(initial, Step(s, Commit(i)).txs, points, y) {
      BookingInPlace(initial, s, i, points, x, y);
    }
  }

  lemma EffectStep(initial: Table, s: State, a: Action, points: seq<nat>)
    requires LocksAgree(s) && TxsInv(s) && PointsInv(initial, s, points) && Enabled(s, a)
    ensures PointsInv(initial, Step(s, a), NextPoints(s, a, points))
  {
    if a.Commit? {
      if s.txs[a.i].job.Batch? { BatchStep(initial, s, a.i, points); } else { BookingStep(initial, s, a.i, points); }
    } else if TakesEffect(s, a) {
      UpdateStep(initial, s, a, points);
    } else {
      QuietStep(initial, s, a, points);
    }
  }

  lemma SplicedHas(order: seq<Job>, pos: nat, job: Job)
    requires pos <= |order|
    ensures multiset(Spliced(order, pos, job)) == multiset(order) + multiset{job}
  {
    assert order == order[..pos] + order[pos..];
  }

  lemma BookingAdds(s: State, i: nat, points: seq<nat>)
    requires PointsAre(s.txs, points) && Enabled(s, Commit(i)) && s.txs[i].job.Booking?
    ensures multiset(Committed(Step(s, Commit(i)).txs, points)) == multiset(Committed(s.txs, points)) + multiset{s.txs[i].job}
  {
    assert i in points;
    var x :| 0 <= x < |points| && points[x] == i;
    CommittedSplices(s.txs, Step(s, Commit(i)).txs, points, x);
    SplicedHas(Committed(s.txs, points), Place(s.txs, points, x), s.txs[i].job);
  }

  lemma NobodyAdds(s: State, a: Action, points: seq<nat>)
    requires PointsAre(s.txs, points) && Enabled(s, a) && !a.Commit?
    ensures Committed(Step(s, a).txs, NextPoints(s, a, points)) == Committed(s.txs, points)
  {
    NobodyCommits(s, a, points);
    CommittedStays(s.txs, Step(s, a).txs, points);
    assert (points + [a.i])[..|points|] == points;
  }

  lemma BatchAdds(s: State, i: nat, points: seq<nat>)
    requires PointsAre(s.txs, points) && Enabled(s, Commit(i)) && s.txs[i].job.Batch?
    ensures multiset(Committed(Step(s, Commit(i)).txs, points + [i])) == multiset(Committed(s.txs, points)) + multiset{s.txs[i].job}
  {
    BatchAppends(s, i, points);
  }

  lemma CommitAdds(s: State, i: nat)
    requires Enabled(s, Commit(i))
    ensures multiset(Step(s, Commit(i)).history) == multiset(s.history) + multiset{s.txs[i].job}
  {
  }

  lemma NobodyAddsHistory(s: State, a: Action)
    requires Enabled(s, a) && !a.Commit?
    ensures Step(s, a).history == s.history
  {
  }

  lemma CommitAddsBoth(s: State, i: nat, points: seq<nat>)
    requires PointsAre(s.txs, points) && Enabled(s, Commit(i))
    requires multiset(Committed(s.txs, points)) == multiset(s.history)
    ensures multiset(Committed(Step(s, Commit(i)).txs, NextPoints(s, Commit(i), points))) == multiset(Step(s, Commit(i)).history)
  {
    CommitAdds(s, i);
    if s.txs[i].job.Booking? { BookingAdds(s, i, points); } else { BatchAdds(s, i, points); }
  }

  lemma HistoryStep(s: State, a: Action, points: seq<nat>)
    requires PointsAre(s.txs, points) && Enabled(s, a)
    requires multiset(Committed(s.txs, points)) == multiset(s.history)
    ensures multiset(Committed(Step(s, a).txs, NextPoints(s, a, points))) == multiset(Step(s, a).history)
  {
    if a.Commit? {
      CommitAddsBoth(s, a.i, points);
    } else {
      NobodyAdds(s, a, points);
      NobodyAddsHistory(s, a);
    }
  }

  // ---- the theorems ----

  // In every reachable state of any number of bookings, of any stays, and of batches in date order, the
  // table is the serial execution of the committed ones in the order in which they took effect, each
  // committed transaction once.
  lemma {:induction false} AllBookingsAreSerialisable(table: Table, jobs: seq<Job>, actions: seq<Action>)
    requires IsRun(Init(table, jobs), actions) && forall job :: job in jobs ==> Ordered(job)
    ensures var s, points := RunState(Init(table, jobs), actions), Points(Init(table, jobs), actions);
            && Replay(table, Committed(s.txs, points)) == Some(s.table)
            && multiset(Committed(s.txs, points)) == multiset(s.history)
            && PointsInv(table, s, points)
  {
    if actions != [] {
      var n := |actions| - 1;
      RunsKeepTxs(table, jobs, actions[..n]);
      AllBookingsAreSerialisable(table, jobs, actions[..n]);
      var mid, points := RunState(Init(table, jobs), actions[..n]), Points(Init(table, jobs), actions[..n]);
      EffectStep(table, mid, actions[n], points);
      HistoryStep(mid, actions[n], points);
    }
  }

  lemma {:induction false} PointsGrow(s: State, actions: seq<Action>, m: nat)
    requires IsRun(s, actions) && m <= |actions|
    ensures IsRun(s, actions[..m]) && Points(s, actions[..m]) <= Points(s, actions)
    decreases |actions|
  {
    var n := |actions| - 1;
    if m <= n {
      PointsGrow(s, actions[..n], m);
      assert actions[..n][..m] == actions[..m];
    } else {
      assert actions[..m] == actions;
    }
  }

  lemma PrefixOrder(early: seq<nat>, late: seq<nat>, i: nat, j: nat) returns (x: nat, y: nat)
    requires early <= late && i in early && j !in early && j in late
    ensures x < y < |late| && late[x] == i && late[y] == j
  {
    x :| 0 <= x < |early| && early[x] == i;
    y :| 0 <= y < |late| && late[y] == j;
    assert early == late[..|early|];
    assert |early| <= y;
  }

  lemma PointsOfRun(table: Table, jobs: seq<Job>, actions: seq<Action>, i: nat)
    requires IsRun(Init(table, jobs), actions) && forall job :: job in jobs ==> Ordered(job)
    requires i < |RunState(Init(table, jobs), actions).txs|
    ensures var phase := RunState(Init(table, jobs), actions).txs[i].phase;
            && (phase == Done(true) ==> i in Points(Init(table, jobs), actions))
            && (phase.Idle? ==> i !in Points(Init(table, jobs), actions))
  {
    AllBookingsAreSerialisable(table, jobs, actions);
  }

  // The order respects real time: a transaction that had committed before another began comes first.
  lemma OrderRespectsRealTime(table: Table, jobs: seq<Job>, actions: seq<Action>, m: nat, i: nat, j: nat)
    returns (x: nat, y: nat)
    requires IsRun(Init(table, jobs), actions) && forall job :: job in jobs ==> Ordered(job)
    requires m <= |actions| && IsRun(Init(table, jobs), actions[..m])
    requires var mid, end := RunState(Init(table, jobs), actions[..m]), RunState(Init(table, jobs), actions);
             && i < |mid.txs| && mid.txs[i].phase == Done(true) && j < |mid.txs| && mid.txs[j].phase.Idle?
             && j < |end.txs| && end.txs[j].phase == Done(true)
    ensures var points := Points(Init(table, jobs), actions);
            x < y < |points| && points[x] == i && points[y] == j
  {
    PointsGrow(Init(table, jobs), actions, m);
    PointsOfRun(table, jobs, actions[..m], i);
    PointsOfRun(table, jobs, actions[..m], j);
    PointsOfRun(table, jobs, actions, j);
    x, y := PrefixOrder(Points(Init(table, jobs), actions[..m]), Points(Init(table, jobs), actions), i, j);
  }

  // So no night is ever overbooked, whatever is booked at the same time.
  lemma BoundsAlwaysHold(table: Table, jobs: seq<Job>, actions: seq<Action>)
    requires IsRun(Init(table, jobs), actions) && forall job :: job in jobs ==> Ordered(job)
    requires Bounded(table)
    ensures Bounded(RunState(Init(table, jobs), actions).table)
  {
    AllBookingsAreSerialisable(table, jobs, actions);
    var s := RunState(Init(table, jobs), actions);
    ReplayKeepsBounds(table, Committed(s.txs, Points(Init(table, jobs), actions)));
  }
}

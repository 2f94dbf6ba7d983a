// inventory_repo.go: the daily_allocations table and the operations on it, one at a time.
module Allocations {
  import opened Prelude
  import opened StayNights

  datatype Slot = Slot(totalUnits: int, allocatedCount: int, blockedCount: int, rateMinor: int)

  // Keyed by (property_id, room_type_id, stay_date), which the schema makes unique.
  type Table = map<Night, Slot>

  datatype DailyAllocation = DailyAllocation(night: Night, slot: Slot)

  // chk_inventory_bounds
  predicate InBounds(r: Slot) { r.allocatedCount >= 0 && r.blockedCount >= 0 && r.allocatedCount + r.blockedCount <= r.totalUnits }

  ghost predicate Bounded(table: Table) { forall k :: k in table ==> InBounds(table[k]) }

  predicate HasRoom(r: Slot) { r.allocatedCount + r.blockedCount + 1 <= r.totalUnits }

  function Available(r: Slot): int { r.totalUnits - r.allocatedCount - r.blockedCount }

  datatype Stay = Stay(propertyId: nat, roomTypeId: nat, checkIn: int, checkOut: int)
  {
    predicate Valid() { checkIn < checkOut }

    function Nights(): seq<Night> { RangeNights(propertyId, roomTypeId, Day(checkIn), Day(checkOut)) }

    // The nights of the SQL range.
    predicate Covers(k: Night) {
      k.propertyId == propertyId && k.roomTypeId == roomTypeId && Day(checkIn) <= k.day < Day(checkOut)
    }

    // The number of nights counted from the hours between; used only when the stay is valid.
    function Expected(): int { if Valid() then ElapsedNights(checkIn, checkOut) else 0 }

    // The nights counted are the nights of the range (StayNights.SqlCountIff).
    predicate CountsItsNights() { Valid() && Expected() == Day(checkOut) - Day(checkIn) }

    predicate WholeDays() {
      Valid() && (checkOut - checkIn) % DAY == 0 && (checkOut - checkIn) / DAY <= MAX_DURATION_DAYS
    }
  }

  function RangeNights(propertyId: nat, roomTypeId: nat, from: int, until: int): seq<Night>
    decreases until - from
  {
    if from < until then RangeNights(propertyId, roomTypeId, from, until - 1) + [Night(propertyId, roomTypeId, until - 1)] else []
  }

  function Present(table: Table, nights: seq<Night>): seq<Night> {
    if nights == [] then []
    else
      var n := |nights| - 1;
      Present(table, nights[..n]) + if nights[n] in table then [nights[n]] else []
  }

  // The keys of the rows the range query returns, ORDER BY stay_date ASC.
  function Rows(table: Table, stay: Stay): seq<Night> { Present(table, stay.Nights()) }

  predicate AllHaveRoom(table: Table, keys: seq<Night>) {
    forall k :: k in keys ==> k in table && HasRoom(table[k])
  }

  // The range UPDATE: it touches whatever rows lie in the range.
  function Increment(table: Table, stay: Stay): Table {
    map k | k in table :: if stay.Covers(k) then table[k].(allocatedCount := table[k].allocatedCount + 1) else table[k]
  }

  // CommitAllocation with nothing running beside it: the table it commits, or its error.
  function CommitSpec(table: Table, stay: Stay): Result<Table> {
    if !stay.Valid() then Err(InvalidDateRange)
    else
      var keys := Rows(table, stay);
      if !AllHaveRoom(table, keys) || |keys| < stay.Expected() then Err(InventoryUnavailable)
      else if |keys| != stay.Expected() then Err(UnexpectedRowsAffected(stay.Expected(), |keys|))
      else Ok(Increment(table, stay))
  }

  lemma {:induction false} RangeNightsAre(propertyId: nat, roomTypeId: nat, from: int, until: int)
    ensures var nights := RangeNights(propertyId, roomTypeId, from, until);
            && |nights| == Max(0, until - from)
            && (forall i :: 0 <= i < |nights| ==> nights[i] == Night(propertyId, roomTypeId, from + i))
    decreases until - from
  {
    if from < until { RangeNightsAre(propertyId, roomTypeId, from, until - 1); }
  }

  lemma CoversIff(stay: Stay, k: Night)
    ensures k in stay.Nights() <==> stay.Covers(k)
  {
    RangeNightsAre(stay.propertyId, stay.roomTypeId, Day(stay.checkIn), Day(stay.checkOut));
    if stay.Covers(k) { assert stay.Nights()[k.day - Day(stay.checkIn)] == k; }
  }

  lemma {:induction false} PresentAre(table: Table, nights: seq<Night>)
    ensures forall k :: k in Present(table, nights) <==> k in nights && k in table
    ensures |Present(table, nights)| <= |nights|
    ensures |Present(table, nights)| == |nights| <==> forall k :: k in nights ==> k in table
  {
    if nights != [] {
      var n := |nights| - 1;
      PresentAre(table, nights[..n]);
      assert nights == nights[..n] + [nights[n]];
      assert nights[n] in nights;
    }
  }

  lemma {:induction false} PresentDependsOnKeys(a: Table, b: Table, nights: seq<Night>)
    requires a.Keys == b.Keys
    ensures Present(a, nights) == Present(b, nights)
  {
    if nights != [] { PresentDependsOnKeys(a, b, nights[..|nights| - 1]); }
  }

  // Dates without a clock time, as the search takes them, and all stays of whole days.
  lemma WholeDaysCountNights(stay: Stay)
    requires stay.WholeDays()
    ensures stay.CountsItsNights()
  {
    SqlCountIff(stay.checkIn, stay.checkOut);
    EnumerationsAgreeIff(stay.checkIn, stay.checkOut);
  }

  // The rows a range returns: exactly the covered ones, and all nights are there exactly when
  // there are as many rows as nights.
  lemma RowsAre(table: Table, stay: Stay)
    ensures forall k :: k in Rows(table, stay) <==> stay.Covers(k) && k in table
    ensures |Rows(table, stay)| <= Max(0, Day(stay.checkOut) - Day(stay.checkIn))
    ensures |Rows(table, stay)| == Max(0, Day(stay.checkOut) - Day(stay.checkIn))
            <==> forall k :: stay.Covers(k) ==> k in table
  {
    PresentAre(table, stay.Nights());
    RangeNightsAre(stay.propertyId, stay.roomTypeId, Day(stay.checkIn), Day(stay.checkOut));
    forall k ensures k in stay.Nights() <==> stay.Covers(k) { CoversIff(stay, k); }
  }

  // Strictly ascending dates of one room type.
  predicate Ascending(nights: seq<Night>) {
    forall i, j :: 0 <= i < j < |nights| ==>
                     && nights[i].propertyId == nights[j].propertyId && nights[i].roomTypeId == nights[j].roomTypeId
                     && nights[i].day < nights[j].day
  }

  lemma {:induction false} PresentAscends(table: Table, nights: seq<Night>)
    requires Ascending(nights)
    ensures Ascending(Present(table, nights))
  {
    if nights != [] {
      var n := |nights| - 1;
      PresentAscends(table, nights[..n]);
      PresentAre(table, nights[..n]);
      var p := Present(table, nights[..n]);
      forall i | 0 <= i < |p|
        ensures p[i].propertyId == nights[n].propertyId && p[i].roomTypeId == nights[n].roomTypeId && p[i].day < nights[n].day {
        assert p[i] in nights[..n];
      }
    }
  }

  lemma RowsAscend(table: Table, stay: Stay)
    ensures Ascending(Rows(table, stay))
  {
    RangeNightsAre(stay.propertyId, stay.roomTypeId, Day(stay.checkIn), Day(stay.checkOut));
    PresentAscends(table, stay.Nights());
  }

  // A commit raises each covered night by one, has room for it, and changes nothing else; the
  // bounds survive it.
  lemma CommitEffect(table: Table, stay: Stay)
    requires CommitSpec(table, stay).Ok?
    ensures var after := CommitSpec(table, stay).value;
            && after.Keys == table.Keys
            && (forall k :: k in table && !stay.Covers(k) ==> after[k] == table[k])
            && (forall k :: k in table && stay.Covers(k) ==>
                  HasRoom(table[k]) && after[k] == table[k].(allocatedCount := table[k].allocatedCount + 1))
            && (Bounded(table) ==> Bounded(after))
  {
    RowsAre(table, stay);
  }

  // When the nights counted are the nights of the range, a commit succeeds exactly when every night
  // exists with room.
  lemma CommitOkIff(table: Table, stay: Stay)
    requires stay.CountsItsNights()
    ensures CommitSpec(table, stay).Ok? <==> forall k :: stay.Covers(k) ==> k in table && HasRoom(table[k])
    ensures CommitSpec(table, stay).Ok? <==>
              forall d :: stay.checkIn / 86400 <= d < stay.checkOut / 86400 ==>
                            var k := Night(stay.propertyId, stay.roomTypeId, d);
                            k in table && table[k].allocatedCount + table[k].blockedCount < table[k].totalUnits
    ensures CommitSpec(table, stay).Err? ==> CommitSpec(table, stay).error == InventoryUnavailable
  {
    RowsAre(table, stay);
    if forall d :: Day(stay.checkIn) <= d < Day(stay.checkOut) ==>
                     var k := Night(stay.propertyId, stay.roomTypeId, d); k in table && HasRoom(table[k]) {
      forall k | stay.Covers(k) ensures k in table && HasRoom(table[k]) {
        assert k == Night(stay.propertyId, stay.roomTypeId, k.day);
      }
    }
  }

  // When they are not, because the check-out clock time is before the check-in one, a commit on a
  // fully stocked range always fails, and any commit that succeeds has missed a night.
  lemma MiscountedCommit(table: Table, stay: Stay)
    requires stay.Valid() && !stay.CountsItsNights()
    ensures (forall k :: stay.Covers(k) ==> k in table && HasRoom(table[k])) ==>
              CommitSpec(table, stay) == Err(UnexpectedRowsAffected(stay.Expected(), Day(stay.checkOut) - Day(stay.checkIn)))
    ensures CommitSpec(table, stay).Ok? ==> exists k :: stay.Covers(k) && k !in table
  {
    RowsAre(table, stay);
    SqlCountIff(stay.checkIn, stay.checkOut);
  }

  // Such a commit exists: three nights from 14:00 to 11:00, the middle one missing.
  lemma MiscountedCommitExample()
    ensures var stay := Stay(0, 0, 14 * 3600, 3 * DAY + 11 * 3600);
            var table := map[Night(0, 0, 0) := Slot(1, 0, 0, 0), Night(0, 0, 2) := Slot(1, 0, 0, 0)];
            stay.Covers(Night(0, 0, 1)) && Night(0, 0, 1) !in table && CommitSpec(table, stay).Ok?
  {
    var stay := Stay(0, 0, 14 * 3600, 3 * DAY + 11 * 3600);
    var table := map[Night(0, 0, 0) := Slot(1, 0, 0, 0), Night(0, 0, 2) := Slot(1, 0, 0, 0)];
    assert Day(stay.checkIn) == 0 && Day(stay.checkOut) == 3 && stay.Expected() == 2;
    assert RangeNights(0, 0, 0, 0) == [];
    assert RangeNights(0, 0, 0, 1) == [Night(0, 0, 0)];
    assert RangeNights(0, 0, 0, 2) == [Night(0, 0, 0), Night(0, 0, 1)];
    assert stay.Nights() == [Night(0, 0, 0), Night(0, 0, 1), Night(0, 0, 2)];
    assert stay.Nights()[..2] == [Night(0, 0, 0), Night(0, 0, 1)];
    assert stay.Nights()[..2][..1] == [Night(0, 0, 0)];
    assert Present(table, [Night(0, 0, 0)]) == [Night(0, 0, 0)];
    assert Present(table, stay.Nights()[..2]) == [Night(0, 0, 0)];
    assert Rows(table, stay) == [Night(0, 0, 0), Night(0, 0, 2)];
  }

  // ---- upserts ----

  // INSERT ... ON CONFLICT DO UPDATE SET total_units, rate_minor WHERE allocated_count = 0. None is
  // a violation of chk_inventory_bounds, by the proposed row or by the updated one.
  function Upsert(table: Table, a: DailyAllocation): Option<Table> {
    if !InBounds(a.slot) then None
    else if a.night !in table then Some(table[a.night := a.slot])
    else if table[a.night].allocatedCount != 0 then Some(table)
    else
      var row := table[a.night].(totalUnits := a.slot.totalUnits, rateMinor := a.slot.rateMinor);
      if InBounds(row) then Some(table[a.night := row]) else None
  }

  // In terms of the columns: an upsert succeeds unless its own counts, or those of the row it would update,
  // exceed the units; it inserts its counts where no row is, updates units and rate where nothing is
  // allocated, and leaves all else alone.
  lemma UpsertIs(table: Table, a: DailyAllocation)
    ensures var k, proposed, res := a.night, a.slot, Upsert(table, a);
            && (res.Some? <==>
                  && proposed.allocatedCount >= 0 && proposed.blockedCount >= 0
                  && proposed.allocatedCount + proposed.blockedCount <= proposed.totalUnits
                  && (k in table && table[k].allocatedCount == 0 ==> 0 <= table[k].blockedCount <= proposed.totalUnits))
            && (res.Some? ==>
                  && res.value.Keys == table.Keys + {k}
                  && (forall other :: other in table && other != k ==> res.value[other] == table[other])
                  && res.value[k] ==
                     if k !in table then proposed
                     else if table[k].allocatedCount != 0 then table[k]
                     else Slot(proposed.totalUnits, 0, table[k].blockedCount, proposed.rateMinor))
  {
  }

  function UpsertAll(table: Table, batch: seq<DailyAllocation>): Option<Table> {
    if batch == [] then Some(table)
    else
      var before := UpsertAll(table, batch[..|batch| - 1]);
      if before == None then None else Upsert(before.value, batch[|batch| - 1])
  }

  // The table a batch transaction leaves behind: every item upserted, or nothing changed, by its fate.
  function AfterBatch(table: Table, batch: seq<DailyAllocation>, delivery: Delivery): Table {
    match UpsertAll(table, batch)
    case Some(after) => if delivery == NotRun then table else after
    case None => table
  }

  lemma {:induction false} UpsertConcat(table: Table, a: seq<DailyAllocation>, b: seq<DailyAllocation>)
    ensures UpsertAll(table, a + b) ==
            match UpsertAll(table, a) case None => None case Some(mid) => UpsertAll(mid, b)
  {
    if b == [] {
      assert a + b == a;
    } else {
      UpsertConcat(table, a, b[..|b| - 1]);
      assert (a + b)[..|a + b| - 1] == a + b[..|b| - 1];
    }
  }

  // `after` comes from `before` by upserting the nights `named`: no row is removed, none with
  // allocations is touched, what is allocated or blocked never changes, the bounds are kept, and
  // exactly the named nights are added.
  ghost predicate Protects(before: Table, after: Table, named: set<Night>) {
    && after.Keys == before.Keys + named
    && (forall k :: k in before ==> after[k].allocatedCount == before[k].allocatedCount
                                    && after[k].blockedCount == before[k].blockedCount)
    && (forall k :: k in before && before[k].allocatedCount != 0 ==> after[k] == before[k])
    && (Bounded(before) ==> Bounded(after))
  }

  function NightsIn(batch: seq<DailyAllocation>): set<Night> { set a | a in batch :: a.night }

  lemma {:induction false} UpsertsProtectAllocations(table: Table, batch: seq<DailyAllocation>)
    requires UpsertAll(table, batch).Some?
    ensures Protects(table, UpsertAll(table, batch).value, NightsIn(batch))
  {
    if batch != [] {
      var n := |batch| - 1;
      UpsertsProtectAllocations(table, batch[..n]);
      assert batch == batch[..n] + [batch[n]];
      assert NightsIn(batch) == NightsIn(batch[..n]) + {batch[n].night};
      ProtectsSnoc(table, UpsertAll(table, batch[..n]).value, batch[n], NightsIn(batch[..n]));
    }
  }

  lemma ProtectsSnoc(table: Table, mid: Table, a: DailyAllocation, named: set<Night>)
    requires Protects(table, mid, named) && Upsert(mid, a).Some?
    ensures Protects(table, Upsert(mid, a).value, named + {a.night})
  {
  }

  class InventoryRepository {
    var table: Table

    constructor (table: Table)
      ensures this.table == table
    {
      this.table := table;
    }

    method GetDailyAllocations(stay: Stay) returns (results: seq<DailyAllocation>)
      ensures |results| == |Rows(table, stay)|
      ensures forall i :: 0 <= i < |results| ==>
                            && results[i].night == Rows(table, stay)[i] && results[i].night in table
                            && results[i].slot == table[results[i].night]
      // Every row of the range, in date order.
      ensures forall a :: a in results ==>
                            && a.night.propertyId == stay.propertyId && a.night.roomTypeId == stay.roomTypeId
                            && stay.checkIn / 86400 <= a.night.day < stay.checkOut / 86400
                            && a.night in table && a.slot == table[a.night]
      ensures forall d :: stay.checkIn / 86400 <= d < stay.checkOut / 86400 ==>
                            var k := Night(stay.propertyId, stay.roomTypeId, d);
                            k in table ==> DailyAllocation(k, table[k]) in results
      ensures forall i, j :: 0 <= i < j < |results| ==> results[i].night.day < results[j].night.day
    {
      var rows := Rows(table, stay);
      RowsAre(table, stay);
      results := [];
      for i := 0 to |rows|
        invariant |results| == i
        invariant forall j :: 0 <= j < i ==> rows[j] in table && results[j] == DailyAllocation(rows[j], table[rows[j]])
      {
        assert rows[i] in rows;
        results := results + [DailyAllocation(rows[i], table[rows[i]])];
      }
      RowsAscend(table, stay);
      forall k | k in rows ensures DailyAllocation(k, table[k]) in results {
        var i :| 0 <= i < |rows| && rows[i] == k;
        assert results[i] == DailyAllocation(k, table[k]);
      }
      forall a | a in results ensures a.night in rows && a.slot == table[a.night] {
        var i :| 0 <= i < |results| && results[i] == a;
        assert rows[i] in rows;
      }
    }

    // The read-only check; it succeeds whenever a commit would, and only a miscount separates them
    // (CommitOkIff).
    method AcquireHold(stay: Stay, ttl: int, clock: int, token: string) returns (res: Result<(string, int)>)
      ensures stay.checkOut <= stay.checkIn ==> res == Err(InvalidDateRange)
      ensures stay.checkIn < stay.checkOut ==>
                (res == Ok((token, clock + ttl)) <==>
                   CommitSpec(table, stay).Ok? || CommitSpec(table, stay).error.UnexpectedRowsAffected?)
      ensures stay.checkIn < stay.checkOut && res.Err? ==> res.error == InventoryUnavailable
      ensures stay.CountsItsNights() ==> (res.Ok? <==> CommitSpec(table, stay).Ok?)
    {
      if !(stay.checkOut > stay.checkIn) {
        return Err(InvalidDateRange);
      }
      var allocs := GetDailyAllocations(stay);
      var expectedNights := stay.Expected();
      if stay.CountsItsNights() { CommitOkIff(table, stay); }
      if |allocs| < expectedNights {
        return Err(InventoryUnavailable);
      }
      for i := 0 to |allocs|
        invariant forall j :: 0 <= j < i ==> HasRoom(allocs[j].slot)
      {
        var a := allocs[i].slot;
        if a.allocatedCount + a.blockedCount + 1 > a.totalUnits {
          assert Rows(table, stay)[i] in Rows(table, stay);
          return Err(InventoryUnavailable);
        }
      }
      return Ok((token, clock + ttl));
    }

    // One transaction with nothing beside it; AllocationTransactions interleaves many. `working`: BEGIN
    // and the statements get through; `commit` is what becomes of the COMMIT. All or nothing is
    // written: all exactly when a commit is due and its COMMIT ran, also when no reply arrives and
    // the call reports a failure.
    method CommitAllocation(stay: Stay, working: bool, commit: Delivery) returns (res: Result<()>)
      modifies this
      ensures stay.checkOut <= stay.checkIn ==> res == Err(InvalidDateRange) && table == old(table)
      ensures stay.checkIn < stay.checkOut && !working ==> res == Err(Infrastructure) && table == old(table)
      ensures stay.checkIn < stay.checkOut && working ==>
                match CommitSpec(old(table), stay)
                case Ok(after) =>
                  && table == (if commit == NotRun then old(table) else after)
                  && res == (if commit == Replied then Ok(()) else Err(Infrastructure))
                case Err(e) => res == Err(e) && table == old(table)
    {
      if !(stay.checkOut > stay.checkIn) {
        return Err(InvalidDateRange);
      }
      if !working {
        return Err(Infrastructure);
      }
      var rows := Rows(table, stay);
      RowsAre(table, stay);
      var records: seq<DailyAllocation> := [];
      for i := 0 to |rows|
        invariant |records| == i && table == old(table)
        invariant forall j :: 0 <= j < i ==> rows[j] in table && HasRoom(table[rows[j]])
      {
        assert rows[i] in rows;
        var rec := DailyAllocation(rows[i], table[rows[i]]);
        if rec.slot.allocatedCount + rec.slot.blockedCount + 1 > rec.slot.totalUnits {
          return Err(InventoryUnavailable);
        }
        records := records + [rec];
      }
      var expectedNights := stay.Expected();
      if |records| < expectedNights {
        return Err(InventoryUnavailable);
      }
      var updated := Increment(table, stay);
      var rowsAffected := |Rows(table, stay)|;
      if rowsAffected != expectedNights {
        return Err(UnexpectedRowsAffected(expectedNights, rowsAffected));
      }
      if commit != NotRun {
        table := updated;
      }
      return if commit == Replied then Ok(()) else Err(Infrastructure);
    }

    // What becomes of the transaction: NotRun if a statement or the COMMIT does not get through,
    // ReplyLost if the COMMIT ran unacknowledged.
    method BatchUpsertDailyAllocations(allocations: seq<DailyAllocation>, delivery: Delivery) returns (res: Result<()>)
      modifies this
      ensures allocations == [] ==> res == Ok(()) && table == old(table)
      ensures allocations != [] ==>
                && (res.Ok? <==> delivery == Replied && UpsertAll(old(table), allocations).Some?)
                && table == match UpsertAll(old(table), allocations)
                            case Some(after) => (if delivery == NotRun then old(table) else after)
                            case None => old(table)
    {
      if |allocations| == 0 {
        return Ok(());
      }
      var tx := table;
      for i := 0 to |allocations|
        invariant UpsertAll(table, allocations[..i]) == Some(tx) && table == old(table)
      {
        assert allocations[..i + 1][..i] == allocations[..i];
        var next := Upsert(tx, allocations[i]);
        if next == None {
          UpsertConcat(table, allocations[..i + 1], allocations[i + 1..]);
          assert allocations[..i + 1] + allocations[i + 1..] == allocations;
          return Err(Infrastructure);
        }
        tx := next.value;
      }
      assert allocations[..|allocations|] == allocations;
      if delivery != NotRun {
        table := tx;
      }
      return if delivery == Replied then Ok(()) else Err(Infrastructure);
    }
  }
}

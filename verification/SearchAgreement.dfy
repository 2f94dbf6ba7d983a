// search_handler.go, the aggregate: what the search lists against what a commit would accept.
module SearchAgreement {
  import opened Prelude
  import opened StayNights
  import opened Allocations

  // MIN(total_units - allocated_count - blocked_count)
  function MinAvailable(table: Table, keys: seq<Night>): int
    requires keys != [] && forall k :: k in keys ==> k in table
  {
    var last := Available(table[keys[|keys| - 1]]);
    if |keys| == 1 then last else Min(MinAvailable(table, keys[..|keys| - 1]), last)
  }

  // min_available of the room type for the stay, when the query lists it: its group exists, HAVING
  // COUNT(stay_date) = nights AND MIN(...) > 0. Status and filters aside.
  function MinAvailableListed(table: Table, stay: Stay): Option<int> {
    var keys := Rows(table, stay);
    if keys == [] || (exists k :: k in keys && k !in table) then None
    else if |keys| == stay.Expected() && MinAvailable(table, keys) > 0 then Some(MinAvailable(table, keys))
    else None
  }

  // n successive commits of the same stay.
  function CommitTimes(table: Table, stay: Stay, n: nat): Option<Table> {
    if n == 0 then Some(table)
    else match CommitTimes(table, stay, n - 1)
         case None => None
         case Some(before) => match CommitSpec(before, stay) case Ok(after) => Some(after) case Err(_) => None
  }

  lemma {:induction false} MinAvailableIs(table: Table, keys: seq<Night>, n: int)
    requires keys != [] && forall k :: k in keys ==> k in table
    ensures n <= MinAvailable(table, keys) <==> forall k :: k in keys ==> n <= Available(table[k])
  {
    var m := |keys| - 1;
    assert keys == keys[..m] + [keys[m]];
    if m > 0 { MinAvailableIs(table, keys[..m], n); }
  }

  // The rows of the range are as many as the nights counted, and each has n units free.
  predicate Stocked(table: Table, stay: Stay, n: nat) {
    && |Rows(table, stay)| == stay.Expected()
    && forall k :: k in Rows(table, stay) ==> k in table && n <= Available(table[k])
  }

  // Exactly the stays with n units free every night can be committed n times over.
  lemma {:induction false} CommitTimesIff(table: Table, stay: Stay, n: nat)
    requires stay.Valid() && n > 0
    ensures CommitTimes(table, stay, n).Some? <==> Stocked(table, stay, n)
    ensures CommitTimes(table, stay, n).Some? ==> Raised(table, CommitTimes(table, stay, n).value, stay, n)
  {
    RowsAre(table, stay);
    if n == 1 {
      assert CommitTimes(table, stay, 0) == Some(table);
      if CommitSpec(table, stay).Ok? { CommitEffect(table, stay); }
    } else {
      CommitTimesIff(table, stay, n - 1);
      if CommitTimes(table, stay, n - 1).Some? {
        var before := CommitTimes(table, stay, n - 1).value;
        PresentDependsOnKeys(table, before, stay.Nights());
        if CommitSpec(before, stay).Ok? { CommitEffect(before, stay); }
      }
    }
  }

  // `after` has n more units allocated on every covered night.
  ghost predicate Raised(table: Table, after: Table, stay: Stay, n: nat) {
    && after.Keys == table.Keys
    && forall k :: k in table ==>
         after[k] == if stay.Covers(k) then table[k].(allocatedCount := table[k].allocatedCount + n) else table[k]
  }

  // Search agrees with commit, for every stay: a room type listed with min_available = m accepts
  // exactly m successive commits of the stay and rejects the next. An unlisted one accepts none,
  // unless no night is counted and none is in the table, when a commit touches nothing.
  lemma SearchAgreesWithCommit(table: Table, stay: Stay, n: nat)
    requires stay.Valid()
    ensures match MinAvailableListed(table, stay)
            case Some(m) => m > 0 && (CommitTimes(table, stay, n).Some? <==> n <= m)
            case None => n > 0 ==> (CommitTimes(table, stay, n).Some? <==> Rows(table, stay) == [] && stay.Expected() == 0)
  {
    var keys := Rows(table, stay);
    RowsAre(table, stay);
    if n > 0 {
      CommitTimesIff(table, stay, n);
      if keys != [] {
        MinAvailableIs(table, keys, n);
        MinAvailableIs(table, keys, 1);
      }
    }
  }

  // What the search lists, in terms of the columns: the room types whose rows in the range are as many as
  // the nights counted, at least one, and all have a unit free; with the smallest number free.
  lemma ListedIs(table: Table, stay: Stay)
    requires stay.Valid()
    ensures var rows, listed := Rows(table, stay), MinAvailableListed(table, stay);
            && (listed.Some? <==> rows != [] && |rows| == ElapsedNights(stay.checkIn, stay.checkOut)
                                  && forall k :: k in rows ==>
                                       k in table && table[k].allocatedCount + table[k].blockedCount < table[k].totalUnits)
            && (listed.Some? ==>
                  && (forall k :: k in rows && k in table ==>
                        listed.value <= table[k].totalUnits - table[k].allocatedCount - table[k].blockedCount)
                  && (exists k :: k in rows && k in table
                        && listed.value == table[k].totalUnits - table[k].allocatedCount - table[k].blockedCount))
  {
    var rows := Rows(table, stay);
    RowsAre(table, stay);
    if rows != [] {
      MinAvailableIs(table, rows, 1);
      MinAvailableIs(table, rows, MinAvailable(table, rows));
      MinAvailableIs(table, rows, MinAvailable(table, rows) + 1);
    }
  }
}

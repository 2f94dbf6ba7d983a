// The three ways the code enumerates the nights of a stay. Instants are integer seconds in UTC.
module StayNights {
  import opened Prelude

  const DAY := 86400

  // A time.Duration is an int64 count of nanoseconds and Time.Sub saturates, so no difference
  // is ever longer than this many whole days.
  const MAX_DURATION_DAYS := 106751

  // One night of one room type: the row key of daily_allocations and the Redis hold key.
  datatype Night = Night(propertyId: nat, roomTypeId: nat, day: int)

  // Format("2006-01-02"), as a day number.
  function Day(t: int): int { t / DAY }

  function TimeOfDay(t: int): int { t % DAY }

  // int(checkOut.Sub(checkIn).Hours() / 24)
  function ElapsedNights(checkIn: int, checkOut: int): int
    requires checkIn < checkOut
  {
    Min((checkOut - checkIn) / DAY, MAX_DURATION_DAYS)
  }

  // The dates visited by `for d := checkIn; d.Before(checkOut); d = d.Add(24 * time.Hour)`.
  function LoopDays(checkIn: int, checkOut: int): seq<int>
    decreases checkOut - checkIn
  {
    if checkIn < checkOut then [Day(checkIn)] + LoopDays(checkIn + DAY, checkOut) else []
  }

  // The dates `from <= d < to` in ascending order.
  function DayRange(from: int, to: int): (days: seq<int>)
    ensures |days| == Max(0, to - from)
    ensures forall i :: 0 <= i < |days| ==> days[i] == from + i
  {
    seq(Max(0, to - from), i => from + i)
  }

  // stay_date >= checkIn's date AND stay_date < checkOut's date, ORDER BY stay_date ASC.
  function SqlDays(checkIn: int, checkOut: int): seq<int> {
    DayRange(Day(checkIn), Day(checkOut))
  }

  // The hold keys the loop builds, one per date it visits.
  function HoldKeys(propertyId: nat, roomTypeId: nat, checkIn: int, checkOut: int): seq<Night>
    decreases checkOut - checkIn
  {
    if checkIn < checkOut
    then [Night(propertyId, roomTypeId, Day(checkIn))] + HoldKeys(propertyId, roomTypeId, checkIn + DAY, checkOut)
    else []
  }

  lemma {:induction false} HoldKeysAreLoopDays(propertyId: nat, roomTypeId: nat, checkIn: int, checkOut: int)
    ensures |HoldKeys(propertyId, roomTypeId, checkIn, checkOut)| == |LoopDays(checkIn, checkOut)|
    ensures forall i :: 0 <= i < |LoopDays(checkIn, checkOut)| ==>
                          HoldKeys(propertyId, roomTypeId, checkIn, checkOut)[i] ==
                          Night(propertyId, roomTypeId, LoopDays(checkIn, checkOut)[i])
    decreases checkOut - checkIn
  {
    if checkIn < checkOut { HoldKeysAreLoopDays(propertyId, roomTypeId, checkIn + DAY, checkOut); }
  }

  lemma NextDay(t: int)
    ensures Day(t + DAY) == Day(t) + 1
  {
  }

  lemma {:induction false} HoldKeysAreConsecutive(propertyId: nat, roomTypeId: nat, checkIn: int, checkOut: int)
    ensures forall i :: 0 <= i < |HoldKeys(propertyId, roomTypeId, checkIn, checkOut)| ==>
                          HoldKeys(propertyId, roomTypeId, checkIn, checkOut)[i]
                          == Night(propertyId, roomTypeId, Day(checkIn) + i)
    decreases checkOut - checkIn
  {
    if checkIn < checkOut {
      NextDay(checkIn);
      HoldKeysAreConsecutive(propertyId, roomTypeId, checkIn + DAY, checkOut);
    }
  }

  lemma {:induction false} LoopDaysAreConsecutive(checkIn: int, checkOut: int)
    requires checkIn < checkOut
    ensures |LoopDays(checkIn, checkOut)| == (checkOut - checkIn + DAY - 1) / DAY
    ensures forall i :: 0 <= i < |LoopDays(checkIn, checkOut)| ==>
                          LoopDays(checkIn, checkOut)[i] == Day(checkIn) + i
    decreases checkOut - checkIn
  {
    if checkIn + DAY < checkOut {
      LoopDaysAreConsecutive(checkIn + DAY, checkOut);
    }
  }

  // The SQL range and the hours/24 count agree exactly when the check-out clock time is not
  // before the check-in clock time (and the stay is short enough not to saturate); otherwise the
  // count falls short.
  lemma SqlCountIff(checkIn: int, checkOut: int)
    requires checkIn < checkOut
    ensures ElapsedNights(checkIn, checkOut) <= |SqlDays(checkIn, checkOut)|
    ensures ElapsedNights(checkIn, checkOut) == |SqlDays(checkIn, checkOut)|
            <==> TimeOfDay(checkIn) <= TimeOfDay(checkOut) && Day(checkOut) - Day(checkIn) <= MAX_DURATION_DAYS
  {
    var a, r, b, s := Day(checkIn), TimeOfDay(checkIn), Day(checkOut), TimeOfDay(checkOut);
    assert checkOut - checkIn == (b - a) * DAY + (s - r);
  }

  // How far it falls short: one night when the check-out clock time is before the check-in one, such as
  // 14:00 to 11:00, and whatever is beyond the longest duration.
  lemma SqlCountIs(checkIn: int, checkOut: int)
    requires checkIn < checkOut
    ensures ElapsedNights(checkIn, checkOut) ==
            Min(106751, |SqlDays(checkIn, checkOut)| - if checkOut % 86400 < checkIn % 86400 then 1 else 0)
  {
    var a, r, b, s := Day(checkIn), TimeOfDay(checkIn), Day(checkOut), TimeOfDay(checkOut);
    assert checkOut - checkIn == (b - a) * DAY + (s - r);
  }

  // The hold keys are all nights of the SQL range, and no others unless the check-out clock time is after
  // the check-in one.
  lemma HoldKeysCoverRange(propertyId: nat, roomTypeId: nat, checkIn: int, checkOut: int)
    requires checkIn < checkOut
    ensures var keys := HoldKeys(propertyId, roomTypeId, checkIn, checkOut);
            && (forall d :: Day(checkIn) <= d < Day(checkOut) ==> Night(propertyId, roomTypeId, d) in keys)
            && (forall k :: k in keys ==> k.propertyId == propertyId && k.roomTypeId == roomTypeId)
            && (TimeOfDay(checkOut) <= TimeOfDay(checkIn) ==> forall k :: k in keys ==> Day(checkIn) <= k.day < Day(checkOut))
  {
    var keys := HoldKeys(propertyId, roomTypeId, checkIn, checkOut);
    HoldKeysAreLoopDays(propertyId, roomTypeId, checkIn, checkOut);
    HoldKeysAreConsecutive(propertyId, roomTypeId, checkIn, checkOut);
    LoopDaysReach(checkIn, checkOut);
    forall d | Day(checkIn) <= d < Day(checkOut) ensures Night(propertyId, roomTypeId, d) in keys {
      assert keys[d - Day(checkIn)] == Night(propertyId, roomTypeId, d);
    }
  }

  // The loop goes on for at least as many dates as the range has, and for exactly as many unless the
  // check-out clock time is after the check-in one.
  lemma LoopDaysReach(checkIn: int, checkOut: int)
    requires checkIn < checkOut
    ensures Day(checkOut) - Day(checkIn) <= |LoopDays(checkIn, checkOut)|
    ensures TimeOfDay(checkOut) <= TimeOfDay(checkIn) ==> |LoopDays(checkIn, checkOut)| == Day(checkOut) - Day(checkIn)
  {
    LoopDaysAreConsecutive(checkIn, checkOut);
    LoopMatchesSqlIff(checkIn, checkOut);
  }

  // The 24-hour loop and the SQL range agree exactly when it is not after it; otherwise the loop
  // also visits the check-out date.
  lemma LoopMatchesSqlIff(checkIn: int, checkOut: int)
    requires checkIn < checkOut
    ensures LoopDays(checkIn, checkOut) == SqlDays(checkIn, checkOut) <==> TimeOfDay(checkOut) <= TimeOfDay(checkIn)
    ensures TimeOfDay(checkIn) < TimeOfDay(checkOut)
            ==> LoopDays(checkIn, checkOut) == SqlDays(checkIn, checkOut) + [Day(checkOut)]
  {
    LoopDaysAreConsecutive(checkIn, checkOut);
  }

  // All three describe the same distinct, consecutive dates exactly for whole-day stays.
  lemma EnumerationsAgreeIff(checkIn: int, checkOut: int)
    requires checkIn < checkOut
    ensures LoopDays(checkIn, checkOut) == SqlDays(checkIn, checkOut)
            && |SqlDays(checkIn, checkOut)| == ElapsedNights(checkIn, checkOut)
            <==> (checkOut - checkIn) % DAY == 0 && (checkOut - checkIn) / DAY <= MAX_DURATION_DAYS
    ensures forall i, j :: 0 <= i < j < |LoopDays(checkIn, checkOut)| ==>
                             LoopDays(checkIn, checkOut)[i] < LoopDays(checkIn, checkOut)[j]
  {
    LoopDaysAreConsecutive(checkIn, checkOut);
    SqlCountIff(checkIn, checkOut);
    LoopMatchesSqlIff(checkIn, checkOut);
  }
}

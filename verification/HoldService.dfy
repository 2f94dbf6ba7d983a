// hold_service.go: a Redis hold first, then the reservation row, with compensation.
module HoldService {
  import opened Prelude
  import opened StayNights
  import opened RedisStore
  import opened HoldAccounting
  import opened Acquisition
  import opened HoldAdapter
  import opened Reservations

  const HOLD_TTL := 900
  const FALLBACK_CAPACITY := 100

  datatype CreateHoldRequest = CreateHoldRequest(
    propertyId: nat, roomTypeId: nat, checkIn: int, checkOut: int, totalCapacity: int)
  {
    function Nights(): seq<Night> { HoldKeys(propertyId, roomTypeId, checkIn, checkOut) }

    // The row a hold is persisted as.
    function Row(token: Token, expiresAt: int): Reservation {
      Reservation(propertyId, roomTypeId, Day(checkIn), Day(checkOut), HELD, Some(token), Some(expiresAt))
    }
  }

  // The list has every night of the row's half-open range, and nothing else if `exact`.
  ghost predicate Reserves(list: seq<Night>, row: Reservation, exact: bool) {
    && (forall d :: row.checkInDay <= d < row.checkOutDay ==> Night(row.propertyId, row.roomTypeId, d) in list)
    && (exact ==> forall k :: k in list ==>
                    k.propertyId == row.propertyId && k.roomTypeId == row.roomTypeId && row.checkInDay <= k.day < row.checkOutDay)
  }

  lemma ListReserves(req: CreateHoldRequest, list: seq<Night>, row: Reservation)
    requires req.checkIn < req.checkOut && Stutters(req.Nights(), list)
    requires row.propertyId == req.propertyId && row.roomTypeId == req.roomTypeId
    requires row.checkInDay == Day(req.checkIn) && row.checkOutDay == Day(req.checkOut)
    ensures Reserves(list, row, TimeOfDay(req.checkOut) <= TimeOfDay(req.checkIn))
  {
    StutteredNights(req.Nights(), list);
    HoldKeysCoverRange(req.propertyId, req.roomTypeId, req.checkIn, req.checkOut);
  }

  datatype CreateHoldResult = CreateHoldResult(reservationId: nat, holdToken: Token, expiresAt: int, status: string)

  class HoldService {
    const fastHold: InventoryHoldAdapter
    const reservationRepo: ReservationRepository

    constructor (fastHold: InventoryHoldAdapter, reservationRepo: ReservationRepository)
      ensures this.fastHold == fastHold && this.reservationRepo == reservationRepo
    {
      this.fastHold := fastHold;
      this.reservationRepo := reservationRepo;
    }

    // `token` and `id` are the fresh UUIDs. `acquired`: the Redis hold had succeeded.
    method CreateHold(cancelled: bool, req: CreateHoldRequest, clock: int, token: Token, id: nat,
                      persisted: Delivery, ghost net: Network)
      returns (res: Result<CreateHoldResult>, ghost trace: seq<Op>, ghost acquired: bool)
      requires token != "" && token !in fastHold.redis.tokens && id !in reservationRepo.rows
      requires Behaves(fastHold.turns, token, net) && NoEmptyList(fastHold.redis.State())
      modifies fastHold, fastHold.redis, reservationRepo
      ensures fastHold.redis.State() == Exec(old(fastHold.redis.State()), trace) && Known(trace, token, HOLD_TTL, net)
      // Only stays that end after they begin, and begin today or later, are accepted.
      ensures cancelled || req.checkOut <= req.checkIn || req.checkIn < clock / 86400 * 86400 ==>
                && res == Err(if cancelled then Infrastructure else InvalidDateRange)
                && trace == [] && reservationRepo.rows == old(reservationRepo.rows)
      // Success: the token holds every night of the stay, and one row is added that records it.
      ensures res.Ok? ==>
                && acquired && persisted == Replied && res.value == CreateHoldResult(id, token, clock + 900, "INVENTORY_HOLD")
                && reservationRepo.rows.Keys == old(reservationRepo.rows).Keys + {id}
                && (forall other :: other in old(reservationRepo.rows) ==>
                      reservationRepo.rows[other] == old(reservationRepo.rows)[other])
                && reservationRepo.rows[id] ==
                   Reservation(req.propertyId, req.roomTypeId, req.checkIn / 86400, req.checkOut / 86400,
                               "INVENTORY_HOLD", Some(token), Some(res.value.expiresAt))
      ensures res.Ok? ==>
                Acquired(old(fastHold.redis.State()), fastHold.redis.State(), trace, token,
                         HoldKeys(req.propertyId, req.roomTypeId, req.checkIn, req.checkOut), net, 900,
                         if req.totalCapacity <= 0 then 100 else req.totalCapacity)
      // Until its list expires, the token lists every night of the row's range, and no other unless the
      // check-out clock time is after the check-in one.
      ensures res.Ok? && KeepsToken(old(fastHold.redis.State()), trace, token) ==>
                Reserves(Listed(fastHold.redis.State(), token), reservationRepo.rows[id],
                         req.checkOut % 86400 <= req.checkIn % 86400)
      // Sweeps find the row exactly from the returned expiry on.
      ensures res.Ok? ==> forall cutoff :: id in ExpiredHolds(reservationRepo.rows, cutoff) <==> res.value.expiresAt <= cutoff
      // Failure: unless reconciliation is called for, no capacity is left behind by a hold that had
      // been acquired; nor is any while Redis can be reached.
      ensures res.Err? && (net.reachable || (acquired && res.error != ReconciliationRequired(token))) ==>
                token !in fastHold.redis.tokens
      ensures res.Err? ==> reservationRepo.rows == old(reservationRepo.rows)
                           || (acquired && persisted == ReplyLost
                               && reservationRepo.rows ==
                                  old(reservationRepo.rows)[id :=
                                    Reservation(req.propertyId, req.roomTypeId, req.checkIn / 86400, req.checkOut / 86400,
                                                "INVENTORY_HOLD", Some(token), Some(clock + 900))])
      ensures res.Err? && acquired ==> persisted != Replied
      ensures res.Err? && acquired && res.error != ReconciliationRequired(token) ==> res.error == Infrastructure
      ensures res.Err? && acquired && net.calm ==> res.error == Infrastructure
      // Undisturbed, and with the row written, room on every night decides.
      ensures !cancelled && clock / 86400 * 86400 <= req.checkIn < req.checkOut && net.calm && persisted == Replied ==>
                if HasRoom(old(fastHold.redis.counters), HoldKeys(req.propertyId, req.roomTypeId, req.checkIn, req.checkOut),
                           if req.totalCapacity <= 0 then 100 else req.totalCapacity)
                then res.Ok? else res == Err(InventoryUnavailable)
      ensures !acquired ==> res.Err? && !res.error.ReconciliationRequired?
    {
      if cancelled {
        return Err(Infrastructure), [], false;
      }
      if !(req.checkOut > req.checkIn) {
        return Err(InvalidDateRange), [], false;
      }
      var today := clock / DAY * DAY;
      if req.checkIn < today {
        return Err(InvalidDateRange), [], false;
      }
      var totalCapacity := if req.totalCapacity <= 0 then FALLBACK_CAPACITY else req.totalCapacity;

      var acquisition, first, rolledBack :=
        fastHold.AcquireFastHold(token, req.propertyId, req.roomTypeId, req.checkIn, req.checkOut,
                                 totalCapacity, HOLD_TTL, clock, net);
      trace := first;
      if acquisition.Err? {
        return Err(acquisition.error), trace, false;
      }
      var (_, expiresAt) := acquisition.value;

      var ok := reservationRepo.CreateHold(id, req.Row(token, expiresAt), persisted);
      if !ok {
        var released, rest, _ := fastHold.ReleaseFastHold(token);
        assert Retired(rest, token);
        ExecConcat(old(fastHold.redis.State()), first, rest);
        trace := first + rest;
        if !released {
          return Err(ReconciliationRequired(token)), trace, true;
        }
        return Err(Infrastructure), trace, true;
      }
      if KeepsToken(old(fastHold.redis.State()), trace, token) {
        ListReserves(req, Listed(fastHold.redis.State(), token), reservationRepo.rows[id]);
      }
      return Ok(CreateHoldResult(id, token, expiresAt, HELD)), trace, true;
    }
  }
}

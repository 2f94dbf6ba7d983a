// inventory_hold_adapter.go: the multi-night acquisition with its retry and its rollback.
module HoldAdapter {
  import opened Prelude
  import opened StayNights
  import opened RedisStore
  import opened HoldAccounting
  import opened Acquisition

  class InventoryHoldAdapter {
    const redis: Redis
    // How the network and the other clients will treat the next calls; calm once exhausted.
    var turns: seq<Turn>

    constructor (redis: Redis, turns: seq<Turn>)
      ensures this.redis == redis && this.turns == turns
    {
      this.redis := redis;
      this.turns := turns;
    }

    method NextTurn() returns (turn: Turn)
      modifies this
      ensures turn == (if old(turns) == [] then CALM_TURN else old(turns)[0])
      ensures turns == (if old(turns) == [] then [] else old(turns)[1..])
      ensures turn in old(turns) || turn == CALM_TURN
      ensures forall later :: later in turns ==> later in old(turns)
    {
      if turns == [] {
        return CALM_TURN;
      }
      turn := turns[0];
      turns := turns[1..];
    }

    // One EvalSha or Eval of the hold script.
    method CallHold(k: Night, t: Token, ttl: Seconds, capacity: int, ghost net: Network)
      returns (reply: Option<int>, ghost trace: seq<Op>)
      requires Behaves(turns, t, net)
      modifies this, redis
      ensures Behaves(turns, t, net)
      ensures redis.State() == Exec(old(redis.State()), trace) && HoldsOnly(trace, t, ttl, net)
      ensures KeepsToken(old(redis.State()), trace, t) ==>
                || Listed(redis.State(), t) == Listed(old(redis.State()), t) + [k]
                || (reply != Some(1) && Listed(redis.State(), t) == Listed(old(redis.State()), t))
      ensures net.lossless && reply != Some(1) && KeepsToken(old(redis.State()), trace, t) ==>
                Listed(redis.State(), t) == Listed(old(redis.State()), t)
      ensures net.calm ==>
                && trace == [Hold(t, k, ttl, capacity)]
                && reply == Some(if Count(old(redis.counters), k) < capacity then 1 else 0)
      ensures turns == (if old(turns) == [] then [] else old(turns)[1..])
      ensures reply == None <==> old(turns) != [] && old(turns)[0].delivery != Replied
      ensures reply.Some? && reply != Some(1) ==> Refused(old(redis.State()), trace, t, capacity)
    {
      ghost var s := redis.State();
      var turn := NextTurn();
      redis.Perform(turn.others);
      trace := turn.others;
      if KeepsToken(s, turn.others, t) { ForeignKeepsList(s, turn.others, t); }
      if turn.delivery == NotRun {
        return None, trace;
      }
      var r := redis.InventoryHold(k, t, ttl, capacity);
      trace := trace + [Hold(t, k, ttl, capacity)];
      ExecSnoc(s, turn.others, Hold(t, k, ttl, capacity));
      if KeepsToken(s, trace, t) { KeepsTokenSplit(s, turn.others, [Hold(t, k, ttl, capacity)], t); }
      assert trace[..|turn.others|] == turn.others;
      if r != 1 { assert RefusedAt(s, trace, t, capacity, |turn.others|); }
      reply := if turn.delivery == Replied then Some(r) else None;
    }

    // EvalSha, and Eval when it errs: the script may run twice.
    method TwoAttempts(k: Night, t: Token, ttl: Seconds, capacity: int, ghost net: Network)
      returns (reply: Option<int>, ghost trace: seq<Op>)
      requires Behaves(turns, t, net)
      modifies this, redis
      ensures Behaves(turns, t, net)
      ensures redis.State() == Exec(old(redis.State()), trace) && HoldsOnly(trace, t, ttl, net)
      ensures KeepsToken(old(redis.State()), trace, t) ==>
                Extends(Listed(old(redis.State()), t), Listed(redis.State(), t), k, reply == Some(1))
      ensures net.lossless && reply == Some(1) && KeepsToken(old(redis.State()), trace, t) ==>
                Listed(redis.State(), t) == Listed(old(redis.State()), t) + [k]
      ensures net.calm ==>
                && trace == [Hold(t, k, ttl, capacity)]
                && reply == Some(if Count(old(redis.counters), k) < capacity then 1 else 0)
      ensures reply == None ==> TwoLost(old(turns))
      ensures TwoLost(turns) ==> TwoLost(old(turns))
      ensures reply.Some? && reply != Some(1) ==> Refused(old(redis.State()), trace, t, capacity)
    {
      ghost var s := redis.State();
      reply, trace := CallHold(k, t, ttl, capacity, net);
      if reply == None {
        ghost var first, rest := trace, [];
        reply, rest := CallHold(k, t, ttl, capacity, net);
        trace := first + rest;
        ExecConcat(s, first, rest);
        if reply.Some? && reply != Some(1) { RefusedLater(s, first, rest, t, capacity); }
        if KeepsToken(s, trace, t) { KeepsTokenSplit(s, first, rest, t); }
      }
    }

    // One night. `before` has been run from `s` and has achieved the nights `done`.
    method EvalNight(k: Night, t: Token, ttl: Seconds, capacity: int, ghost net: Network,
                     ghost s: Store, ghost before: seq<Op>, ghost done: seq<Night>)
      returns (reply: Option<int>, ghost trace: seq<Op>)
      requires Behaves(turns, t, net) && t !in s.tokens && After(done, k)
      requires Acquired(s, redis.State(), before, t, done, net, ttl, capacity)
      modifies this, redis
      ensures Behaves(turns, t, net)
      ensures redis.State() == Exec(s, trace) && HoldsOnly(trace, t, ttl, net)
      ensures reply == Some(1) ==> Acquired(s, redis.State(), trace, t, done + [k], net, ttl, capacity)
      ensures net.calm ==> forall op :: op in trace ==> IsBy(op, t)
      ensures net.calm && reply != Some(1) ==>
                reply == Some(0) && Count(s.counters, k) >= capacity
      ensures reply == None ==> TwoLost(old(turns))
      ensures TwoLost(turns) ==> TwoLost(old(turns))
      ensures reply.Some? && reply != Some(1) ==> Refused(s, trace, t, capacity)
    {
      ghost var mid := redis.State();
      CalmCount(s, mid, before, t, done, net, ttl, capacity, k);
      ghost var more;
      reply, more := TwoAttempts(k, t, ttl, capacity, net);
      trace := before + more;
      ExecConcat(s, before, more);
      if reply.Some? && reply != Some(1) { RefusedLater(s, before, more, t, capacity); }
      if reply == Some(1) {
        AcquiredStep(s, mid, redis.State(), before, more, t, done, net, ttl, capacity, k);
      }
    }

    method CallRelease(t: Token) returns (replied: bool, ghost trace: seq<Op>, ghost ran: bool)
      requires NoEmptyList(redis.State())
      modifies this, redis
      ensures NoEmptyList(redis.State()) && redis.State() == Exec(old(redis.State()), trace)
      ensures forall turn :: turn in turns ==> turn in old(turns)
      ensures Spans(trace, old(turns), t)
      ensures (ran || t !in old(redis.tokens)) && Retired(trace, t) ==> t !in redis.tokens
      ensures replied || Reachable(old(turns)) ==> ran
      ensures turns == (if old(turns) == [] then [] else old(turns)[1..])
      ensures !replied <==> old(turns) != [] && old(turns)[0].delivery != Replied
      ensures AllCalm(old(turns)) ==> replied && trace == [Release(t)]
    {
      ghost var s := redis.State();
      var turn := NextTurn();
      redis.Perform(turn.others);
      trace := turn.others;
      ListsNeverEmpty(s, trace);
      if t !in s.tokens && Retired(trace, t) { RetiredNeverReturns(s, trace, t); }
      if turn.delivery == NotRun {
        return false, trace, false;
      }
      var _ := redis.InventoryRelease(t);
      trace := trace + [Release(t)];
      ExecSnoc(s, turn.others, Release(t));
      ListsNeverEmpty(s, trace);
      return turn.delivery == Replied, trace, true;
    }

    // `gone` says that the script ran at least once.
    method ReleaseFastHold(t: Token) returns (ok: bool, ghost trace: seq<Op>, ghost gone: bool)
      requires NoEmptyList(redis.State())
      modifies this, redis
      ensures NoEmptyList(redis.State()) && redis.State() == Exec(old(redis.State()), trace)
      ensures forall turn :: turn in turns ==> turn in old(turns)
      ensures Spans(trace, old(turns), t)
      ensures t == "" ==> ok && trace == []
      ensures t != "" && (ok || Reachable(old(turns))) ==> gone
      ensures !ok ==> TwoLost(old(turns))
      ensures (gone || t !in old(redis.tokens)) && Retired(trace, t) ==> t !in redis.tokens
      ensures t != "" && AllCalm(old(turns)) ==> ok && trace == [Release(t)]
    {
      if t == "" {
        return true, [], false;
      }
      ghost var s := redis.State();
      ok, trace, gone := CallRelease(t);
      if !ok {
        ghost var first, firstRan := trace, gone;
        ghost var rest, restRan;
        ok, rest, restRan := CallRelease(t);
        trace, gone := first + rest, firstRan || restRan;
        ExecConcat(s, first, rest);
      }
    }

    // The discarded-error call of the rollback, after `before` has been run from `s`.
    method RollBack(t: Token, ghost ttl: Seconds, ghost net: Network, ghost s: Store, ghost before: seq<Op>)
      returns (ghost trace: seq<Op>, ghost gone: bool)
      requires t != "" && Behaves(turns, t, net) && NoEmptyList(s) && redis.State() == Exec(s, before)
      requires HoldsOnly(before, t, ttl, net)
      modifies this, redis
      ensures Behaves(turns, t, net) && NoEmptyList(redis.State())
      ensures redis.State() == Exec(s, trace) && Known(trace, t, ttl, net)
      ensures (gone ==> t !in redis.tokens) && (net.reachable ==> gone)
      ensures net.calm ==> trace == before + [Release(t)]
      ensures forall capacity :: Refused(s, before, t, capacity) ==> Refused(s, trace, t, capacity)
    {
      ListsNeverEmpty(s, before);
      ghost var rest;
      var _, more, ran := ReleaseFastHold(t);
      assert Retired(more, t);
      rest, gone := more, ran;
      ExecConcat(s, before, rest);
      trace := before + rest;
      forall capacity | Refused(s, before, t, capacity) ensures Refused(s, trace, t, capacity) {
        RefusedStays(s, before, rest, t, capacity);
      }
    }

    // Night k was not granted: roll back and report it.
    method GiveUp(reply: Option<int>, t: Token, ghost k: Night, ghost nights: seq<Night>, ghost ttl: Seconds,
                  ghost capacity: int, ghost net: Network, ghost s: Store, ghost before: seq<Op>)
      returns (error: Error, ghost trace: seq<Op>, ghost rolledBack: bool)
      requires t != "" && Behaves(turns, t, net) && NoEmptyList(s) && redis.State() == Exec(s, before)
      requires k in nights && HoldsOnly(before, t, ttl, net) && (net.calm ==> forall op :: op in before ==> IsBy(op, t))
      requires net.calm ==> reply == Some(0) && Count(s.counters, k) >= capacity
      requires reply.Some? ==> Refused(s, before, t, capacity)
      modifies this, redis
      ensures Behaves(turns, t, net) && redis.State() == Exec(s, trace) && Known(trace, t, ttl, net)
      ensures error == if reply == None then Infrastructure else InventoryUnavailable
      ensures reply.Some? ==> Refused(s, trace, t, capacity)
      ensures (rolledBack ==> t !in redis.tokens) && (net.reachable ==> rolledBack)
      ensures net.calm ==> forall op :: op in trace ==> IsBy(op, t)
      ensures net.calm ==> error == InventoryUnavailable && !HasRoom(s.counters, nights, capacity)
    {
      trace, rolledBack := RollBack(t, ttl, net, s, before);
      error := if reply == None then Infrastructure else InventoryUnavailable;
    }

    // The night loop; `nights` is the stay's dates. `rolledBack`: the rollback's script ran.
    method HoldNights(t: Token, propertyId: nat, roomTypeId: nat, checkIn: int, checkOut: int,
                      totalCapacity: int, ttlSeconds: Seconds, ghost net: Network, ghost nights: seq<Night>)
      returns (failure: Option<Error>, ghost trace: seq<Op>, ghost rolledBack: bool)
      requires t != "" && t !in redis.tokens && Behaves(turns, t, net) && NoEmptyList(redis.State())
      requires checkIn < checkOut && nights == HoldKeys(propertyId, roomTypeId, checkIn, checkOut)
      modifies this, redis
      ensures Behaves(turns, t, net)
      ensures redis.State() == Exec(old(redis.State()), trace) && Known(trace, t, ttlSeconds, net)
      ensures failure.Some? ==>
                || (failure.value == InventoryUnavailable && Refused(old(redis.State()), trace, t, totalCapacity))
                || (failure.value == Infrastructure && TwoLost(old(turns)))
      ensures failure == None ==>
                Acquired(old(redis.State()), redis.State(), trace, t, nights, net, ttlSeconds, totalCapacity)
      ensures failure.Some? ==> (rolledBack ==> t !in redis.tokens) && (net.reachable ==> rolledBack)
      ensures net.calm ==> forall op :: op in trace ==> IsBy(op, t)
      ensures net.calm && failure.Some? ==>
                failure.value == InventoryUnavailable && !HasRoom(old(redis.counters), nights, totalCapacity)
    {
      ghost var s := redis.State();
      ghost var done := [];
      trace, rolledBack := [], false;
      var d := checkIn;
      while d < checkOut
        invariant Behaves(turns, t, net)
        invariant nights == done + HoldKeys(propertyId, roomTypeId, d, checkOut)
        invariant Acquired(s, redis.State(), trace, t, done, net, ttlSeconds, totalCapacity)
        invariant TwoLost(turns) ==> TwoLost(old(turns))
        decreases checkOut - d
      {
        var holdKey := Night(propertyId, roomTypeId, Day(d));
        NextNight(propertyId, roomTypeId, checkIn, checkOut, d, nights, done);
        var reply: Option<int>;
        reply, trace := EvalNight(holdKey, t, ttlSeconds, totalCapacity, net, s, trace, done);
        if reply != Some(1) {
          var error;
          error, trace, rolledBack := GiveUp(reply, t, holdKey, nights, ttlSeconds, totalCapacity, net, s, trace);
          return Some(error), trace, rolledBack;
        }
        done := done + [holdKey];
        d := d + DAY;
      }
      assert HoldKeys(propertyId, roomTypeId, d, checkOut) == [];
      assert done == nights;
      return None, trace, false;
    }

    // `rolledBack` says that the rollback's release script ran.
    method AcquireFastHold(t: Token, propertyId: nat, roomTypeId: nat, checkIn: int, checkOut: int,
                           totalCapacity: int, ttl: int, clock: int, ghost net: Network)
      returns (res: Result<(Token, int)>, ghost trace: seq<Op>, ghost rolledBack: bool)
      requires t != "" && t !in redis.tokens && Behaves(turns, t, net) && NoEmptyList(redis.State())
      modifies this, redis
      ensures Behaves(turns, t, net) && NoEmptyList(redis.State())
      // Its operations are t's holds with that TTL, t's releases, and what the others may do.
      ensures redis.State() == Exec(old(redis.State()), trace) && Known(trace, t, if ttl <= 0 then 900 else ttl, net)
      ensures checkOut <= checkIn ==> res == Err(InvalidDateRange) && trace == [] && t !in redis.tokens
      // Unavailability is reported only when a hold found its night full, and an infrastructure failure only
      // when both attempts at a night went unanswered.
      ensures checkIn < checkOut && res.Err? ==>
                || (res.error == InventoryUnavailable && Refused(old(redis.State()), trace, t, totalCapacity))
                || (res.error == Infrastructure && TwoLost(old(turns)))
      // Success: the token lists exactly the stay's nights, in date order.
      ensures res.Ok? ==> res.value == (t, clock + ttl)
      ensures res.Ok? ==> Acquired(old(redis.State()), redis.State(), trace, t,
                                   HoldKeys(propertyId, roomTypeId, checkIn, checkOut), net,
                                   if ttl <= 0 then 900 else ttl, totalCapacity)
      // Failure: once the rollback has run the token is gone, and only a call that never reached
      // Redis can keep it from running.
      ensures checkIn < checkOut && res.Err? ==>
                (rolledBack ==> t !in redis.tokens) && (net.reachable ==> rolledBack)
      // Undisturbed, it fails only for want of room on some night (and, by Acquired, succeeds only
      // when every night has room).
      ensures net.calm ==> forall op :: op in trace ==> IsBy(op, t)
      ensures net.calm && checkIn < checkOut && res.Err? ==>
                && res.error == InventoryUnavailable
                && !HasRoom(old(redis.counters), HoldKeys(propertyId, roomTypeId, checkIn, checkOut), totalCapacity)
    {
      if !(checkOut > checkIn) {
        return Err(InvalidDateRange), [], false;
      }
      var ttlSeconds: Seconds := if ttl <= 0 then DEFAULT_TTL_SECONDS else ttl;
      var expiresAt := clock + ttl;
      var failure;
      failure, trace, rolledBack :=
        HoldNights(t, propertyId, roomTypeId, checkIn, checkOut, totalCapacity, ttlSeconds, net,
                   HoldKeys(propertyId, roomTypeId, checkIn, checkOut));
      ListsNeverEmpty(old(redis.State()), trace);
      if failure.Some? {
        return Err(failure.value), trace, rolledBack;
      }
      return Ok((t, expiresAt)), trace, false;
    }
  }
}

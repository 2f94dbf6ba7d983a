// What one multi-night acquisition achieves on a Redis that other clients use at the same time,
// over a network that loses messages.
module Acquisition {
  import opened Prelude
  import opened StayNights
  import opened RedisStore
  import opened HoldAccounting

  const DEFAULT_TTL_SECONDS: Seconds := 900

  // One round trip of this client: what everyone else (and the clock) does first, then its fate.
  datatype Turn = Turn(others: seq<Op>, delivery: Delivery)

  const CALM_TURN := Turn([], Replied)

  // No operation is by t: fresh UUID tokens are used by nobody else.
  predicate Foreign(ops: seq<Op>, t: Token) { forall op :: op in ops ==> !IsBy(op, t) }

  // What may be assumed of the network, and the operations the other clients and the clock may perform.
  datatype Network = Network(lossless: bool, reachable: bool, calm: bool, others: set<Op>)

  predicate Behaves(turns: seq<Turn>, t: Token, net: Network) {
    && (net.calm ==> net.lossless && net.reachable)
    && (forall op :: op in net.others ==> !IsBy(op, t))
    && forall turn :: turn in turns ==> TurnBehaves(turn, net)
  }

  predicate TurnBehaves(turn: Turn, net: Network) {
    && (forall op :: op in turn.others ==> op in net.others)
    && (net.lossless ==> turn.delivery != ReplyLost)
    && (net.reachable ==> turn.delivery != NotRun)
    && (net.calm ==> turn == CALM_TURN)
  }

  // Two calls in a row whose replies do not arrive: only then does a call with its retry fail.
  predicate TwoLost(turns: seq<Turn>) {
    |turns| >= 2 && ((turns[0].delivery != Replied && turns[1].delivery != Replied) || TwoLost(turns[1..]))
  }

  // One of t's holds in the run finds its night full.
  predicate Refused(s: Store, trace: seq<Op>, t: Token, capacity: int) {
    exists i :: 0 <= i < |trace| && RefusedAt(s, trace, t, capacity, i)
  }

  predicate RefusedAt(s: Store, trace: seq<Op>, t: Token, capacity: int, i: nat)
    requires i < |trace|
  {
    trace[i].Hold? && trace[i].token == t && capacity <= Count(Exec(s, trace[..i]).counters, trace[i].night)
  }

  lemma RefusedLater(s: Store, before: seq<Op>, more: seq<Op>, t: Token, capacity: int)
    requires Refused(Exec(s, before), more, t, capacity)
    ensures Refused(s, before + more, t, capacity)
  {
    var i :| 0 <= i < |more| && RefusedAt(Exec(s, before), more, t, capacity, i);
    ExecConcat(s, before, more[..i]);
    assert (before + more)[..|before| + i] == before + more[..i];
    assert RefusedAt(s, before + more, t, capacity, |before| + i);
  }

  lemma RefusedStays(s: Store, before: seq<Op>, more: seq<Op>, t: Token, capacity: int)
    requires Refused(s, before, t, capacity)
    ensures Refused(s, before + more, t, capacity)
  {
    var i :| 0 <= i < |before| && RefusedAt(s, before, t, capacity, i);
    assert (before + more)[..i] == before[..i];
    assert RefusedAt(s, before + more, t, capacity, i);
  }

  predicate IsOwnHold(op: Op, t: Token, ttl: Seconds) { op.Hold? && op.token == t && op.ttl == ttl }

  // The run holds only t's holds and what the others may do.
  predicate HoldsOnly(trace: seq<Op>, t: Token, ttl: Seconds, net: Network) {
    forall op :: op in trace ==> op != Release(t) && (op in net.others || IsOwnHold(op, t, ttl))
  }

  // Or t's releases, too.
  predicate Known(trace: seq<Op>, t: Token, ttl: Seconds, net: Network) {
    forall op :: op in trace ==> op == Release(t) || op in net.others || IsOwnHold(op, t, ttl)
  }

  predicate Reachable(turns: seq<Turn>) { forall turn :: turn in turns ==> turn.delivery != NotRun }

  predicate AllCalm(turns: seq<Turn>) { forall turn :: turn in turns ==> turn == CALM_TURN }

  // The run holds only t's releases and what the others do in `turns`.
  ghost predicate Spans(trace: seq<Op>, turns: seq<Turn>, t: Token) {
    forall op :: op in trace ==> op == Release(t) || exists turn :: turn in turns && op in turn.others
  }

  predicate InOrder(list: seq<Night>) { forall i, j :: 0 <= i < j < |list| ==> list[i].day <= list[j].day }

  // `list` is in date order and has each of `nights` once or twice (twice when a script ran again
  // after its reply was lost), and nothing else.
  ghost predicate Stutters(nights: seq<Night>, list: seq<Night>) {
    && InOrder(list)
    && forall k :: Times(nights, k) <= Times(list, k) <= 2 * Times(nights, k)
  }

  lemma StutteredNights(nights: seq<Night>, list: seq<Night>)
    requires Stutters(nights, list)
    ensures forall k :: k in list <==> k in nights
  {
    forall k ensures k in list <==> k in nights { assert Times(nights, k) <= Times(list, k) <= 2 * Times(nights, k); }
  }

  // k is later than everything in `nights`.
  predicate After(nights: seq<Night>, k: Night) { forall q :: q in nights ==> q.day < k.day }

  lemma StuttersSnoc(nights: seq<Night>, list: seq<Night>, k: Night)
    requires Stutters(nights, list) && After(nights, k)
    ensures Stutters(nights + [k], list + [k]) && Stutters(nights + [k], list + [k, k])
  {
    forall i | 0 <= i < |list| ensures list[i].day < k.day {
      assert Times(list, list[i]) > 0;
      assert Times(nights, list[i]) > 0;
      assert list[i] in nights;
    }
    forall q ensures Times(nights + [k], q) <= Times(list + [k], q) <= 2 * Times(nights + [k], q)
             ensures Times(nights + [k], q) <= Times(list + [k, k], q) <= 2 * Times(nights + [k], q) {
      assert Times(nights, q) <= Times(list, q) <= 2 * Times(nights, q);
      assert multiset(list + [k, k]) == multiset(list) + multiset{k, k};
    }
  }

  // ---- what other clients' operations leave alone ----

  lemma {:induction false} KeepsTokenSplit(s: Store, a: seq<Op>, b: seq<Op>, t: Token)
    requires KeepsToken(s, a + b, t)
    ensures KeepsToken(s, a, t) && KeepsToken(Exec(s, a), b, t)
  {
    if b == [] {
      assert a + b == a;
    } else {
      var n := |b| - 1;
      assert (a + b)[..|a + b| - 1] == a + b[..n];
      KeepsTokenSplit(s, a, b[..n], t);
      ExecConcat(s, a, b[..n]);
    }
  }

  lemma {:induction false} ForeignKeepsList(s: Store, ops: seq<Op>, t: Token)
    requires Foreign(ops, t) && KeepsToken(s, ops, t)
    ensures Listed(Exec(s, ops), t) == Listed(s, t)
  {
    if ops != [] {
      ForeignKeepsList(s, ops[..|ops| - 1], t);
      assert ops[|ops| - 1] in ops;
    }
  }

  // Nobody holds under t: its acquisition is over.
  predicate Retired(ops: seq<Op>, t: Token) { forall op :: op in ops && op.Hold? ==> op.token != t }

  lemma {:induction false} RetiredNeverReturns(s: Store, ops: seq<Op>, t: Token)
    requires Retired(ops, t) && t !in s.tokens
    ensures t !in Exec(s, ops).tokens
  {
    if ops != [] {
      RetiredNeverReturns(s, ops[..|ops| - 1], t);
      assert ops[|ops| - 1] in ops;
    }
  }

  // Redis removes a list with its last element, so no list is ever empty.
  ghost predicate NoEmptyList(s: Store) { forall t :: t in s.tokens ==> s.tokens[t].nights != [] }

  lemma {:induction false} ListsNeverEmpty(s: Store, ops: seq<Op>)
    requires NoEmptyList(s)
    ensures NoEmptyList(Exec(s, ops))
  {
    if ops != [] {
      ListsNeverEmpty(s, ops[..|ops| - 1]);
    }
  }

  lemma {:induction false} OwnRunChange(s: Store, ops: seq<Op>, t: Token, k: Night)
    requires forall op :: op in ops ==> IsBy(op, t)
    ensures Count(Exec(s, ops).counters, k) - Count(s.counters, k) == OwnChange(s, ops, t, k)
  {
    if ops != [] {
      OwnRunChange(s, ops[..|ops| - 1], t, k);
      assert ops[|ops| - 1] in ops;
    }
  }

  lemma {:induction false} OwnRunsExpireNothing(s: Store, ops: seq<Op>, t: Token)
    requires forall op :: op in ops ==> IsBy(op, t)
    ensures KeepsToken(s, ops, t)
  {
    if ops != [] {
      OwnRunsExpireNothing(s, ops[..|ops| - 1], t);
      assert ops[|ops| - 1] in ops;
    }
  }

  lemma {:induction false} OwnRunsGiveBack(s: Store, ops: seq<Op>, t: Token, k: Night)
    requires t !in s.tokens && 0 <= Count(s.counters, k)
    requires forall op :: op in ops ==> IsBy(op, t)
    ensures GivesBack(s, ops, t, k)
  {
    if ops != [] {
      var before := ops[..|ops| - 1];
      assert forall op :: op in before ==> op in ops;
      OwnRunsGiveBack(s, before, t, k);
      OwnRunsExpireNothing(s, before, t);
      OwnRunChange(s, before, t, k);
      OwnChangeIsListedIff(s, before, t, k);
    }
  }

  // Run alone, a token's operations add to each counter exactly what they add to its list.
  lemma AloneChange(s: Store, ops: seq<Op>, t: Token, k: Night)
    requires t !in s.tokens && (forall op :: op in ops ==> IsBy(op, t))
    requires 0 <= Count(s.counters, k) || forall op :: op in ops ==> op != Release(t)
    ensures Count(Exec(s, ops).counters, k) == Count(s.counters, k) + Times(Listed(Exec(s, ops), t), k)
  {
    OwnRunsExpireNothing(s, ops, t);
    OwnRunChange(s, ops, t, k);
    OwnChangeIsListedIff(s, ops, t, k);
    if 0 <= Count(s.counters, k) { OwnRunsGiveBack(s, ops, t, k); } else { NoReleaseGivesBack(s, ops, t, k); }
  }

  // The list a night's two attempts can leave behind.
  predicate Extends(before: seq<Night>, after: seq<Night>, k: Night, granted: bool) {
    || (!granted && after == before)
    || after == before + [k]
    || after == before + [k, k]
  }

  ghost predicate HasRoom(counters: map<Night, Counter>, nights: seq<Night>, capacity: int) {
    forall k :: k in nights ==> Count(counters, k) < capacity
  }

  // What an acquisition has achieved after its nights `done`.
  ghost predicate Acquired(s: Store, mid: Store, trace: seq<Op>, t: Token, done: seq<Night>,
                           net: Network, ttl: Seconds, capacity: int) {
    && mid == Exec(s, trace)
    && HoldsOnly(trace, t, ttl, net)
    && (KeepsToken(s, trace, t) ==> Stutters(done, Listed(mid, t)))
    && (net.lossless && KeepsToken(s, trace, t) ==> Listed(mid, t) == done)
    && (net.calm ==> net.lossless && (forall op :: op in trace ==> IsBy(op, t)) && HasRoom(s.counters, done, capacity))
  }

  lemma CalmCount(s: Store, mid: Store, trace: seq<Op>, t: Token, done: seq<Night>,
                  net: Network, ttl: Seconds, capacity: int, k: Night)
    requires Acquired(s, mid, trace, t, done, net, ttl, capacity)
    requires t !in s.tokens && After(done, k)
    ensures net.calm ==> Count(mid.counters, k) == Count(s.counters, k)
  {
    if net.calm {
      OwnRunsExpireNothing(s, trace, t);
      AloneChange(s, trace, t, k);
    }
  }

  lemma AcquiredStep(s: Store, mid: Store, after: Store, trace: seq<Op>, more: seq<Op>, t: Token,
                     done: seq<Night>, net: Network, ttl: Seconds, capacity: int, k: Night)
    requires Acquired(s, mid, trace, t, done, net, ttl, capacity)
    requires after == Exec(mid, more) && t !in s.tokens && After(done, k) && HoldsOnly(more, t, ttl, net)
    requires KeepsToken(mid, more, t) ==> Extends(Listed(mid, t), Listed(after, t), k, true)
    requires net.lossless && KeepsToken(mid, more, t) ==> Listed(after, t) == Listed(mid, t) + [k]
    requires net.calm ==> more == [Hold(t, k, ttl, capacity)] && Count(mid.counters, k) < capacity
    ensures Acquired(s, after, trace + more, t, done + [k], net, ttl, capacity)
  {
    ExecConcat(s, trace, more);
    CalmCount(s, mid, trace, t, done, net, ttl, capacity, k);
    if KeepsToken(s, trace + more, t) {
      KeepsTokenSplit(s, trace, more, t);
      StuttersSnoc(done, Listed(mid, t), k);
    }
  }

  // Whatever the others do meanwhile, a call takes no more off a counter than its token's list loses, and
  // its own net effect is that list, zero once rolled back, exactly when its releases find their nights
  // counted. Alone, it is, and is the whole change to the counters.
  lemma AcquisitionNetEffect(s: Store, trace: seq<Op>, t: Token, k: Night)
    requires t !in s.tokens
    ensures KeepsToken(s, trace, t) ==>
              && Times(Listed(Exec(s, trace), t), k) <= OwnChange(s, trace, t, k)
              && (OwnChange(s, trace, t, k) == Times(Listed(Exec(s, trace), t), k) <==> GivesBack(s, trace, t, k))
    ensures 0 <= Count(s.counters, k) && (forall op :: op in trace ==> IsBy(op, t)) ==>
              Count(Exec(s, trace).counters, k) == Count(s.counters, k) + Times(Listed(Exec(s, trace), t), k)
  {
    if KeepsToken(s, trace, t) { OwnChangeIsListedIff(s, trace, t, k); }
    if 0 <= Count(s.counters, k) && forall op :: op in trace ==> IsBy(op, t) { AloneChange(s, trace, t, k); }
  }

  lemma {:induction false} EachNightOnce(propertyId: nat, roomTypeId: nat, checkIn: int, checkOut: int, k: Night)
    ensures var nights := HoldKeys(propertyId, roomTypeId, checkIn, checkOut);
            && Times(nights, k) == (if k in nights then 1 else 0)
            && (k in nights ==> Day(checkIn) <= k.day)
    decreases checkOut - checkIn
  {
    if checkIn < checkOut {
      EachNightOnce(propertyId, roomTypeId, checkIn + DAY, checkOut, k);
      NextDay(checkIn);
    }
  }

  // A successful acquisition whose list has not expired has added exactly one to each of its nights'
  // counters and nothing to any other, whatever the others did; a lost reply can make that two.
  lemma SuccessAddsOnePerNight(s: Store, trace: seq<Op>, t: Token, propertyId: nat, roomTypeId: nat,
                               checkIn: int, checkOut: int, net: Network, ttl: Seconds, capacity: int, k: Night)
    requires t !in s.tokens && KeepsToken(s, trace, t)
    requires Acquired(s, Exec(s, trace), trace, t, HoldKeys(propertyId, roomTypeId, checkIn, checkOut), net, ttl, capacity)
    ensures var change, nights := OwnChange(s, trace, t, k), HoldKeys(propertyId, roomTypeId, checkIn, checkOut);
            && (k !in nights ==> change == 0)
            && (k in nights ==> 1 <= change <= if net.lossless then 1 else 2)
  {
    EachNightOnce(propertyId, roomTypeId, checkIn, checkOut, k);
    OwnChangeIsListedIff(s, trace, t, k);
    NoReleaseGivesBack(s, trace, t, k);
  }

  lemma NextNight(propertyId: nat, roomTypeId: nat, checkIn: int, checkOut: int, d: int,
                  nights: seq<Night>, done: seq<Night>)
    requires checkIn < checkOut && d < checkOut
    requires nights == HoldKeys(propertyId, roomTypeId, checkIn, checkOut)
    requires nights == done + HoldKeys(propertyId, roomTypeId, d, checkOut)
    ensures var k := Night(propertyId, roomTypeId, Day(d));
            && After(done, k) && k in nights
            && nights == done + [k] + HoldKeys(propertyId, roomTypeId, d + DAY, checkOut)
  {
    var k := Night(propertyId, roomTypeId, Day(d));
    var rest := HoldKeys(propertyId, roomTypeId, d, checkOut);
    HoldKeysAreConsecutive(propertyId, roomTypeId, checkIn, checkOut);
    assert rest == [k] + HoldKeys(propertyId, roomTypeId, d + DAY, checkOut);
    assert nights[|done|] == rest[0];
    forall q | q in done ensures q.day < k.day {
      var i :| 0 <= i < |done| && done[i] == q;
      assert nights[i] == done[i];
    }
  }
}

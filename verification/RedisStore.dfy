// The Redis side of the fast-path hold engine: the two Lua scripts as atomic state changes, and
// runs of any length made of them and of the passing of time.
module RedisStore {
  import opened Prelude
  import opened StayNights

  type Token = string

  // EXPIRE deletes a key when its argument is not positive; the adapter never passes one.
  type Seconds = s: int | 0 < s witness 1

  datatype Counter = Counter(count: int, expiry: int)

  datatype TokenList = TokenList(nights: seq<Night>, expiry: int)

  // Only keys whose expiry lies after `now` are present.
  datatype Store = Store(now: int, counters: map<Night, Counter>, tokens: map<Token, TokenList>)

  // tonumber(redis.call("GET", key)) or 0
  function Count(counters: map<Night, Counter>, k: Night): int {
    if k in counters then counters[k].count else 0
  }

  // LRANGE tokenKey 0 -1
  function Listed(s: Store, t: Token): seq<Night> {
    if t in s.tokens then s.tokens[t].nights else []
  }

  ghost function Times(nights: seq<Night>, k: Night): nat { multiset(nights)[k] }

  // inventory_hold.lua: the new store and the reply.
  function HoldScript(s: Store, k: Night, t: Token, ttl: Seconds, capacity: int): (Store, int) {
    if Count(s.counters, k) >= capacity then (s, 0)
    else (s.(counters := s.counters[k := Counter(Count(s.counters, k) + 1, s.now + ttl)],
             tokens := s.tokens[t := TokenList(Listed(s, t) + [k], s.now + ttl)]), 1)
  }

  // One turn of the release loop: DECR only a positive counter, which keeps its expiry.
  function Decr(counters: map<Night, Counter>, k: Night): map<Night, Counter> {
    if Count(counters, k) > 0 then counters[k := counters[k].(count := counters[k].count - 1)] else counters
  }

  function DecrAll(counters: map<Night, Counter>, nights: seq<Night>): map<Night, Counter> {
    if nights == [] then counters
    else Decr(DecrAll(counters, nights[..|nights| - 1]), nights[|nights| - 1])
  }

  // inventory_release.lua
  function ReleaseScript(s: Store, t: Token): (Store, int) {
    if Listed(s, t) == [] then (s, 0)
    else (s.(counters := DecrAll(s.counters, Listed(s, t)), tokens := s.tokens - {t}), 1)
  }

  // Time passes: every key whose expiry has come is gone.
  function Elapse(s: Store, seconds: nat): Store {
    var now := s.now + seconds;
    Store(now,
          map k | k in s.counters && now < s.counters[k].expiry :: s.counters[k],
          map t | t in s.tokens && now < s.tokens[t].expiry :: s.tokens[t])
  }

  datatype Op =
    | Hold(token: Token, night: Night, ttl: Seconds, capacity: int)
    | Release(token: Token)
    | Tick(seconds: nat)

  function Apply(s: Store, op: Op): Store {
    match op
    case Hold(t, k, ttl, capacity) => HoldScript(s, k, t, ttl, capacity).0
    case Release(t) => ReleaseScript(s, t).0
    case Tick(seconds) => Elapse(s, seconds)
  }

  // Scripts are atomic, so every interleaving of any number of clients is a sequence of these.
  function Exec(s: Store, ops: seq<Op>): Store {
    if ops == [] then s else Apply(Exec(s, ops[..|ops| - 1]), ops[|ops| - 1])
  }

  lemma ExecSnoc(s: Store, ops: seq<Op>, op: Op)
    ensures Exec(s, ops + [op]) == Apply(Exec(s, ops), op)
  {
    assert (ops + [op])[..|ops|] == ops;
  }

  lemma {:induction false} ExecConcat(s: Store, a: seq<Op>, b: seq<Op>)
    ensures Exec(s, a + b) == Exec(Exec(s, a), b)
  {
    if b == [] {
      assert a + b == a;
    } else {
      ExecConcat(s, a, b[..|b| - 1]);
      assert (a + b)[..|a + b| - 1] == a + b[..|b| - 1];
    }
  }

  // The release loop takes every night's multiplicity off its counter, never below zero, and
  // keeps each counter's expiry.
  lemma {:induction false} DecrAllEffect(counters: map<Night, Counter>, nights: seq<Night>, k: Night)
    ensures DecrAll(counters, nights).Keys == counters.Keys
    ensures k in counters ==> DecrAll(counters, nights)[k].expiry == counters[k].expiry
    ensures Count(DecrAll(counters, nights), k) ==
            if Count(counters, k) <= 0 then Count(counters, k) else Max(0, Count(counters, k) - Times(nights, k))
  {
    if nights != [] {
      var n := |nights| - 1;
      DecrAllEffect(counters, nights[..n], k);
      assert nights == nights[..n] + [nights[n]];
    }
  }

  // Releasing twice is releasing once: the script retried after a lost reply changes nothing.
  lemma ReleaseIsIdempotent(s: Store, t: Token)
    requires t in s.tokens ==> s.tokens[t].nights != []
    ensures ReleaseScript(ReleaseScript(s, t).0, t) == (ReleaseScript(s, t).0, 0)
    ensures t !in ReleaseScript(s, t).0.tokens
    ensures ReleaseScript(s, t).1 == if t in s.tokens then 1 else 0
  {
  }

  class Redis {
    var now: int
    var counters: map<Night, Counter>
    var tokens: map<Token, TokenList>

    function State(): Store reads this { Store(now, counters, tokens) }

    constructor ()
      ensures State() == Store(0, map[], map[])
    {
      now, counters, tokens := 0, map[], map[];
    }

    method InventoryHold(k: Night, t: Token, ttl: Seconds, capacity: int) returns (reply: int)
      modifies this
      ensures (State(), reply) == HoldScript(old(State()), k, t, ttl, capacity)
    {
      var current := if k in counters then counters[k].count else 0;
      if current >= capacity {
        return 0;
      }
      counters := counters[k := Counter(current + 1, now + ttl)];
      var list := if t in tokens then tokens[t].nights else [];
      tokens := tokens[t := TokenList(list + [k], now + ttl)];
      return 1;
    }

    method InventoryRelease(t: Token) returns (reply: int)
      modifies this
      ensures (State(), reply) == ReleaseScript(old(State()), t)
    {
      var holdKeys := if t in tokens then tokens[t].nights else [];
      if |holdKeys| == 0 {
        return 0;
      }
      for i := 0 to |holdKeys|
        invariant now == old(now) && tokens == old(tokens)
        invariant counters == DecrAll(old(counters), holdKeys[..i])
      {
        assert holdKeys[..i + 1][..i] == holdKeys[..i];
        var key := holdKeys[i];
        var count := if key in counters then counters[key].count else 0;
        if count > 0 {
          counters := counters[key := counters[key].(count := count - 1)];
        }
      }
      assert holdKeys[..|holdKeys|] == holdKeys;
      tokens := tokens - {t};
      return 1;
    }

    method Advance(seconds: nat)
      modifies this
      ensures State() == Elapse(old(State()), seconds)
    {
      now := now + seconds;
      counters := map k | k in counters && now < counters[k].expiry :: counters[k];
      tokens := map t | t in tokens && now < tokens[t].expiry :: tokens[t];
    }

    // What the other clients, and the clock, do between two calls of ours.
    method Perform(ops: seq<Op>)
      modifies this
      ensures State() == Exec(old(State()), ops)
    {
      for i := 0 to |ops|
        invariant State() == Exec(old(State()), ops[..i])
      {
        ExecSnoc(old(State()), ops[..i], ops[i]);
        assert ops[..i] + [ops[i]] == ops[..i + 1];
        match ops[i] {
          case Hold(t, k, ttl, capacity) => var _ := InventoryHold(k, t, ttl, capacity);
          case Release(t) => var _ := InventoryRelease(t);
          case Tick(seconds) => Advance(seconds);
        }
      }
      assert ops[..|ops|] == ops;
    }
  }
}

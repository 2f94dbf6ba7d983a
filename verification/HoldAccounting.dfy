// What the two scripts keep, over every run: the counters as a cached sum of the token lists,
// per-token accounting, and what expiry does to both.
module HoldAccounting {
  import opened Prelude
  import opened StayNights
  import opened RedisStore

  // ---- the total multiplicity of a night over all token lists ----

  ghost function AnyToken(tokens: map<Token, TokenList>): (t: Token)
    requires tokens != map[]
    ensures t in tokens
  {
    var t :| t in tokens; t
  }

  ghost function Total(tokens: map<Token, TokenList>, k: Night): nat
    decreases tokens.Keys
  {
    if tokens == map[] then 0
    else
      var t := AnyToken(tokens);
      Times(tokens[t].nights, k) + Total(tokens - {t}, k)
  }

  // The order in which the tokens are added up does not matter.
  lemma {:induction false} TotalSplit(tokens: map<Token, TokenList>, t: Token, k: Night)
    requires t in tokens
    ensures Total(tokens, k) == Times(tokens[t].nights, k) + Total(tokens - {t}, k)
    decreases tokens.Keys
  {
    var u := AnyToken(tokens);
    if u != t {
      TotalSplit(tokens - {u}, t, k);
      TotalSplit(tokens - {t}, u, k);
      assert tokens - {u} - {t} == tokens - {t} - {u};
    }
  }

  lemma {:induction false} TotalShrinks(part: map<Token, TokenList>, tokens: map<Token, TokenList>, k: Night)
    requires forall t :: t in part ==> t in tokens && part[t] == tokens[t]
    ensures Total(part, k) <= Total(tokens, k)
    decreases part.Keys
  {
    if part != map[] {
      var t := AnyToken(part);
      TotalSplit(tokens, t, k);
      TotalShrinks(part - {t}, tokens - {t}, k);
    }
  }

  lemma {:induction false} TotalZeroIff(tokens: map<Token, TokenList>, k: Night)
    ensures Total(tokens, k) == 0 <==> forall t :: t in tokens ==> k !in tokens[t].nights
    decreases tokens.Keys
  {
    forall t | t in tokens ensures Total(tokens, k) == 0 ==> k !in tokens[t].nights {
      TotalSplit(tokens, t, k);
    }
    if tokens != map[] {
      var t := AnyToken(tokens);
      TotalZeroIff(tokens - {t}, k);
    }
  }

  // The total with t's own list taken out.
  ghost function Others(s: Store, t: Token, k: Night): nat { Total(s.tokens - {t}, k) }

  lemma TotalIsOwnPlusOthers(s: Store, t: Token, k: Night)
    ensures Total(s.tokens, k) == Times(Listed(s, t), k) + Others(s, t, k)
  {
    if t in s.tokens { TotalSplit(s.tokens, t, k); } else { assert s.tokens - {t} == s.tokens; }
  }

  // ---- the invariants ----

  // Every counter is exactly the number of token entries for its night.
  ghost predicate Exact(s: Store) { forall k :: Count(s.counters, k) == Total(s.tokens, k) }

  // Night k's counter is at least that.
  ghost predicate Dominates(s: Store, k: Night) { Total(s.tokens, k) <= Count(s.counters, k) }

  // Letting `seconds` pass removes no key.
  predicate NothingExpires(s: Store, seconds: nat) {
    Elapse(s, seconds) == s.(now := s.now + seconds)
  }

  // No expiry fires anywhere in the run.
  predicate Quiet(s: Store, ops: seq<Op>) {
    if ops == [] then true
    else
      var n := |ops| - 1;
      Quiet(s, ops[..n]) && (ops[n].Tick? ==> NothingExpires(Exec(s, ops[..n]), ops[n].seconds))
  }

  lemma HoldEffect(s: Store, t: Token, k: Night, ttl: Seconds, capacity: int, q: Night)
    ensures var (s', reply) := HoldScript(s, k, t, ttl, capacity);
            var d := if reply == 1 && q == k then 1 else 0;
            && Count(s'.counters, q) == Count(s.counters, q) + d
            && Times(Listed(s', t), q) == Times(Listed(s, t), q) + d
            && Others(s', t, q) == Others(s, t, q)
            && Total(s'.tokens, q) == Total(s.tokens, q) + d
  {
    var (s', reply) := HoldScript(s, k, t, ttl, capacity);
    TotalIsOwnPlusOthers(s, t, q);
    TotalIsOwnPlusOthers(s', t, q);
    assert s'.tokens - {t} == s.tokens - {t};
  }

  lemma ReleaseEffect(s: Store, t: Token, q: Night)
    ensures var s' := ReleaseScript(s, t).0;
            var v := Count(s.counters, q);
            && Count(s'.counters, q) == (if v <= 0 then v else Max(0, v - Times(Listed(s, t), q)))
            && Listed(s', t) == []
            && Others(s', t, q) == Others(s, t, q) == Total(s'.tokens, q)
  {
    var s' := ReleaseScript(s, t).0;
    DecrAllEffect(s.counters, Listed(s, t), q);
    TotalIsOwnPlusOthers(s', t, q);
    assert s'.tokens - {t} == s.tokens - {t};
  }

  // ---- counters are the sum of the token lists, under every interleaving ----

  // Also when a script runs twice because its reply was lost: both runs are in `ops`.
  lemma {:induction false} CountersAreSumOfTokenLists(s: Store, ops: seq<Op>)
    requires Exact(s) && Quiet(s, ops)
    ensures Exact(Exec(s, ops))
  {
    if ops != [] {
      var n := |ops| - 1;
      CountersAreSumOfTokenLists(s, ops[..n]);
      var mid := Exec(s, ops[..n]);
      forall q ensures Count(Apply(mid, ops[n]).counters, q) == Total(Apply(mid, ops[n]).tokens, q) {
        match ops[n]
        case Hold(t, k, ttl, capacity) => HoldEffect(mid, t, k, ttl, capacity, q);
        case Release(t) => ReleaseEffect(mid, t, q); TotalIsOwnPlusOthers(mid, t, q);
        case Tick(seconds) => assert NothingExpires(mid, seconds);
      }
    }
  }

  lemma ScriptsKeepDominance(s: Store, op: Op, k: Night)
    requires Dominates(s, k) && !op.Tick?
    ensures Dominates(Apply(s, op), k)
  {
    match op
    case Hold(t, q, ttl, capacity) => HoldEffect(s, t, q, ttl, capacity, k);
    case Release(t) => ReleaseEffect(s, t, k); TotalIsOwnPlusOthers(s, t, k);
  }

  // ---- per-token accounting ----

  function Change(s: Store, op: Op, k: Night): int {
    Count(Apply(s, op).counters, k) - Count(s.counters, k)
  }

  predicate IsBy(op: Op, t: Token) { !op.Tick? && op.token == t }

  // The sum of the changes to k's counter made by t's own operations in the run.
  function OwnChange(s: Store, ops: seq<Op>, t: Token, k: Night): int {
    if ops == [] then 0
    else
      var n := |ops| - 1;
      OwnChange(s, ops[..n], t, k) + if IsBy(ops[n], t) then Change(Exec(s, ops[..n]), ops[n], k) else 0
  }

  // Time does not take t's own list away; any other key may expire.
  predicate KeepsTokenAt(s: Store, op: Op, t: Token) {
    op.Tick? && t in s.tokens ==> t in Elapse(s, op.seconds).tokens
  }

  predicate KeepsToken(s: Store, ops: seq<Op>, t: Token) {
    if ops == [] then true
    else
      var n := |ops| - 1;
      KeepsToken(s, ops[..n], t) && KeepsTokenAt(Exec(s, ops[..n]), ops[n], t)
  }

  // t's release, if it is one, finds on k's counter what its list has of k: the script's own guard
  // never withholds a decrement.
  ghost predicate GivesBackAt(s: Store, op: Op, t: Token, k: Night) {
    op == Release(t) ==> Times(Listed(s, t), k) <= Max(0, Count(s.counters, k))
  }

  ghost predicate GivesBack(s: Store, ops: seq<Op>, t: Token, k: Night) {
    if ops == [] then true
    else
      var n := |ops| - 1;
      GivesBack(s, ops[..n], t, k) && GivesBackAt(Exec(s, ops[..n]), ops[n], t, k)
  }

  // What t's list has gained of k in the run.
  ghost function Gain(s: Store, ops: seq<Op>, t: Token, k: Night): int {
    Times(Listed(Exec(s, ops), t), k) - Times(Listed(s, t), k)
  }

  lemma ChangeStep(s: Store, op: Op, t: Token, k: Night)
    requires KeepsTokenAt(s, op, t)
    ensures var gain := Times(Listed(Apply(s, op), t), k) - Times(Listed(s, t), k);
            var change := if IsBy(op, t) then Change(s, op, k) else 0;
            gain <= change && (gain == change <==> GivesBackAt(s, op, t, k))
  {
    match op
    case Hold(u, q, ttl, capacity) => HoldEffect(s, u, q, ttl, capacity, k);
    case Release(u) => ReleaseEffect(s, u, k);
    case Tick(seconds) =>
  }

  // Whatever other clients do in between, and whichever other keys expire: a token's operations never
  // take more off a counter than its list loses, and their net effect is the list's gain exactly when
  // its releases find their nights counted.
  lemma {:induction false} OwnChangeIsListedIff(s: Store, ops: seq<Op>, t: Token, k: Night)
    requires KeepsToken(s, ops, t)
    ensures Gain(s, ops, t, k) <= OwnChange(s, ops, t, k)
    ensures OwnChange(s, ops, t, k) == Gain(s, ops, t, k) <==> GivesBack(s, ops, t, k)
  {
    if ops != [] {
      var n := |ops| - 1;
      OwnChangeIsListedIff(s, ops[..n], t, k);
      ChangeStep(Exec(s, ops[..n]), ops[n], t, k);
    }
  }

  // A token absent before and after has taken nothing off any counter, and has had zero net effect on
  // it exactly then.
  lemma GoneMeansNoNetEffectIff(s: Store, ops: seq<Op>, t: Token, k: Night)
    requires KeepsToken(s, ops, t) && t !in s.tokens && t !in Exec(s, ops).tokens
    ensures 0 <= OwnChange(s, ops, t, k)
    ensures OwnChange(s, ops, t, k) == 0 <==> GivesBack(s, ops, t, k)
  {
    OwnChangeIsListedIff(s, ops, t, k);
  }

  // They do find them counted while k itself is never orphaned.
  lemma {:induction false} UnorphanedGivesBack(s: Store, ops: seq<Op>, t: Token, k: Night)
    requires Dominates(s, k) && NeverOrphans(s, ops, k)
    ensures GivesBack(s, ops, t, k)
  {
    if ops != [] {
      var n := |ops| - 1;
      UnorphanedGivesBack(s, ops[..n], t, k);
      DominanceThroughoutIff(s, ops[..n], k);
      TotalIsOwnPlusOthers(Exec(s, ops[..n]), t, k);
    }
  }

  lemma OwnChangeIsListed(s: Store, ops: seq<Op>, t: Token, k: Night)
    requires Dominates(s, k) && NeverOrphans(s, ops, k) && KeepsToken(s, ops, t)
    ensures OwnChange(s, ops, t, k) == Gain(s, ops, t, k)
  {
    OwnChangeIsListedIff(s, ops, t, k);
    UnorphanedGivesBack(s, ops, t, k);
  }

  lemma {:induction false} NoReleaseGivesBack(s: Store, ops: seq<Op>, t: Token, k: Night)
    requires forall op :: op in ops ==> op != Release(t)
    ensures GivesBack(s, ops, t, k)
  {
    if ops != [] {
      var before := ops[..|ops| - 1];
      assert forall op :: op in before ==> op in ops;
      assert ops[|ops| - 1] in ops;
      NoReleaseGivesBack(s, before, t, k);
    }
  }

  // Seconds since t's last granted hold in the run.
  function SinceHold(s: Store, ops: seq<Op>, t: Token): nat {
    if ops == [] then 0
    else
      var n := |ops| - 1;
      match ops[n]
      case Tick(seconds) => SinceHold(s, ops[..n], t) + seconds
      case Hold(u, k, _, capacity) =>
        if u == t && Count(Exec(s, ops[..n]).counters, k) < capacity then 0 else SinceHold(s, ops[..n], t)
      case Release(_) => SinceHold(s, ops[..n], t)
  }

  // t's holds use `ttl`, and less than that passes between one of them and the next, or the end of
  // its list.
  predicate Prompt(s: Store, ops: seq<Op>, t: Token, ttl: Seconds) {
    if ops == [] then true
    else
      var n := |ops| - 1;
      && Prompt(s, ops[..n], t, ttl)
      && (ops[n].Hold? && ops[n].token == t ==> ops[n].ttl == ttl)
      && (ops[n].Tick? && t in Exec(s, ops[..n]).tokens ==> SinceHold(s, ops[..n], t) + ops[n].seconds < ttl)
  }

  // Then t's list never expires, and by the same measure: it does in a run that is prompt but for
  // its last tick.
  lemma {:induction false} PromptKeepsToken(s: Store, ops: seq<Op>, t: Token, ttl: Seconds)
    requires t !in s.tokens && Prompt(s, ops, t, ttl)
    ensures KeepsToken(s, ops, t)
    ensures var end := Exec(s, ops);
            && (t in end.tokens ==> end.tokens[t].expiry == end.now - SinceHold(s, ops, t) + ttl)
            && forall seconds: nat :: t in end.tokens ==>
                 (KeepsTokenAt(end, Tick(seconds), t) <==> SinceHold(s, ops, t) + seconds < ttl)
  {
    if ops != [] {
      PromptKeepsToken(s, ops[..|ops| - 1], t, ttl);
    }
  }

  function Pushed(s: Store, op: Op, t: Token, k: Night): nat {
    if op.Hold? && op.token == t && op.night == k && Count(s.counters, k) < op.capacity then 1 else 0
  }

  function Credited(s: Store, op: Op, t: Token, k: Night): int {
    if op.Release? && op.token == t then -Change(s, op, k) else 0
  }

  // How often t's holds counted night k, and how much t's releases gave back, in the run.
  function Pushes(s: Store, ops: seq<Op>, t: Token, k: Night): nat {
    if ops == [] then 0
    else
      var n := |ops| - 1;
      Pushes(s, ops[..n], t, k) + Pushed(Exec(s, ops[..n]), ops[n], t, k)
  }

  function Credits(s: Store, ops: seq<Op>, t: Token, k: Night): int {
    if ops == [] then 0
    else
      var n := |ops| - 1;
      Credits(s, ops[..n], t, k) + Credited(Exec(s, ops[..n]), ops[n], t, k)
  }

  lemma CreditStep(s: Store, op: Op, t: Token, k: Night)
    ensures 0 <= Credited(s, op, t, k)
    ensures Credited(s, op, t, k) + Times(Listed(Apply(s, op), t), k) <= Pushed(s, op, t, k) + Times(Listed(s, t), k)
  {
    match op
    case Hold(u, q, ttl, capacity) => HoldEffect(s, u, q, ttl, capacity, k);
    case Release(u) => ReleaseEffect(s, u, k);
    case Tick(seconds) =>
  }

  // No token's capacity is credited back twice: over every schedule of holds, releases and
  // expiries, with no assumption on clocks, what releases return never exceeds what was taken.
  lemma {:induction false} NoDoubleCredit(s: Store, ops: seq<Op>, t: Token, k: Night)
    ensures 0 <= Credits(s, ops, t, k)
    ensures Credits(s, ops, t, k) + Times(Listed(Exec(s, ops), t), k) <= Pushes(s, ops, t, k) + Times(Listed(s, t), k)
  {
    if ops != [] {
      var n := |ops| - 1;
      NoDoubleCredit(s, ops[..n], t, k);
      CreditStep(Exec(s, ops[..n]), ops[n], t, k);
    }
  }

  // ---- expiry: exactly when a counter keeps dominating the token lists ----

  // Letting `seconds` pass takes away k's counter under a surviving token that lists k.
  predicate Orphans(s: Store, seconds: nat, k: Night) {
    k !in Elapse(s, seconds).counters && exists t :: t in Elapse(s, seconds).tokens && k in s.tokens[t].nights
  }

  lemma TickKeepsDominanceIff(s: Store, seconds: nat, k: Night)
    requires Dominates(s, k)
    ensures Dominates(Elapse(s, seconds), k) <==> !Orphans(s, seconds, k)
  {
    var s' := Elapse(s, seconds);
    TotalZeroIff(s'.tokens, k);
    TotalShrinks(s'.tokens, s.tokens, k);
  }

  predicate NeverOrphans(s: Store, ops: seq<Op>, k: Night) {
    if ops == [] then true
    else
      var n := |ops| - 1;
      NeverOrphans(s, ops[..n], k) && (ops[n].Tick? ==> !Orphans(Exec(s, ops[..n]), ops[n].seconds, k))
  }

  // In every state of the run.
  ghost predicate AlwaysDominates(s: Store, ops: seq<Op>, k: Night) {
    Dominates(Exec(s, ops), k) && (ops == [] || AlwaysDominates(s, ops[..|ops| - 1], k))
  }

  // With no assumption on TTLs or clocks: a night's counter dominates the lists in every state of a run
  // exactly when it never expires under a token that lists it.
  lemma {:induction false} DominanceThroughoutIff(s: Store, ops: seq<Op>, k: Night)
    requires Dominates(s, k)
    ensures AlwaysDominates(s, ops, k) <==> NeverOrphans(s, ops, k)
  {
    if ops != [] {
      var n := |ops| - 1;
      DominanceThroughoutIff(s, ops[..n], k);
      var mid := Exec(s, ops[..n]);
      if NeverOrphans(s, ops[..n], k) {
        if ops[n].Tick? { TickKeepsDominanceIff(mid, ops[n].seconds, k); } else { ScriptsKeepDominance(mid, ops[n], k); }
      }
    }
  }

  lemma PrefixStep(s: Store, ops: seq<Op>, i: nat)
    requires i < |ops|
    ensures Exec(s, ops[..i + 1]) == Apply(Exec(s, ops[..i]), ops[i])
  {
    assert ops[..i + 1][..i] == ops[..i];
  }

  // When k was last granted in the run, and with what TTL.
  function LastGrant(s: Store, ops: seq<Op>, k: Night): Option<(int, Seconds)> {
    if ops == [] then None
    else
      var n := |ops| - 1;
      match ops[n]
      case Hold(_, q, ttl, capacity) =>
        if q == k && Count(Exec(s, ops[..n]).counters, k) < capacity then Some((Exec(s, ops[..n]).now, ttl))
        else LastGrant(s, ops[..n], k)
      case _ => LastGrant(s, ops[..n], k)
  }

  // A counter lives exactly until its TTL has passed since the last hold granted on it, whoever has
  // released what meanwhile.
  lemma {:induction false} CounterLivesIff(s: Store, ops: seq<Op>, k: Night)
    requires k !in s.counters
    ensures var end, last := Exec(s, ops), LastGrant(s, ops, k);
            && (k in end.counters <==> last.Some? && end.now < last.value.0 + last.value.1)
            && (k in end.counters ==> end.counters[k].expiry == last.value.0 + last.value.1)
  {
    if ops != [] {
      var n := |ops| - 1;
      CounterLivesIff(s, ops[..n], k);
      if ops[n].Release? { DecrAllEffect(Exec(s, ops[..n]).counters, Listed(Exec(s, ops[..n]), ops[n].token), k); }
    }
  }

  // ---- one TTL, and a clock that stands still within an acquisition ----

  // Holds that count k, or extend a token that lists it, use `ttl`; and such a token is extended only at
  // the instant of its previous hold. Nothing is asked of holds that have nothing to do with k.
  predicate PunctualOp(s: Store, op: Op, ttl: Seconds, k: Night) {
    op.Hold? && (op.night == k || k in Listed(s, op.token)) ==>
      op.ttl == ttl && (k in Listed(s, op.token) ==> s.tokens[op.token].expiry == s.now + ttl)
  }

  predicate Punctual(s: Store, ops: seq<Op>, ttl: Seconds, k: Night) {
    if ops == [] then true
    else
      var n := |ops| - 1;
      Punctual(s, ops[..n], ttl, k) && PunctualOp(Exec(s, ops[..n]), ops[n], ttl, k)
  }

  // k's counter outlives every token listing k.
  ghost predicate Outlives(s: Store, ttl: Seconds, k: Night) {
    forall t :: t in s.tokens && k in s.tokens[t].nights ==> OutlivesToken(s, ttl, k, t)
  }

  ghost predicate OutlivesToken(s: Store, ttl: Seconds, k: Night, t: Token)
    requires t in s.tokens
  {
    s.tokens[t].expiry <= s.now + ttl && k in s.counters && s.tokens[t].expiry <= s.counters[k].expiry
  }

  lemma HoldKeepsOutliving(s: Store, op: Op, ttl: Seconds, k: Night)
    requires op.Hold? && Outlives(s, ttl, k) && PunctualOp(s, op, ttl, k)
    ensures Outlives(Apply(s, op), ttl, k)
  {
    var s' := Apply(s, op);
    forall t | t in s'.tokens && k in s'.tokens[t].nights ensures OutlivesToken(s', ttl, k, t) {
      if t != op.token || k in Listed(s, t) { assert OutlivesToken(s, ttl, k, t); }
    }
  }

  lemma OutlivesStep(s: Store, op: Op, ttl: Seconds, k: Night)
    requires Outlives(s, ttl, k) && PunctualOp(s, op, ttl, k)
    ensures Outlives(Apply(s, op), ttl, k)
  {
    match op
    case Hold(_, _, _, _) => HoldKeepsOutliving(s, op, ttl, k);
    case Release(u) =>
      DecrAllEffect(s.counters, Listed(s, u), k);
      forall t | t in Apply(s, op).tokens && k in s.tokens[t].nights ensures OutlivesToken(Apply(s, op), ttl, k, t) {
        assert OutlivesToken(s, ttl, k, t);
      }
    case Tick(seconds) =>
      forall t | t in Elapse(s, seconds).tokens && k in s.tokens[t].nights
        ensures OutlivesToken(Elapse(s, seconds), ttl, k, t) {
        assert OutlivesToken(s, ttl, k, t);
      }
  }

  lemma OutlivesMeansNoOrphan(s: Store, seconds: nat, ttl: Seconds, k: Night)
    requires Outlives(s, ttl, k)
    ensures !Orphans(s, seconds, k)
  {
    forall t | t in Elapse(s, seconds).tokens && k in s.tokens[t].nights ensures k in Elapse(s, seconds).counters {
      assert OutlivesToken(s, ttl, k, t);
    }
  }

  lemma {:induction false} PunctualRunsNeverOrphan(s: Store, ops: seq<Op>, ttl: Seconds, k: Night)
    requires Outlives(s, ttl, k) && Punctual(s, ops, ttl, k)
    ensures Outlives(Exec(s, ops), ttl, k) && NeverOrphans(s, ops, k)
  {
    if ops != [] {
      var n := |ops| - 1;
      PunctualRunsNeverOrphan(s, ops[..n], ttl, k);
      OutlivesStep(Exec(s, ops[..n]), ops[n], ttl, k);
      if ops[n].Tick? { OutlivesMeansNoOrphan(Exec(s, ops[..n]), ops[n].seconds, ttl, k); }
    }
  }

  // The largest capacity passed for k so far, or `floor` if that is larger.
  function MaxCapacity(ops: seq<Op>, k: Night, floor: int): int {
    if ops == [] then floor
    else
      var rest := MaxCapacity(ops[..|ops| - 1], k, floor);
      var op := ops[|ops| - 1];
      if op.Hold? && op.night == k then Max(rest, op.capacity) else rest
  }

  lemma {:induction false} CountersNeverExceedCapacity(s: Store, ops: seq<Op>, k: Night)
    ensures Count(Exec(s, ops).counters, k) <= MaxCapacity(ops, k, Max(0, Count(s.counters, k)))
    ensures 0 <= MaxCapacity(ops, k, Max(0, Count(s.counters, k)))
  {
    if ops != [] {
      var n := |ops| - 1;
      CountersNeverExceedCapacity(s, ops[..n], k);
      var mid := Exec(s, ops[..n]);
      match ops[n]
      case Hold(u, q, ttl, capacity) => HoldEffect(mid, u, q, ttl, capacity, k);
      case Release(u) => ReleaseEffect(mid, u, k);
      case Tick(_) =>
    }
  }

  // From an empty store, through any mix of holds, releases, rollbacks and expiries, while k's counter
  // never expires under a token that lists k: live holds of k never exceed the largest capacity ever
  // passed for it.
  lemma LiveHoldsNeverExceedCapacity(now: int, ops: seq<Op>, k: Night)
    requires NeverOrphans(Store(now, map[], map[]), ops, k)
    ensures var end := Exec(Store(now, map[], map[]), ops);
            Total(end.tokens, k) <= Count(end.counters, k) <= MaxCapacity(ops, k, 0)
  {
    var s := Store(now, map[], map[]);
    DominanceThroughoutIff(s, ops, k);
    CountersNeverExceedCapacity(s, ops, k);
  }

  // ---- exactly when a night can be oversold ----

  // The store after n more holds of k with that capacity.
  function Filled(s: Store, t: Token, k: Night, ttl: Seconds, capacity: int, n: nat): Store {
    if n == 0 then s else Apply(Filled(s, t, k, ttl, capacity, n - 1), Hold(t, k, ttl, capacity))
  }

  // After as many as k's counter still admits.
  function FilledUp(s: Store, t: Token, k: Night, ttl: Seconds, capacity: int): Store {
    Filled(s, t, k, ttl, capacity, if Count(s.counters, k) <= capacity then capacity - Count(s.counters, k) else 0)
  }

  lemma HoldCounts(s: Store, t: Token, k: Night, ttl: Seconds, capacity: int)
    requires Count(s.counters, k) < capacity
    ensures var after := Apply(s, Hold(t, k, ttl, capacity));
            Count(after.counters, k) == Count(s.counters, k) + 1 && Total(after.tokens, k) == Total(s.tokens, k) + 1
  {
    HoldEffect(s, t, k, ttl, capacity, k);
  }

  lemma {:induction false} FillEffect(s: Store, t: Token, k: Night, ttl: Seconds, capacity: int, n: nat)
    requires Count(s.counters, k) + n <= capacity
    ensures var end := Filled(s, t, k, ttl, capacity, n);
            Count(end.counters, k) == Count(s.counters, k) + n && Total(end.tokens, k) == Total(s.tokens, k) + n
  {
    if n > 0 {
      FillEffect(s, t, k, ttl, capacity, n - 1);
      var mid := Filled(s, t, k, ttl, capacity, n - 1);
      assert Count(mid.counters, k) == Count(s.counters, k) + (n - 1);
      HoldCounts(mid, t, k, ttl, capacity);
      assert Filled(s, t, k, ttl, capacity, n) == Apply(mid, Hold(t, k, ttl, capacity));
    }
  }

  // After any run, a capacity no smaller than any passed so far is exceeded by filling k up to it exactly
  // when k's counter is below its live holds.
  lemma FillingOversellsIff(now: int, ops: seq<Op>, t: Token, k: Night, ttl: Seconds, capacity: int)
    requires MaxCapacity(ops, k, 0) <= capacity
    ensures var s := Exec(Store(now, map[], map[]), ops);
            var end := FilledUp(s, t, k, ttl, capacity);
            Count(end.counters, k) == capacity && (Total(end.tokens, k) > capacity <==> !Dominates(s, k))
  {
    CountersNeverExceedCapacity(Store(now, map[], map[]), ops, k);
    FillUpEffect(Exec(Store(now, map[], map[]), ops), t, k, ttl, capacity);
  }

  lemma FillUpEffect(s: Store, t: Token, k: Night, ttl: Seconds, capacity: int)
    requires Count(s.counters, k) <= capacity
    ensures var end := FilledUp(s, t, k, ttl, capacity);
            && Count(end.counters, k) == capacity
            && Total(end.tokens, k) - capacity == Total(s.tokens, k) - Count(s.counters, k)
  {
    FillEffect(s, t, k, ttl, capacity, capacity - Count(s.counters, k));
  }

  // In no state of the run does filling k up oversell it.
  ghost predicate NeverOversells(s: Store, ops: seq<Op>, t: Token, k: Night, ttl: Seconds, capacity: int) {
    && Total(FilledUp(Exec(s, ops), t, k, ttl, capacity).tokens, k) <= capacity
    && (ops == [] || NeverOversells(s, ops[..|ops| - 1], t, k, ttl, capacity))
  }

  // So a night can never be oversold in a run exactly when its counter never expires under a token that
  // lists it.
  lemma NeverOversellsIff(now: int, ops: seq<Op>, t: Token, k: Night, ttl: Seconds, capacity: int)
    requires MaxCapacity(ops, k, 0) <= capacity
    ensures var s := Store(now, map[], map[]);
            NeverOversells(s, ops, t, k, ttl, capacity) <==> NeverOrphans(s, ops, k)
  {
    NeverOversellsDominates(now, ops, t, k, ttl, capacity);
    DominanceThroughoutIff(Store(now, map[], map[]), ops, k);
  }

  lemma {:induction false} NeverOversellsDominates(now: int, ops: seq<Op>, t: Token, k: Night, ttl: Seconds, capacity: int)
    requires MaxCapacity(ops, k, 0) <= capacity
    ensures var s := Store(now, map[], map[]);
            NeverOversells(s, ops, t, k, ttl, capacity) <==> AlwaysDominates(s, ops, k)
  {
    FillingOversellsIff(now, ops, t, k, ttl, capacity);
    if ops != [] { NeverOversellsDominates(now, ops[..|ops| - 1], t, k, ttl, capacity); }
  }

  // ---- without the still clock: a slow two-night acquisition ----

  function SlowRun(first: Night, second: Night): seq<Op> {
    [Hold("a", first, 900, 1), Tick(600), Hold("a", second, 900, 1), Tick(300), Hold("b", first, 900, 1)]
  }

  // The store after the first i operations of it.
  function SlowState(first: Night, second: Night, i: nat): Store {
    if i == 0 then Store(0, map[], map[])
    else if i <= 2 then
      Store(if i == 1 then 0 else 600, map[first := Counter(1, 900)], map["a" := TokenList([first], 900)])
    else if i == 3 then
      Store(600, map[first := Counter(1, 900), second := Counter(1, 1500)], map["a" := TokenList([first, second], 1500)])
    else if i == 4 then
      Store(900, map[second := Counter(1, 1500)], map["a" := TokenList([first, second], 1500)])
    else
      Store(900, map[second := Counter(1, 1500), first := Counter(1, 1800)],
            map["a" := TokenList([first, second], 1500), "b" := TokenList([first], 1800)])
  }

  lemma SlowStep(first: Night, second: Night, i: nat)
    requires first != second && i < 5
    ensures Apply(SlowState(first, second, i), SlowRun(first, second)[i]) == SlowState(first, second, i + 1)
  {
    if i == 1 || i == 3 { SlowTick(first, second, i); } else { SlowHold(first, second, i); }
  }

  lemma SlowTick(first: Night, second: Night, i: nat)
    requires first != second && (i == 1 || i == 3)
    ensures Elapse(SlowState(first, second, i), if i == 1 then 600 else 300) == SlowState(first, second, i + 1)
  {
  }

  lemma SlowHold(first: Night, second: Night, i: nat)
    requires first != second && (i == 0 || i == 2 || i == 4)
    ensures HoldScript(SlowState(first, second, i), if i == 2 then second else first, if i == 4 then "b" else "a", 900, 1).0
            == SlowState(first, second, i + 1)
  {
    assert [] + [first] == [first] && [first] + [second] == [first, second];
  }

  lemma {:induction false} SlowRunStates(first: Night, second: Night, i: nat)
    requires first != second && i <= 5
    ensures Exec(SlowState(first, second, 0), SlowRun(first, second)[..i]) == SlowState(first, second, i)
  {
    if i != 0 {
      SlowRunStates(first, second, i - 1);
      PrefixStep(SlowState(first, second, 0), SlowRun(first, second), i - 1);
      SlowStep(first, second, i - 1);
    }
  }

  lemma {:induction false} SlowRunCapacity(first: Night, second: Night, i: nat)
    requires first != second && i <= 5
    ensures MaxCapacity(SlowRun(first, second)[..i], first, 0) == if i == 0 then 0 else 1
  {
    if i != 0 {
      SlowRunCapacity(first, second, i - 1);
      assert SlowRun(first, second)[..i][..i - 1] == SlowRun(first, second)[..i - 1];
    }
  }

  lemma SlowRunTotal(first: Night, second: Night)
    requires first != second
    ensures Total(SlowState(first, second, 5).tokens, first) == 2
  {
    var tokens := SlowState(first, second, 5).tokens;
    TotalSplit(tokens, "a", first);
    TotalSplit(tokens - {"a"}, "b", first);
    TotalZeroIff(tokens - {"a"} - {"b"}, first);
  }

  lemma SlowRunOrphans(first: Night, second: Night)
    requires first != second
    ensures !NeverOrphans(SlowState(first, second, 0), SlowRun(first, second), first)
  {
    var s0, ops, s3 := SlowState(first, second, 0), SlowRun(first, second), SlowState(first, second, 3);
    SlowRunStates(first, second, 3);
    assert "a" in Elapse(s3, 300).tokens && first in s3.tokens["a"].nights && first !in Elapse(s3, 300).counters;
    assert ops[..4][..3] == ops[..3];
    assert !NeverOrphans(s0, ops[..4], first);
  }

  // Its token outlives its first night's counter, and a room type with one unit is held twice.
  lemma SlowAcquisitionOversells(first: Night, second: Night)
    requires first != second
    ensures var s0 := Store(0, map[], map[]);
            && MaxCapacity(SlowRun(first, second), first, 0) == 1
            && Total(Exec(s0, SlowRun(first, second)).tokens, first) == 2
            && !NeverOrphans(s0, SlowRun(first, second), first)
  {
    assert SlowRun(first, second)[..5] == SlowRun(first, second);
    SlowRunCapacity(first, second, 5);
    SlowRunStates(first, second, 5);
    SlowRunTotal(first, second);
    SlowRunOrphans(first, second);
  }
}

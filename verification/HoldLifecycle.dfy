// Any number of CreateHold calls, sweepers, status updates and crashes, interleaved step by step
// over one Redis and one reservations table.
module HoldLifecycle {
  import opened Prelude
  import opened StayNights
  import opened RedisStore
  import opened HoldAccounting
  import opened Acquisition
  import opened Reservations

  const TTL: Seconds := 900

  // Where a CreateHold call stands; `retry` is set once EvalSha has erred.
  datatype Call =
    | Acquiring(nights: seq<Night>, next: nat, retry: bool, capacity: int)
    | Persisting
    | Releasing(retry: bool)
    | Finished

  // A sweep over the rows it fetched; `marking` is set once the release of the current one is over.
  datatype Sweep = Sweep(batch: seq<nat>, tokens: seq<Option<Token>>, pos: nat, retry: bool, marking: bool)
  {
    predicate Tokened() { pos < |tokens| && tokens[pos].Some? && tokens[pos].value != "" }
  }

  // What has happened so far. stranded: a call's release reported failure, or its process died.
  // granted, released, inserted: a hold was granted, a release ran, the INSERT ran. attempted: a
  // sweeper tried a release. swept: rows a sweeper has marked EXPIRED. asked: each call's nights.
  datatype History = History(
    stranded: set<Token>, granted: set<Token>, released: set<Token>, inserted: set<Token>,
    attempted: set<Token>, swept: set<nat>, asked: map<Token, seq<Night>>)

  datatype State = State(store: Store, rows: Table, calls: map<Token, Call>, sweeps: map<nat, Sweep>, past: History)

  datatype Action =
    | Begin(t: Token, nights: seq<Night>, capacity: int)
    | TryNight(t: Token, delivery: Delivery)
    | TryRelease(t: Token, delivery: Delivery)
    | Persist(t: Token, id: nat, row: Reservation, delivery: Delivery)
    | Crash(t: Token)
    | Pass(seconds: nat)
    | Fetch(w: nat, cutoff: int, batch: seq<nat>)
    | SweepRelease(w: nat, delivery: Delivery)
    | SweepMark(w: nat, delivery: Delivery)
    | Die(w: nat)
    | SetStatus(id: nat, oldStatus: string, newStatus: string)

  ghost predicate Enabled(s: State, a: Action) {
    match a
    case Begin(t, nights, _) => t != "" && t !in s.calls && nights != []
    case TryNight(t, _) => t in s.calls && s.calls[t].Acquiring? && s.calls[t].next < |s.calls[t].nights|
    case TryRelease(t, _) => t in s.calls && s.calls[t].Releasing?
    case Persist(t, id, row, _) =>
      t in s.calls && s.calls[t].Persisting? && id !in s.rows && row.status == HELD && row.holdToken == Some(t)
    case Crash(t) => t in s.calls && s.calls[t] != Finished
    case Pass(_) => true
    // Any expired holds: rows that others have locked at that moment are skipped.
    case Fetch(w, cutoff, batch) => w !in s.sweeps && Ids(batch) <= ExpiredHolds(s.rows, cutoff)
    case SweepRelease(w, _) => w in s.sweeps && s.sweeps[w].pos < |s.sweeps[w].batch| && !s.sweeps[w].marking
    case SweepMark(w, _) => w in s.sweeps && s.sweeps[w].pos < |s.sweeps[w].batch| && s.sweeps[w].marking
    case Die(w) => w in s.sweeps
    case SetStatus(_, _, _) => true
  }

  // The atomic script the action runs, if it runs one.
  ghost function Ops(s: State, a: Action): seq<Op>
    requires Enabled(s, a)
  {
    match a
    case TryNight(t, delivery) =>
      var call := s.calls[t];
      if delivery == NotRun then [] else [Hold(t, call.nights[call.next], TTL, call.capacity)]
    case TryRelease(t, delivery) => if delivery == NotRun then [] else [Release(t)]
    case Pass(seconds) => [Tick(seconds)]
    case SweepRelease(w, delivery) =>
      var sweep := s.sweeps[w];
      if delivery == NotRun || !sweep.Tokened() then [] else [Release(sweep.tokens[sweep.pos].value)]
    case _ => []
  }

  ghost function AfterNight(s: State, call: Call, delivery: Delivery): Call
    requires call.Acquiring? && call.next < |call.nights|
  {
    var granted := Count(s.store.counters, call.nights[call.next]) < call.capacity;
    if delivery == Replied then
      if !granted then Releasing(false)
      else if call.next + 1 == |call.nights| then Persisting
      else call.(next := call.next + 1, retry := false)
    else if !call.retry then call.(retry := true)
    else Releasing(false)
  }

  // What the action changes besides Redis.
  ghost function Control(s: State, a: Action): State
    requires Enabled(s, a)
  {
    match a
    case Begin(t, nights, capacity) => s.(calls := s.calls[t := Acquiring(nights, 0, false, capacity)])
    case TryNight(t, delivery) => s.(calls := s.calls[t := AfterNight(s, s.calls[t], delivery)])
    case TryRelease(t, delivery) =>
      s.(calls := s.calls[t := if delivery == Replied || s.calls[t].retry then Finished else Releasing(true)])
    case Persist(t, id, row, delivery) =>
      s.(calls := s.calls[t := if delivery == Replied then Finished else Releasing(false)],
         rows := if delivery == NotRun then s.rows else s.rows[id := row])
    case Crash(t) => s.(calls := s.calls[t := Finished])
    case Pass(_) => s
    case Fetch(w, _, batch) => s.(sweeps := s.sweeps[w := Sweep(batch, TokensOf(s.rows, batch), 0, false, false)])
    case SweepRelease(w, delivery) =>
      var sweep := s.sweeps[w];
      var over := !sweep.Tokened() || delivery == Replied || sweep.retry;
      s.(sweeps := s.sweeps[w := sweep.(retry := !over, marking := over)])
    case SweepMark(w, delivery) =>
      var sweep := s.sweeps[w];
      s.(sweeps := s.sweeps[w := sweep.(pos := sweep.pos + 1, marking := false)],
         rows := if delivery == NotRun then s.rows else MarkExpired(s.rows, sweep.batch[sweep.pos]))
    case Die(w) => s.(sweeps := s.sweeps - {w})
    case SetStatus(id, oldStatus, newStatus) => s.(rows := ChangeStatus(s.rows, id, oldStatus, newStatus).0)
  }

  ghost function Remember(s: State, a: Action): History
    requires Enabled(s, a)
  {
    var past := s.past;
    match a
    case Begin(t, nights, _) => past.(asked := past.asked[t := nights])
    case TryNight(t, delivery) =>
      var call := s.calls[t];
      if delivery != NotRun && Count(s.store.counters, call.nights[call.next]) < call.capacity
      then past.(granted := past.granted + {t}) else past
    case TryRelease(t, delivery) =>
      past.(stranded := past.stranded + if delivery != Replied && s.calls[t].retry then {t} else {},
            released := past.released + if delivery != NotRun then {t} else {})
    case Persist(t, _, _, delivery) => if delivery == NotRun then past else past.(inserted := past.inserted + {t})
    case Crash(t) => past.(stranded := past.stranded + {t})
    case SweepRelease(w, delivery) =>
      var sweep := s.sweeps[w];
      if !sweep.Tokened() then past
      else past.(attempted := past.attempted + {sweep.tokens[sweep.pos].value},
                 released := past.released + if delivery != NotRun then {sweep.tokens[sweep.pos].value} else {})
    case SweepMark(w, delivery) =>
      if delivery == NotRun then past else past.(swept := past.swept + {s.sweeps[w].batch[s.sweeps[w].pos]})
    case _ => past
  }

  ghost function Step(s: State, a: Action): State
    requires Enabled(s, a)
  {
    Control(s, a).(store := Exec(s.store, Ops(s, a)), past := Remember(s, a))
  }

  ghost function TokensOf(rows: Table, batch: seq<nat>): (tokens: seq<Option<Token>>)
    ensures |tokens| == |batch|
    ensures forall i :: 0 <= i < |batch| && batch[i] in rows ==> tokens[i] == rows[batch[i]].holdToken
  {
    if batch == [] then []
    else TokensOf(rows, batch[..|batch| - 1])
         + [if batch[|batch| - 1] in rows then rows[batch[|batch| - 1]].holdToken else None]
  }

  // The actions are a run from s.
  ghost predicate IsRun(s: State, actions: seq<Action>)
    decreases |actions|, 0
  {
    if actions == [] then true
    else
      var n := |actions| - 1;
      IsRun(s, actions[..n]) && Enabled(RunState(s, actions[..n]), actions[n])
  }

  ghost function RunState(s: State, actions: seq<Action>): State
    requires IsRun(s, actions)
    decreases |actions|, 1
  {
    if actions == [] then s
    else var n := |actions| - 1; Step(RunState(s, actions[..n]), actions[n])
  }

  // The scripts the run executes, in order.
  ghost function Trace(s: State, actions: seq<Action>): seq<Op>
    requires IsRun(s, actions)
  {
    if actions == [] then []
    else var n := |actions| - 1; Trace(s, actions[..n]) + Ops(RunState(s, actions[..n]), actions[n])
  }

  function Start(now: int): State {
    State(Store(now, map[], map[]), map[], map[], map[], History({}, {}, {}, {}, {}, {}, map[]))
  }

  // ---- invariants ----

  ghost predicate Persisted(rows: Table, t: Token) { exists id :: id in rows && rows[id].holdToken == Some(t) }

  // Its acquisition is over for good.
  predicate Settled(s: State, t: Token) { t in s.calls && (s.calls[t].Releasing? || s.calls[t].Finished?) }

  ghost predicate TokensHaveOwners(s: State) {
    && NoEmptyList(s.store)
    && forall t :: t in s.store.tokens ==>
                     t in s.calls && (s.calls[t].Finished? ==> t in s.past.stranded || Persisted(s.rows, t))
  }

  ghost predicate RowsAreSettled(s: State) {
    forall id :: id in s.rows && s.rows[id].holdToken.Some? ==> Settled(s, s.rows[id].holdToken.value)
  }

  ghost predicate ReleasedStayAway(s: State) {
    forall t :: t in s.past.released ==> Settled(s, t) && t !in s.store.tokens
  }

  ghost predicate SweepsFollowRows(s: State) {
    forall w :: w in s.sweeps ==> SweepFollowsRows(s, s.sweeps[w])
  }

  ghost predicate SweepFollowsRows(s: State, sweep: Sweep) {
    && |sweep.tokens| == |sweep.batch|
    && (forall i :: 0 <= i < |sweep.batch| ==> sweep.batch[i] in s.rows && s.rows[sweep.batch[i]].holdToken == sweep.tokens[i])
    && (sweep.marking && sweep.Tokened() ==> sweep.tokens[sweep.pos].value in s.past.attempted)
  }

  ghost predicate SweptWereAttempted(s: State) {
    forall id :: id in s.past.swept ==>
                   && id in s.rows
                   && (s.rows[id].holdToken.Some? && s.rows[id].holdToken.value != "" ==>
                         s.rows[id].holdToken.value in s.past.attempted)
  }

  ghost predicate InsertedArePersisted(s: State) {
    forall t :: Persisted(s.rows, t) <==> t in s.past.inserted
  }

  ghost predicate Inv(s: State) {
    && InsertedArePersisted(s)
    && TokensHaveOwners(s) && RowsAreSettled(s) && ReleasedStayAway(s) && SweepsFollowRows(s) && SweptWereAttempted(s)
  }

  // What one action can do to the token keys.
  lemma StoreStep(s: State, a: Action)
    requires Enabled(s, a) && NoEmptyList(s.store)
    ensures var after := Step(s, a).store;
            && NoEmptyList(after)
            && (forall t :: t in after.tokens ==> t in s.store.tokens || (a.TryNight? && a.t == t))
            && (a.TryRelease? && a.delivery != NotRun ==> a.t !in after.tokens)
            && (a.SweepRelease? && a.delivery != NotRun && s.sweeps[a.w].Tokened() ==>
                  s.sweeps[a.w].tokens[s.sweeps[a.w].pos].value !in after.tokens)
  {
    var ops := Ops(s, a);
    ListsNeverEmpty(s.store, ops);
    if ops != [] {
      assert ops[..0] == [];
      assert Exec(s.store, ops) == Apply(s.store, ops[0]);
    }
  }

  // Rows are never removed and their tokens never change.
  lemma RowsStep(s: State, a: Action)
    requires Enabled(s, a)
    ensures forall id :: id in s.rows ==> id in Step(s, a).rows && Step(s, a).rows[id].holdToken == s.rows[id].holdToken
    ensures forall id :: id in Step(s, a).rows && id !in s.rows ==>
                           a.Persist? && a.delivery != NotRun && Step(s, a).rows[id].holdToken == Some(a.t)
    ensures forall t :: Persisted(s.rows, t) ==> Persisted(Step(s, a).rows, t)
  {
  }

  predicate Drives(a: Action, t: Token) {
    (a.TryNight? || a.TryRelease? || a.Persist? || a.Crash?) && a.t == t
  }

  lemma CallsStep(s: State, a: Action)
    requires Enabled(s, a)
    ensures forall t :: t in s.calls ==> t in Step(s, a).calls
    ensures forall t :: Settled(s, t) ==> Settled(Step(s, a), t)
    ensures forall t :: t in s.calls && !Drives(a, t) ==> Step(s, a).calls[t] == s.calls[t]
  {
  }

  lemma TokensStep(s: State, a: Action)
    requires Enabled(s, a) && Inv(s)
    ensures TokensHaveOwners(Step(s, a)) && RowsAreSettled(Step(s, a))
  {
    StoreStep(s, a);
    RowsStep(s, a);
    CallsStep(s, a);
    if a.Persist? && a.delivery != NotRun {
      assert Step(s, a).rows[a.id].holdToken == Some(a.t);
      assert Persisted(Step(s, a).rows, a.t);
    }
  }

  lemma InsertedStep(s: State, a: Action)
    requires Enabled(s, a) && InsertedArePersisted(s)
    ensures InsertedArePersisted(Step(s, a))
  {
    RowsStep(s, a);
    var s' := Step(s, a);
    if a.Persist? && a.delivery != NotRun {
      assert s'.rows[a.id].holdToken == Some(a.t);
    }
    forall t | Persisted(s'.rows, t) ensures t in s'.past.inserted {
      var id :| id in s'.rows && s'.rows[id].holdToken == Some(t);
      if id in s.rows { assert Persisted(s.rows, t); }
    }
  }

  lemma ReleasedStep(s: State, a: Action)
    requires Enabled(s, a) && Inv(s)
    ensures ReleasedStayAway(Step(s, a)) && SweptWereAttempted(Step(s, a))
  {
    StoreStep(s, a);
    RowsStep(s, a);
    CallsStep(s, a);
    if a.SweepMark? || a.SweepRelease? { assert SweepFollowsRows(s, s.sweeps[a.w]); }
  }

  lemma OneSweepStep(s: State, a: Action, w: nat)
    requires Enabled(s, a) && Inv(s) && w in Step(s, a).sweeps
    ensures SweepFollowsRows(Step(s, a), Step(s, a).sweeps[w])
  {
    RowsStep(s, a);
    if w in s.sweeps {
      assert SweepFollowsRows(s, s.sweeps[w]);
      assert Step(s, a).sweeps[w].batch == s.sweeps[w].batch && Step(s, a).sweeps[w].tokens == s.sweeps[w].tokens;
    } else {
      forall i | 0 <= i < |a.batch| ensures a.batch[i] in s.rows { assert a.batch[i] in Ids(a.batch); }
    }
  }

  lemma SweepsStep(s: State, a: Action)
    requires Enabled(s, a) && Inv(s)
    ensures SweepsFollowRows(Step(s, a))
  {
    forall w | w in Step(s, a).sweeps ensures SweepFollowsRows(Step(s, a), Step(s, a).sweeps[w]) {
      OneSweepStep(s, a, w);
    }
  }

  lemma {:induction false} RunsKeepInv(now: int, actions: seq<Action>)
    requires IsRun(Start(now), actions)
    ensures Inv(RunState(Start(now), actions))
  {
    if actions != [] {
      var n := |actions| - 1;
      RunsKeepInv(now, actions[..n]);
      TokensStep(RunState(Start(now), actions[..n]), actions[n]);
      ReleasedStep(RunState(Start(now), actions[..n]), actions[n]);
      SweepsStep(RunState(Start(now), actions[..n]), actions[n]);
      InsertedStep(RunState(Start(now), actions[..n]), actions[n]);
    }
  }

  // ---- the theorems ----

  lemma TokenStep(s: State, a: Action, t: Token)
    requires Enabled(s, a) && Inv(s)
    requires forall op :: op in Ops(s, a) ==> KeepsTokenAt(s.store, op, t)
    requires t in s.store.tokens <==> t in s.past.granted && t !in s.past.released
    ensures var s' := Step(s, a);
            t in s'.store.tokens <==> t in s'.past.granted && t !in s'.past.released
  {
    var ops := Ops(s, a);
    if ops != [] {
      assert ops[..0] == [];
      assert Exec(s.store, ops) == Apply(s.store, ops[0]);
      assert ops[0] in ops;
      if ops[0].Release? { assert ops[0].token in Step(s, a).past.released; }
    }
  }

  lemma OpsKeepToken(s: State, a: Action, t: Token)
    requires Enabled(s, a) && KeepsToken(s.store, Ops(s, a), t)
    ensures forall op :: op in Ops(s, a) ==> KeepsTokenAt(s.store, op, t)
  {
    forall op | op in Ops(s, a) ensures KeepsTokenAt(s.store, op, t) {
      assert Ops(s, a) == [op] && Ops(s, a)[..0] == [];
    }
  }

  // Where a token's key is: in Redis exactly from its first granted hold to its first release that
  // ran, acknowledged or not, as long as its own list has not expired.
  lemma {:induction false} TokenInRedisIff(now: int, actions: seq<Action>, t: Token)
    requires IsRun(Start(now), actions) && KeepsToken(Start(now).store, Trace(Start(now), actions), t)
    ensures var s := RunState(Start(now), actions);
            t in s.store.tokens <==> t in s.past.granted && t !in s.past.released
  {
    if actions != [] {
      var n := |actions| - 1;
      var before, mid := Trace(Start(now), actions[..n]), RunState(Start(now), actions[..n]);
      var ops := Ops(mid, actions[n]);
      KeepsTokenSplit(Start(now).store, before, ops, t);
      TokenInRedisIff(now, actions[..n], t);
      RunsKeepInv(now, actions[..n]);
      RunsAreTraces(Start(now), actions[..n]);
      OpsKeepToken(mid, actions[n], t);
      TokenStep(mid, actions[n], t);
    }
  }

  // What t's list has to show for its call: the nights tried with success so far, then all of them until
  // the row's INSERT has been tried, and for good if that ran and no release has.
  ghost predicate HoldsItsNights(s: State, t: Token) {
    t in s.calls ==>
      && t in s.past.asked
      && match s.calls[t]
         case Acquiring(nights, next, _, _) =>
           t !in s.past.inserted && nights == s.past.asked[t] && next < |nights|
           && forall i :: 0 <= i < next ==> nights[i] in Listed(s.store, t)
         case Persisting => t !in s.past.inserted && forall k :: k in s.past.asked[t] ==> k in Listed(s.store, t)
         case _ => t in s.past.inserted && t !in s.past.released ==>
                     forall k :: k in s.past.asked[t] ==> k in Listed(s.store, t)
  }

  // What one action does to t's list.
  lemma ListStep(s: State, a: Action, t: Token)
    requires Enabled(s, a) && Inv(s)
    requires forall op :: op in Ops(s, a) ==> KeepsTokenAt(s.store, op, t)
    ensures t !in Step(s, a).past.released ==> forall k :: k in Listed(s.store, t) ==> k in Listed(Step(s, a).store, t)
    ensures a.TryNight? && a.t == t && a.delivery == Replied
            && Count(s.store.counters, s.calls[t].nights[s.calls[t].next]) < s.calls[t].capacity ==>
              s.calls[t].nights[s.calls[t].next] in Listed(Step(s, a).store, t)
  {
    var ops := Ops(s, a);
    if ops != [] {
      assert ops[..0] == [];
      assert Exec(s.store, ops) == Apply(s.store, ops[0]);
      assert ops[0] in ops;
      if ops[0].Release? { assert ops[0].token in Step(s, a).past.released; }
    }
  }

  lemma OthersKeepNights(s: State, a: Action, t: Token)
    requires Enabled(s, a) && Inv(s) && HoldsItsNights(s, t) && t in s.calls && !Drives(a, t)
    requires forall op :: op in Ops(s, a) ==> KeepsTokenAt(s.store, op, t)
    ensures HoldsItsNights(Step(s, a), t)
  {
    ListStep(s, a, t);
    CallsStep(s, a);
    assert Step(s, a).calls[t] == s.calls[t] && Step(s, a).past.asked[t] == s.past.asked[t];
    ReleasedStep(s, a);
  }

  lemma NightsStep(s: State, a: Action, t: Token)
    requires Enabled(s, a) && Inv(s) && HoldsItsNights(s, t)
    requires forall op :: op in Ops(s, a) ==> KeepsTokenAt(s.store, op, t)
    requires t !in s.calls ==> t !in s.past.inserted
    ensures HoldsItsNights(Step(s, a), t)
    ensures t !in Step(s, a).calls ==> t !in Step(s, a).past.inserted
  {
    if t in s.calls && !Drives(a, t) {
      OthersKeepNights(s, a, t);
    } else {
      ListStep(s, a, t);
      ReleasedStep(s, a);
    }
  }

  lemma {:induction false} RunsHoldNights(now: int, actions: seq<Action>, t: Token)
    requires IsRun(Start(now), actions) && KeepsToken(Start(now).store, Trace(Start(now), actions), t)
    ensures HoldsItsNights(RunState(Start(now), actions), t)
    ensures t !in RunState(Start(now), actions).calls ==> t !in RunState(Start(now), actions).past.inserted
  {
    if actions != [] {
      var n := |actions| - 1;
      var before, mid := Trace(Start(now), actions[..n]), RunState(Start(now), actions[..n]);
      KeepsTokenSplit(Start(now).store, before, Ops(mid, actions[n]), t);
      RunsHoldNights(now, actions[..n], t);
      RunsKeepInv(now, actions[..n]);
      RunsAreTraces(Start(now), actions[..n]);
      OpsKeepToken(mid, actions[n], t);
      NightsStep(mid, actions[n], t);
    }
  }

  // A call comes to persist its row only with every night of its stay in its token's list, and a token
  // whose row was inserted, and that was neither released nor has expired, lists them all.
  lemma PersistedHoldsListTheirNights(now: int, actions: seq<Action>, t: Token)
    requires IsRun(Start(now), actions) && KeepsToken(Start(now).store, Trace(Start(now), actions), t)
    ensures var s := RunState(Start(now), actions);
            t in s.calls && (s.calls[t] == Persisting || (t in s.past.inserted && t !in s.past.released)) ==>
              t in s.past.asked && forall k :: k in s.past.asked[t] ==> k in Listed(s.store, t)
  {
    RunsHoldNights(now, actions, t);
    if t in RunState(Start(now), actions).calls { NightsAreListed(RunState(Start(now), actions), t); }
  }

  lemma NightsAreListed(s: State, t: Token)
    requires HoldsItsNights(s, t) && t in s.calls
    ensures s.calls[t] == Persisting || (t in s.past.inserted && t !in s.past.released) ==>
              t in s.past.asked && forall k :: k in s.past.asked[t] ==> k in Listed(s.store, t)
  {
  }

  // ---- why a call ends ----

  // The last attempt at a night of t's call went unanswered.
  predicate NightUnanswered(actions: seq<Action>, t: Token) {
    if actions == [] then false
    else
      var n := |actions| - 1;
      match actions[n]
      case TryNight(u, delivery) => if u == t then delivery != Replied else NightUnanswered(actions[..n], t)
      case _ => NightUnanswered(actions[..n], t)
  }

  predicate ReleaseUnanswered(actions: seq<Action>, t: Token) {
    if actions == [] then false
    else
      var n := |actions| - 1;
      match actions[n]
      case TryRelease(u, delivery) => if u == t then delivery != Replied else ReleaseUnanswered(actions[..n], t)
      case _ => ReleaseUnanswered(actions[..n], t)
  }

  // t's call has found a night full, has had two attempts at a night in a row unanswered, has tried its
  // INSERT, or its process died.
  ghost predicate HadReasonToEnd(s: State, actions: seq<Action>, t: Token)
    requires IsRun(s, actions)
  {
    if actions == [] then false
    else
      var n := |actions| - 1;
      var mid := RunState(s, actions[..n]);
      || HadReasonToEnd(s, actions[..n], t)
      || match actions[n]
         case TryNight(u, delivery) =>
           u == t && (if delivery != Replied then NightUnanswered(actions[..n], t)
                      else mid.calls[t].capacity <= Count(mid.store.counters, mid.calls[t].nights[mid.calls[t].next]))
         case Persist(u, _, _, _) => u == t
         case Crash(u) => u == t
         case _ => false
  }

  // Its INSERT or a release was acknowledged, two releases in a row went unanswered, or its process died.
  predicate HadReasonToStop(actions: seq<Action>, t: Token) {
    if actions == [] then false
    else
      var n := |actions| - 1;
      || HadReasonToStop(actions[..n], t)
      || match actions[n]
         case TryRelease(u, delivery) => u == t && (delivery == Replied || ReleaseUnanswered(actions[..n], t))
         case Persist(u, _, _, delivery) => u == t && delivery == Replied
         case Crash(u) => u == t
         case _ => false
  }

  // In every interleaving: a call stops acquiring or persisting only for one of the first reasons, and is
  // finished only for one of the second; so each night, and the release, is given a second attempt.
  lemma {:induction false} CallsEndForAReason(s: State, actions: seq<Action>, t: Token)
    requires t !in s.calls && IsRun(s, actions)
    ensures var calls := RunState(s, actions).calls;
            t in calls ==>
              match calls[t]
              case Acquiring(_, _, retry, _) => retry ==> NightUnanswered(actions, t)
              case Persisting => true
              case Releasing(retry) => HadReasonToEnd(s, actions, t) && (retry ==> ReleaseUnanswered(actions, t))
              case Finished => HadReasonToEnd(s, actions, t) && HadReasonToStop(actions, t)
  {
    if actions != [] {
      var n := |actions| - 1;
      var mid, a := RunState(s, actions[..n]), actions[n];
      CallsEndForAReason(s, actions[..n], t);
      CallsStep(mid, a);
      if t in mid.calls && !Drives(a, t) { assert RunState(s, actions).calls[t] == mid.calls[t]; }
    }
  }

  // Some sweeper has fetched row id when it was held and its expiry had come.
  ghost predicate WasFetchedExpired(s: State, actions: seq<Action>, id: nat)
    requires IsRun(s, actions)
  {
    if actions == [] then false
    else
      var n := |actions| - 1;
      || WasFetchedExpired(s, actions[..n], id)
      || (actions[n].Fetch? && id in actions[n].batch && Eligible(RunState(s, actions[..n]).rows, id, actions[n].cutoff))
  }

  // In every interleaving, sweepers only ever have in hand, and expire, rows that were held and past
  // their expiry when fetched; what others have made of them since is another matter.
  lemma {:induction false} OnlyExpiredHoldsAreSwept(s: State, actions: seq<Action>)
    requires s.sweeps == map[] && s.past.swept == {} && IsRun(s, actions)
    ensures var end := RunState(s, actions);
            && (forall w, id :: w in end.sweeps && id in end.sweeps[w].batch ==> WasFetchedExpired(s, actions, id))
            && (forall id :: id in end.past.swept ==> WasFetchedExpired(s, actions, id))
  {
    if actions != [] {
      var n := |actions| - 1;
      var mid, a := RunState(s, actions[..n]), actions[n];
      OnlyExpiredHoldsAreSwept(s, actions[..n]);
      forall id | a.Fetch? && id in a.batch ensures WasFetchedExpired(s, actions, id) {
        assert id in Ids(a.batch);
        assert mid.rows - {} == mid.rows;
        EligibleIff(mid.rows, {}, id, a.cutoff);
      }
      forall id | id in RunState(s, actions).past.swept ensures WasFetchedExpired(s, actions, id) {
        if a.SweepMark? { assert mid.sweeps[a.w].batch[mid.sweeps[a.w].pos] in mid.sweeps[a.w].batch; }
      }
    }
  }

  // A token is in Redis without a reservation exactly when a hold of it was granted, and neither a
  // release nor its INSERT ever ran.
  lemma OrphanIff(now: int, actions: seq<Action>, t: Token)
    requires IsRun(Start(now), actions) && KeepsToken(Start(now).store, Trace(Start(now), actions), t)
    ensures var s := RunState(Start(now), actions);
            t in s.store.tokens && !Persisted(s.rows, t)
            <==> t in s.past.granted && t !in s.past.released && t !in s.past.inserted
  {
    TokenInRedisIff(now, actions, t);
    RunsKeepInv(now, actions);
  }

  // A token whose CreateHold is over, with no release of its own having failed, belongs to a persisted
  // reservation if it is in Redis at all, whatever has become of all other calls, and of its own list.
  lemma NoOrphanHold(now: int, actions: seq<Action>, t: Token)
    requires IsRun(Start(now), actions)
    ensures var s := RunState(Start(now), actions);
            t in s.store.tokens ==>
              t in s.calls && (s.calls[t].Finished? && t !in s.past.stranded ==> Persisted(s.rows, t))
  {
    RunsKeepInv(now, actions);
  }

  // So whenever no CreateHold is in flight and no release has failed, every Redis token does.
  lemma NoOrphanHolds(now: int, actions: seq<Action>)
    requires IsRun(Start(now), actions)
    ensures var s := RunState(Start(now), actions);
            (forall t :: t in s.calls ==> s.calls[t].Finished?) && s.past.stranded == {} ==>
              forall t :: t in s.store.tokens ==> Persisted(s.rows, t)
  {
    var s := RunState(Start(now), actions);
    forall t | t in s.store.tokens
      ensures t in s.calls && (s.calls[t].Finished? && t !in s.past.stranded ==> Persisted(s.rows, t)) {
      NoOrphanHold(now, actions, t);
    }
  }

  // With failed releases it does not hold: when neither the row's INSERT nor either attempt to release
  // reaches its server, a finished call leaves a counted token that no reservation records.
  function StrandingRun(t: Token, k: Night, row: Reservation): seq<Action> {
    [] + [Begin(t, [k], 1)] + [TryNight(t, Replied)] + [Persist(t, 0, row, NotRun)] + [TryRelease(t, NotRun)] + [TryRelease(t, NotRun)]
  }

  function StrandingState(t: Token, k: Night, call: Call, stranded: set<Token>): State {
    var held := !call.Acquiring?;
    State(Store(0, if held then map[k := Counter(1, 900)] else map[],
                if held then map[t := TokenList([k], 900)] else map[]),
          map[], map[t := call], map[], History(stranded, if held then {t} else {}, {}, {}, {}, {}, map[t := [k]]))
  }

  ghost predicate Reaches(s: State, actions: seq<Action>, end: State) {
    IsRun(s, actions) && RunState(s, actions) == end
  }

  lemma ReachesMore(s: State, actions: seq<Action>, mid: State, a: Action, end: State)
    requires Reaches(s, actions, mid) && Enabled(mid, a) && Step(mid, a) == end
    ensures Reaches(s, actions + [a], end)
  {
    assert (actions + [a])[..|actions|] == actions;
  }

  lemma StrandingHold(t: Token, k: Night)
    requires t != ""
    ensures var s := StrandingState(t, k, Acquiring([k], 0, false, 1), {});
            Step(s, TryNight(t, Replied)) == StrandingState(t, k, Persisting, {})
  {
    var s := StrandingState(t, k, Acquiring([k], 0, false, 1), {});
    var op := Hold(t, k, TTL, 1);
    assert [op][..0] == [];
    assert [] + [k] == [k];
    assert Exec(s.store, [op]) == Apply(s.store, op);
  }

  lemma StrandingSteps(t: Token, k: Night, row: Reservation)
    requires t != "" && row.status == HELD && row.holdToken == Some(t)
    ensures Step(Start(0), Begin(t, [k], 1)) == StrandingState(t, k, Acquiring([k], 0, false, 1), {})
    ensures Enabled(StrandingState(t, k, Persisting, {}), Persist(t, 0, row, NotRun))
    ensures Step(StrandingState(t, k, Persisting, {}), Persist(t, 0, row, NotRun)) == StrandingState(t, k, Releasing(false), {})
    ensures Step(StrandingState(t, k, Releasing(false), {}), TryRelease(t, NotRun)) == StrandingState(t, k, Releasing(true), {})
    ensures Step(StrandingState(t, k, Releasing(true), {}), TryRelease(t, NotRun)) == StrandingState(t, k, Finished, {t})
  {
  }

  lemma FailedReleasesStrand(t: Token, k: Night, row: Reservation)
    requires t != "" && row.status == HELD && row.holdToken == Some(t)
    ensures Reaches(Start(0), StrandingRun(t, k, row), StrandingState(t, k, Finished, {t}))
    ensures var end := StrandingState(t, k, Finished, {t});
            t in end.store.tokens && Count(end.store.counters, k) == 1 && !Persisted(end.rows, t)
  {
    var acquiring := StrandingState(t, k, Acquiring([k], 0, false, 1), {});
    var persisting, releasing := StrandingState(t, k, Persisting, {}), StrandingState(t, k, Releasing(false), {});
    var retrying, end := StrandingState(t, k, Releasing(true), {}), StrandingState(t, k, Finished, {t});
    StrandingHold(t, k);
    StrandingSteps(t, k, row);
    var begun := [] + [Begin(t, [k], 1)];
    var held := begun + [TryNight(t, Replied)];
    var failed := held + [Persist(t, 0, row, NotRun)];
    ReachesMore(Start(0), [], Start(0), Begin(t, [k], 1), acquiring);
    ReachesMore(Start(0), begun, acquiring, TryNight(t, Replied), persisting);
    ReachesMore(Start(0), held, persisting, Persist(t, 0, row, NotRun), releasing);
    ReachesMore(Start(0), failed, releasing, TryRelease(t, NotRun), retrying);
    ReachesMore(Start(0), failed + [TryRelease(t, NotRun)], retrying, TryRelease(t, NotRun), end);
  }

  // A row a sweeper has expired had the release of its token attempted first; and a token whose
  // release ran in any sweep is in Redis never again, whatever happens concurrently.
  lemma SweptOnlyAfterRelease(now: int, actions: seq<Action>)
    requires IsRun(Start(now), actions)
    ensures var s := RunState(Start(now), actions);
            && SweptWereAttempted(s)
            && s.past.released !! s.store.tokens.Keys
  {
    RunsKeepInv(now, actions);
  }

  // Every interleaving is a run of the two scripts, so everything proved of such runs holds here.
  lemma {:induction false} RunsAreTraces(s: State, actions: seq<Action>)
    requires IsRun(s, actions)
    ensures RunState(s, actions).store == Exec(s.store, Trace(s, actions))
  {
    if actions != [] {
      var n := |actions| - 1;
      RunsAreTraces(s, actions[..n]);
      ExecConcat(s.store, Trace(s, actions[..n]), Ops(RunState(s, actions[..n]), actions[n]));
    }
  }

  // While nothing expires, counters are the token lists' sum. A call whose own list did not expire and is
  // gone has taken nothing off any counter, and has had zero net effect on it exactly when its releases
  // found their nights counted; all other keys may expire. Always: releases return no more than holds
  // took.
  lemma LifecycleAccounting(now: int, actions: seq<Action>, t: Token, k: Night)
    requires IsRun(Start(now), actions)
    ensures var s0, s, trace := Start(now).store, RunState(Start(now), actions), Trace(Start(now), actions);
            && (Quiet(s0, trace) ==> Exact(s.store))
            && (KeepsToken(s0, trace, t) && t !in s.store.tokens ==>
                  0 <= OwnChange(s0, trace, t, k) && (OwnChange(s0, trace, t, k) == 0 <==> GivesBack(s0, trace, t, k)))
            && Credits(s0, trace, t, k) <= Pushes(s0, trace, t, k)
  {
    var s0, trace := Start(now).store, Trace(Start(now), actions);
    RunsAreTraces(Start(now), actions);
    NoDoubleCredit(s0, trace, t, k);
    if Quiet(s0, trace) {
      CountersAreSumOfTokenLists(s0, trace);
    }
    if KeepsToken(s0, trace, t) {
      OwnChangeIsListedIff(s0, trace, t, k);
    }
  }

  // ---- a clock that stands still while an acquisition in flight has counted the night ----

  // An acquisition that has not come to k, or has nothing to do with it, need not stop the clock.
  predicate Counting(s: State, k: Night, t: Token) {
    t in s.calls && s.calls[t].Acquiring? && k in Listed(s.store, t)
  }

  ghost predicate ClockWaits(s: State, actions: seq<Action>, k: Night)
    requires IsRun(s, actions)
  {
    if actions == [] then true
    else
      var n := |actions| - 1;
      && ClockWaits(s, actions[..n], k)
      && (actions[n].Pass? ==> forall t :: !Counting(RunState(s, actions[..n]), k, t))
  }

  ghost predicate FreshTokens(s: State, k: Night) {
    forall t :: Counting(s, k, t) ==> s.store.tokens[t].expiry == s.store.now + TTL
  }

  lemma FreshStep(s: State, a: Action, k: Night)
    requires Enabled(s, a) && Inv(s) && FreshTokens(s, k)
    requires a.Pass? ==> forall t :: !Counting(s, k, t)
    ensures FreshTokens(Step(s, a), k)
    ensures forall op :: op in Ops(s, a) ==> PunctualOp(s.store, op, TTL, k)
  {
    var ops := Ops(s, a);
    if ops != [] {
      assert ops[..0] == [];
      assert Exec(s.store, ops) == Apply(s.store, ops[0]);
    }
    if a.TryNight? && k in Listed(s.store, a.t) { assert Counting(s, k, a.t); }
    forall t | Counting(Step(s, a), k, t) ensures Step(s, a).store.tokens[t].expiry == Step(s, a).store.now + TTL {
      if !Drives(a, t) && t in s.calls { assert Counting(s, k, t); }
    }
  }

  lemma PunctualMore(s: Store, before: seq<Op>, ops: seq<Op>, k: Night)
    requires Punctual(s, before, TTL, k) && |ops| <= 1
    requires forall op :: op in ops ==> PunctualOp(Exec(s, before), op, TTL, k)
    ensures Punctual(s, before + ops, TTL, k)
  {
    if ops == [] {
      assert before + ops == before;
    } else {
      assert (before + ops)[..|before|] == before && (before + ops)[|before|] == ops[0];
      assert ops[0] in ops;
    }
  }

  lemma {:induction false} WaitingRunsArePunctual(now: int, actions: seq<Action>, k: Night)
    requires IsRun(Start(now), actions) && ClockWaits(Start(now), actions, k)
    ensures Punctual(Start(now).store, Trace(Start(now), actions), TTL, k)
    ensures FreshTokens(RunState(Start(now), actions), k)
  {
    if actions != [] {
      var n := |actions| - 1;
      var mid := RunState(Start(now), actions[..n]);
      WaitingRunsArePunctual(now, actions[..n], k);
      RunsKeepInv(now, actions[..n]);
      RunsAreTraces(Start(now), actions[..n]);
      FreshStep(mid, actions[n], k);
      PunctualMore(Start(now).store, Trace(Start(now), actions[..n]), Ops(mid, actions[n]), k);
    }
  }

  lemma WaitingRunsNeverOrphan(now: int, actions: seq<Action>, k: Night)
    requires IsRun(Start(now), actions) && ClockWaits(Start(now), actions, k)
    ensures NeverOrphans(Start(now).store, Trace(Start(now), actions), k)
  {
    WaitingRunsArePunctual(now, actions, k);
    PunctualRunsNeverOrphan(Start(now).store, Trace(Start(now), actions), TTL, k);
  }

  // Then live holds of k never exceed the largest capacity ever passed for it, through any mix of holds,
  // retries, rollbacks, compensations, sweeps and expiries. More generally they do not while k is never
  // orphaned, which is when they cannot come to (HoldAccounting.NeverOversellsIff).
  lemma NoOversell(now: int, actions: seq<Action>, k: Night)
    requires IsRun(Start(now), actions)
    requires ClockWaits(Start(now), actions, k) || NeverOrphans(Start(now).store, Trace(Start(now), actions), k)
    ensures var end := RunState(Start(now), actions).store;
            Total(end.tokens, k) <= Count(end.counters, k) <= MaxCapacity(Trace(Start(now), actions), k, 0)
  {
    if ClockWaits(Start(now), actions, k) { WaitingRunsNeverOrphan(now, actions, k); }
    RunsAreTraces(Start(now), actions);
    LiveHoldsNeverExceedCapacity(now, Trace(Start(now), actions), k);
  }

  // And a call whose token is gone, because its rollback or a compensation or a sweep released it, has
  // had zero net effect on k's counter, whatever the others did meanwhile and however many of their holds
  // expired. Its own list must not have: less than the TTL passed after each of its holds.
  lemma WaitingCallsHaveNoNetEffect(now: int, actions: seq<Action>, t: Token, k: Night)
    requires IsRun(Start(now), actions) && ClockWaits(Start(now), actions, k)
    requires var s0, trace := Start(now).store, Trace(Start(now), actions);
             KeepsToken(s0, trace, t) || Prompt(s0, trace, t, TTL)
    requires t !in RunState(Start(now), actions).store.tokens
    ensures OwnChange(Start(now).store, Trace(Start(now), actions), t, k) == 0
  {
    var s0, trace := Start(now).store, Trace(Start(now), actions);
    WaitingRunsNeverOrphan(now, actions, k);
    RunsAreTraces(Start(now), actions);
    if Prompt(s0, trace, t, TTL) { PromptKeepsToken(s0, trace, t, TTL); }
    OwnChangeIsListed(s0, trace, t, k);
  }
}

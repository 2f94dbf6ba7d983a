// idempotency.go: lookup, lock, execute, store, unlock, by any number of concurrent requests.
module Idempotency {
  import opened Prelude

  datatype Response = Response(statusCode: int, contentType: string, body: string)

  // recorder.statusCode >= 200 && recorder.statusCode < 500
  predicate Cacheable(r: Response) { 200 <= r.statusCode < 500 }

  // Where a request stands. Missed: past its cache lookup. Unguarded: about to run the handler without
  // the lock, because Redis erred. Held: owns the lock, the handler has not returned yet. Answered: the
  // handler has returned r. Storing is over in Stored.
  datatype Phase =
    | New
    | Missed
    | Unguarded
    | Held
    | Answered(r: Response)
    | Stored(r: Response)
    | Replayed(r: Response)
    | Refused
    | Finished

  // lookedUp: the step at which it missed the cache.
  datatype Request = Request(key: string, phase: Phase, lookedUp: nat)

  // executions: what the handlers have answered, in the order they ran. firstStored[key]: the step at
  // which a response was first stored under key.
  datatype Execution = Execution(key: string, response: Response)

  datatype State = State(
    locks: map<string, nat>, responses: map<string, Response>, requests: seq<Request>,
    clock: nat, executions: seq<Execution>, firstStored: map<string, nat>)

  datatype Action =
    | Lookup(i: nat)
    | LookupFails(i: nat)
    | Acquire(i: nat)
    | AcquireFails(i: nat, ran: bool)
    | Execute(i: nat, r: Response)
    | ExecuteUnguarded(i: nat, r: Response)
    | Store(i: nat, written: bool)
    | Unlock(i: nat)
    | Crash(i: nat)
    | ResponseExpires(key: string)
    | LockExpires(key: string)

  predicate Enabled(s: State, a: Action) {
    match a
    case Lookup(i) => i < |s.requests| && s.requests[i].phase.New?
    case LookupFails(i) => i < |s.requests| && s.requests[i].phase.New?
    case Acquire(i) => i < |s.requests| && s.requests[i].phase.Missed?
    case AcquireFails(i, _) => i < |s.requests| && s.requests[i].phase.Missed?
    case Execute(i, _) => i < |s.requests| && s.requests[i].phase.Held?
    case ExecuteUnguarded(i, _) => i < |s.requests| && s.requests[i].phase.Unguarded?
    case Store(i, _) => i < |s.requests| && s.requests[i].phase.Answered?
    case Unlock(i) => i < |s.requests| && (s.requests[i].phase.Stored? || s.requests[i].phase.Held?)
    case Crash(i) => i < |s.requests|
    case ResponseExpires(key) => key in s.responses
    case LockExpires(key) => key in s.locks
  }

  function SetPhase(s: State, i: nat, phase: Phase): State
    requires i < |s.requests|
  {
    s.(requests := s.requests[i := s.requests[i].(phase := phase)])
  }

  function Effect(s: State, a: Action): State
    requires Enabled(s, a)
  {
    match a
    case Lookup(i) =>
      var key := s.requests[i].key;
      if key in s.responses then SetPhase(s, i, Replayed(s.responses[key]))
      else s.(requests := s.requests[i := s.requests[i].(phase := Missed, lookedUp := s.clock)])
    // An error of GET, or an entry that is empty or cannot be read, counts as a miss.
    case LookupFails(i) => s.(requests := s.requests[i := s.requests[i].(phase := Missed, lookedUp := s.clock)])
    // SET NX
    case Acquire(i) =>
      var key := s.requests[i].key;
      if key in s.locks then SetPhase(s, i, Refused) else SetPhase(s, i, Held).(locks := s.locks[key := i])
    // An error of SET NX lets the request through; it may have set the lock all the same.
    case AcquireFails(i, ran) =>
      var key := s.requests[i].key;
      SetPhase(s, i, Unguarded).(locks := if ran && key !in s.locks then s.locks[key := i] else s.locks)
    case ExecuteUnguarded(i, r) =>
      SetPhase(s, i, Finished).(executions := s.executions + [Execution(s.requests[i].key, r)])
    case Execute(i, r) =>
      SetPhase(s, i, Answered(r)).(executions := s.executions + [Execution(s.requests[i].key, r)])
    // The SET's own failure is ignored.
    case Store(i, written) =>
      var key, r := s.requests[i].key, s.requests[i].phase.r;
      if Cacheable(r) && written
      then SetPhase(s, i, Stored(r)).(responses := s.responses[key := r],
                                      firstStored := if key in s.firstStored then s.firstStored else s.firstStored[key := s.clock])
      else SetPhase(s, i, Stored(r))
    // The deferred DEL, whoever owns the lock by now; it also runs when the handler panics.
    case Unlock(i) => SetPhase(s, i, Finished).(locks := s.locks - {s.requests[i].key})
    // The process dies: the lock stays.
    case Crash(i) => SetPhase(s, i, Finished)
    case ResponseExpires(key) => s.(responses := s.responses - {key})
    case LockExpires(key) => s.(locks := s.locks - {key})
  }

  function Step(s: State, a: Action): State
    requires Enabled(s, a)
  {
    Effect(s, a).(clock := s.clock + 1)
  }

  function Init(keys: seq<string>): State {
    State(map[], map[], seq(|keys|, i requires 0 <= i < |keys| => Request(keys[i], New, 0)), 0, [], map[])
  }

  predicate IsRun(s: State, actions: seq<Action>)
    decreases |actions|, 0
  {
    if actions == [] then true
    else
      var n := |actions| - 1;
      IsRun(s, actions[..n]) && Enabled(RunState(s, actions[..n]), actions[n])
  }

  function RunState(s: State, actions: seq<Action>): State
    requires IsRun(s, actions)
    decreases |actions|, 1
  {
    if actions == [] then s
    else var n := |actions| - 1; Step(RunState(s, actions[..n]), actions[n])
  }

  // ---- mutual exclusion ----

  // Between lock and unlock.
  predicate Inside(r: Request) { r.phase.Held? || r.phase.Answered? || r.phase.Stored? }

  predicate IsInside(s: State, i: nat, key: string) {
    i < |s.requests| && s.requests[i].key == key && Inside(s.requests[i])
  }

  // Whoever is inside under key owns its lock.
  predicate LocksAgree(s: State, key: string) {
    forall i :: 0 <= i < |s.requests| && IsInside(s, i, key) ==> key in s.locks && s.locks[key] == i
  }

  // The lock of key expires under a request that is inside.
  predicate ExpiresUnderOwner(s: State, a: Action, key: string) {
    a == LockExpires(key) && exists i :: 0 <= i < |s.requests| && IsInside(s, i, key)
  }

  // That never happens in the run. Locks of other keys, and abandoned ones, may expire.
  predicate LockOutlasts(s: State, actions: seq<Action>, key: string)
    requires IsRun(s, actions)
  {
    if actions == [] then true
    else
      var n := |actions| - 1;
      LockOutlasts(s, actions[..n], key) && !ExpiresUnderOwner(RunState(s, actions[..n]), actions[n], key)
  }

  lemma StepKeepsLocks(s: State, a: Action, key: string)
    requires LocksAgree(s, key) && Enabled(s, a) && !ExpiresUnderOwner(s, a, key)
    ensures LocksAgree(Step(s, a), key)
  {
    var s' := Step(s, a);
    forall i | 0 <= i < |s'.requests| && IsInside(s', i, key) ensures key in s'.locks && s'.locks[key] == i {
      assert i < |s.requests| && s.requests[i].key == key;
      if IsInside(s, i, key) {
        assert a != LockExpires(key);
        if a.Unlock? && s.requests[a.i].key == key { assert IsInside(s, a.i, key); }
      }
    }
  }

  lemma {:induction false} RunsKeepLocks(keys: seq<string>, actions: seq<Action>, key: string)
    requires IsRun(Init(keys), actions) && LockOutlasts(Init(keys), actions, key)
    ensures LocksAgree(RunState(Init(keys), actions), key)
  {
    if actions != [] {
      var n := |actions| - 1;
      RunsKeepLocks(keys, actions[..n], key);
      StepKeepsLocks(RunState(Init(keys), actions[..n]), actions[n], key);
    }
  }

  // While key's lock does not expire under its owner, at most one request with that key is between lock
  // and unlock, also when Redis errs or processes die, and whatever happens to other keys.
  lemma AtMostOneInside(keys: seq<string>, actions: seq<Action>, key: string, i: nat, j: nat)
    requires IsRun(Init(keys), actions) && LockOutlasts(Init(keys), actions, key)
    requires IsInside(RunState(Init(keys), actions), i, key) && IsInside(RunState(Init(keys), actions), j, key)
    ensures i == j
  {
    RunsKeepLocks(keys, actions, key);
  }

  // When it does expire so, and another request has missed the cache, two can be inside: from every
  // reachable state.
  lemma OwnedExpiryLetsTwoIn(keys: seq<string>, actions: seq<Action>, key: string, i: nat, j: nat)
    requires IsRun(Init(keys), actions)
    requires var s := RunState(Init(keys), actions);
             && IsInside(s, i, key) && j < |s.requests| && s.requests[j].key == key && s.requests[j].phase.Missed?
    ensures var s := RunState(Init(keys), actions);
            var longer := if key in s.locks then actions + [LockExpires(key)] + [Acquire(j)] else actions + [Acquire(j)];
            && IsRun(Init(keys), longer)
            && IsInside(RunState(Init(keys), longer), i, key) && IsInside(RunState(Init(keys), longer), j, key)
            && i != j
  {
    var s := RunState(Init(keys), actions);
    if key in s.locks {
      RunSnoc(Init(keys), actions, LockExpires(key));
      RunSnoc(Init(keys), actions + [LockExpires(key)], Acquire(j));
    } else {
      RunSnoc(Init(keys), actions, Acquire(j));
    }
  }

  // ---- caching ----

  // An execution of r under key has taken place.
  predicate Executed(s: State, key: string, r: Response) { Execution(key, r) in s.executions }

  predicate AnswersWereExecuted(s: State, q: Request) {
    match q.phase
    case Answered(r) => Executed(s, q.key, r)
    case Replayed(r) => Executed(s, q.key, r) && Cacheable(r)
    case _ => true
  }

  predicate ResponsesWereExecuted(s: State) {
    && (forall key :: key in s.responses ==> Executed(s, key, s.responses[key]) && Cacheable(s.responses[key]))
    && (forall i :: 0 <= i < |s.requests| ==> AnswersWereExecuted(s, s.requests[i]))
  }

  lemma ExecutionsGrow(s: State, a: Action, key: string, r: Response)
    requires Enabled(s, a) && Executed(s, key, r)
    ensures Executed(Step(s, a), key, r)
  {
  }

  // Where an answer or a replay comes from.
  lemma AnswerComesFrom(s: State, a: Action, i: nat)
    requires Enabled(s, a) && i < |s.requests|
    ensures i < |Step(s, a).requests| && Step(s, a).requests[i].key == s.requests[i].key
    ensures var q, q' := s.requests[i], Step(s, a).requests[i];
            && (q'.phase.Answered? ==> q'.phase == q.phase || a == Execute(i, q'.phase.r))
            && (q'.phase.Replayed? ==>
                  q'.phase == q.phase || (a == Lookup(i) && q.key in s.responses && q'.phase.r == s.responses[q.key]))
  {
  }

  lemma AnswerStep(s: State, a: Action, i: nat)
    requires ResponsesWereExecuted(s) && Enabled(s, a) && i < |s.requests|
    ensures i < |Step(s, a).requests| && AnswersWereExecuted(Step(s, a), Step(s, a).requests[i])
  {
    var q, q' := s.requests[i], Step(s, a).requests[i];
    AnswerComesFrom(s, a, i);
    assert AnswersWereExecuted(s, q);
    if (q'.phase.Answered? || q'.phase.Replayed?) && a != Execute(i, q'.phase.r) { ExecutionsGrow(s, a, q.key, q'.phase.r); }
  }

  lemma CachedStep(s: State, a: Action, key: string)
    requires ResponsesWereExecuted(s) && Enabled(s, a) && key in Step(s, a).responses
    ensures Executed(Step(s, a), key, Step(s, a).responses[key]) && Cacheable(Step(s, a).responses[key])
  {
    if a.Store? { assert AnswersWereExecuted(s, s.requests[a.i]); }
    ExecutionsGrow(s, a, key, Step(s, a).responses[key]);
  }

  lemma StepKeepsResponses(s: State, a: Action)
    requires ResponsesWereExecuted(s) && Enabled(s, a)
    ensures ResponsesWereExecuted(Step(s, a))
  {
    var s' := Step(s, a);
    forall key | key in s'.responses ensures Executed(s', key, s'.responses[key]) && Cacheable(s'.responses[key]) {
      CachedStep(s, a, key);
    }
    forall i | 0 <= i < |s'.requests| ensures AnswersWereExecuted(s', s'.requests[i]) {
      AnswerStep(s, a, i);
    }
  }

  // Every replay equals the response of an earlier execution with that key, and was cacheable. Locks
  // may expire, processes die, Redis err and stored responses expire.
  lemma {:induction false} ReplaysRepeatExecutions(keys: seq<string>, actions: seq<Action>)
    requires IsRun(Init(keys), actions)
    ensures ResponsesWereExecuted(RunState(Init(keys), actions))
  {
    if actions != [] {
      var n := |actions| - 1;
      ReplaysRepeatExecutions(keys, actions[..n]);
      StepKeepsResponses(RunState(Init(keys), actions[..n]), actions[n]);
    }
  }

  // Past its lookup and not done with.
  predicate PastLookup(r: Request) { r.phase.Missed? || r.phase.Unguarded? || r.phase.Held? }

  predicate LookedUpInTime(s: State, q: Request) {
    PastLookup(q) ==> q.lookedUp < s.clock && (q.key in s.firstStored ==> q.lookedUp < s.firstStored[q.key])
  }

  predicate LookupsPrecedeStores(s: State, key: string) {
    && (key in s.firstStored <==> key in s.responses)
    && (forall i :: 0 <= i < |s.requests| && s.requests[i].key == key ==> LookedUpInTime(s, s.requests[i]))
  }

  // key's response expires, or a lookup that would have found it errs.
  predicate LosesResponse(s: State, a: Action, key: string)
    requires Enabled(s, a)
  {
    key in s.responses && (a == ResponseExpires(key) || (a.LookupFails? && s.requests[a.i].key == key))
  }

  // That never happens in the run.
  predicate CacheHolds(s: State, actions: seq<Action>, key: string)
    requires IsRun(s, actions)
  {
    if actions == [] then true
    else
      var n := |actions| - 1;
      CacheHolds(s, actions[..n], key) && !LosesResponse(RunState(s, actions[..n]), actions[n], key)
  }

  lemma StepKeepsOrder(s: State, a: Action, key: string)
    requires LookupsPrecedeStores(s, key) && Enabled(s, a) && !LosesResponse(s, a, key)
    ensures LookupsPrecedeStores(Step(s, a), key)
  {
    var s' := Step(s, a);
    StoredStep(s, a, key);
    forall i | 0 <= i < |s'.requests| && s'.requests[i].key == key ensures LookedUpInTime(s', s'.requests[i]) {
      OneKeepsOrder(s, a, i);
    }
  }

  lemma StoredStep(s: State, a: Action, key: string)
    requires LookupsPrecedeStores(s, key) && Enabled(s, a) && !LosesResponse(s, a, key)
    ensures key in Step(s, a).firstStored <==> key in Step(s, a).responses
    ensures key in s.firstStored ==> key in Step(s, a).firstStored && Step(s, a).firstStored[key] == s.firstStored[key]
    ensures key in Step(s, a).firstStored && key !in s.firstStored ==> Step(s, a).firstStored[key] == s.clock
  {
  }

  // Where a request that is past its lookup comes from.
  lemma LookedUpAt(s: State, a: Action, i: nat)
    requires i < |s.requests| && Enabled(s, a)
    ensures i < |Step(s, a).requests| && Step(s, a).requests[i].key == s.requests[i].key
    ensures var q, q' := s.requests[i], Step(s, a).requests[i];
            PastLookup(q') ==>
              || (PastLookup(q) && q'.lookedUp == q.lookedUp)
              || (q'.lookedUp == s.clock && (a == LookupFails(i) || (a == Lookup(i) && q.key !in s.responses)))
  {
  }

  lemma OneKeepsOrder(s: State, a: Action, i: nat)
    requires i < |s.requests| && Enabled(s, a) && LookupsPrecedeStores(s, s.requests[i].key)
    requires !LosesResponse(s, a, s.requests[i].key)
    ensures i < |Step(s, a).requests| && Step(s, a).requests[i].key == s.requests[i].key
    ensures LookedUpInTime(Step(s, a), Step(s, a).requests[i])
  {
    LookedUpAt(s, a, i);
    StoredStep(s, a, s.requests[i].key);
    assert LookedUpInTime(s, s.requests[i]);
    assert a.Lookup? || a.LookupFails? ==> Step(s, a).firstStored == s.firstStored;
  }

  // Once a response below 500 is stored under key, only requests that had missed the cache before then
  // are still on their way to the handler, whatever becomes of other keys.
  lemma {:induction false} LateExecutionsLookedUpEarly(keys: seq<string>, actions: seq<Action>, key: string)
    requires IsRun(Init(keys), actions) && CacheHolds(Init(keys), actions, key)
    ensures LookupsPrecedeStores(RunState(Init(keys), actions), key)
  {
    if actions != [] {
      var n := |actions| - 1;
      LateExecutionsLookedUpEarly(keys, actions[..n], key);
      StepKeepsOrder(RunState(Init(keys), actions[..n]), actions[n], key);
    }
  }

  // ---- when a handler runs again ----

  // Nothing is stored under key, or request q had missed the cache before the first response was.
  predicate MayExecute(s: State, q: Request) {
    q.key !in s.firstStored || (PastLookup(q) && q.lookedUp < s.firstStored[q.key])
  }

  // The steps that take request i on, by itself, up to the handler's answer r.
  function Onward(s: State, i: nat, r: Response): seq<Action>
    requires i < |s.requests|
  {
    var q := s.requests[i];
    if q.phase.New? then
      if q.key in s.responses then [] + [Lookup(i)] else [] + [Lookup(i)] + [Acquire(i)] + [Execute(i, r)]
    else if q.phase.Missed? then [] + [Acquire(i)] + [Execute(i, r)]
    else [] + [Execute(i, r)]
  }

  lemma OnwardRuns(s: State, i: nat, r: Response)
    requires i < |s.requests| && (s.requests[i].phase.New? || s.requests[i].phase.Missed? || s.requests[i].phase.Held?)
    requires s.requests[i].phase.Held? || s.requests[i].key !in s.locks
    ensures IsRun(s, Onward(s, i, r))
    ensures RunState(s, Onward(s, i, r)).executions ==
            if s.requests[i].phase.New? && s.requests[i].key in s.responses then s.executions
            else s.executions + [Execution(s.requests[i].key, r)]
  {
    var q := s.requests[i];
    if q.phase.New? {
      var looked := Step(s, Lookup(i));
      ReachesMore(s, [], s, Lookup(i));
      if q.key !in s.responses {
        ReachesMore(s, [] + [Lookup(i)], looked, Acquire(i));
        ReachesMore(s, [] + [Lookup(i)] + [Acquire(i)], Step(looked, Acquire(i)), Execute(i, r));
      }
    } else if q.phase.Missed? {
      ReachesMore(s, [], s, Acquire(i));
      ReachesMore(s, [] + [Acquire(i)], Step(s, Acquire(i)), Execute(i, r));
    } else {
      ReachesMore(s, [], s, Execute(i, r));
    }
  }

  // In any interleaving, a request that is not finished, and finds the lock free if it needs it, goes on
  // to execute the handler, possibly once more, exactly when nothing is stored under its key yet or it
  // had missed the cache before the first response was.
  lemma ExecutesIff(keys: seq<string>, actions: seq<Action>, i: nat, r: Response)
    requires IsRun(Init(keys), actions)
    requires var s := RunState(Init(keys), actions);
             && i < |s.requests| && CacheHolds(Init(keys), actions, s.requests[i].key)
             && (s.requests[i].phase.New? || s.requests[i].phase.Missed? || s.requests[i].phase.Held?)
             && (s.requests[i].phase.Held? || s.requests[i].key !in s.locks)
    ensures var s := RunState(Init(keys), actions);
            && IsRun(s, Onward(s, i, r))
            && RunState(s, Onward(s, i, r)).executions ==
               if MayExecute(s, s.requests[i]) then s.executions + [Execution(s.requests[i].key, r)] else s.executions
  {
    var s := RunState(Init(keys), actions);
    LateExecutionsLookedUpEarly(keys, actions, s.requests[i].key);
    OnwardRuns(s, i, r);
    if !s.requests[i].phase.New? { assert LookedUpInTime(s, s.requests[i]); }
  }

  // And no step at all executes the handler for a request of which that is not so.
  lemma OnlyThenExecuted(keys: seq<string>, actions: seq<Action>, a: Action)
    requires IsRun(Init(keys), actions) && Enabled(RunState(Init(keys), actions), a)
    requires Step(RunState(Init(keys), actions), a).executions != RunState(Init(keys), actions).executions
    ensures var s := RunState(Init(keys), actions);
            && (a.Execute? || a.ExecuteUnguarded?)
            && Step(s, a).executions == s.executions + [Execution(s.requests[a.i].key, a.r)]
            && (CacheHolds(Init(keys), actions, s.requests[a.i].key) ==> MayExecute(s, s.requests[a.i]))
  {
    var s := RunState(Init(keys), actions);
    if CacheHolds(Init(keys), actions, s.requests[a.i].key) {
      LateExecutionsLookedUpEarly(keys, actions, s.requests[a.i].key);
      assert LookedUpInTime(s, s.requests[a.i]);
    }
  }

  // ---- not exactly once ----

  // Nothing expires, errs or dies.
  predicate AllGoesWell(actions: seq<Action>) {
    forall a :: a in actions ==>
                  !a.LockExpires? && !a.ResponseExpires? && !a.LookupFails? && !a.AcquireFails? && !a.Crash?
  }

  // Two requests with one key miss the cache; the second locks after the first has stored its answer.
  function TwiceRun(r: Response): seq<Action> {
    [Lookup(0), Lookup(1), Acquire(0), Execute(0, r), Store(0, true), Unlock(0), Acquire(1), Execute(1, r)]
  }

  function TwicePhases(r: Response, i: nat): (Phase, Phase) {
    (if i == 0 then New else if i <= 2 then Missed else if i == 3 then Held else if i == 4 then Answered(r)
     else if i == 5 then Stored(r) else Finished,
     if i <= 1 then New else if i <= 6 then Missed else if i == 7 then Held else Answered(r))
  }

  function TwiceState(key: string, r: Response, i: nat): State {
    State(if 3 <= i <= 5 then map[key := 0] else if i >= 7 then map[key := 1] else map[],
          if i >= 5 then map[key := r] else map[],
          [Request(key, TwicePhases(r, i).0, 0), Request(key, TwicePhases(r, i).1, if i >= 2 then 1 else 0)],
          i,
          if i >= 8 then [Execution(key, r), Execution(key, r)] else if i >= 4 then [Execution(key, r)] else [],
          if i >= 5 then map[key := 4] else map[])
  }

  lemma TwiceStep(key: string, r: Response, i: nat)
    requires Cacheable(r) && i < 8
    ensures Enabled(TwiceState(key, r, i), TwiceRun(r)[i])
    ensures Step(TwiceState(key, r, i), TwiceRun(r)[i]) == TwiceState(key, r, i + 1)
  {
    var s, s' := Step(TwiceState(key, r, i), TwiceRun(r)[i]), TwiceState(key, r, i + 1);
    assert s.requests == s'.requests;
    assert s.locks == s'.locks;
    assert s.executions == s'.executions;
  }

  lemma {:induction false} TwiceStates(key: string, r: Response, i: nat)
    requires Cacheable(r) && i <= 8
    ensures IsRun(TwiceState(key, r, 0), TwiceRun(r)[..i])
    ensures RunState(TwiceState(key, r, 0), TwiceRun(r)[..i]) == TwiceState(key, r, i)
  {
    if i > 0 {
      TwiceStates(key, r, i - 1);
      TwiceStep(key, r, i - 1);
      RunSnoc(TwiceState(key, r, 0), TwiceRun(r)[..i - 1], TwiceRun(r)[i - 1]);
      TwicePrefix(r, i - 1);
    }
  }

  lemma TwicePrefix(r: Response, i: nat)
    requires i < 8
    ensures TwiceRun(r)[..i] + [TwiceRun(r)[i]] == TwiceRun(r)[..i + 1]
  {
  }

  lemma RunSnoc(s: State, actions: seq<Action>, a: Action)
    requires IsRun(s, actions) && Enabled(RunState(s, actions), a)
    ensures IsRun(s, actions + [a]) && RunState(s, actions + [a]) == Step(RunState(s, actions), a)
  {
    assert (actions + [a])[..|actions|] == actions;
  }

  // The handler can run twice for one key, although nothing has expired, erred or died.
  lemma HandlerCanRunTwice(key: string, r: Response)
    requires Cacheable(r)
    ensures IsRun(Init([key, key]), TwiceRun(r)) && AllGoesWell(TwiceRun(r))
    ensures RunState(Init([key, key]), TwiceRun(r)).executions == [Execution(key, r), Execution(key, r)]
  {
    assert Init([key, key]).requests == TwiceState(key, r, 0).requests;
    TwiceStates(key, r, 8);
    assert TwiceRun(r)[..8] == TwiceRun(r);
  }

  // ---- one request, served alone ----

  // What Redis makes of its calls: whether GET answered and any entry it found could be read, what became
  // of SET NX, whether SET and DEL ran.
  datatype Fates = Fates(lookup: bool, lock: Delivery, stored: bool, unlocked: bool)

  datatype Outcome = Replay(response: Response) | Conflict | BadKey | Ran(response: Response)

  datatype Cache = Cache(locks: map<string, nat>, responses: map<string, Response>)

  function Serve(cache: Cache, key: string, i: nat, r: Response, fates: Fates): (Cache, Outcome) {
    if fates.lookup && key in cache.responses then (cache, Replay(cache.responses[key]))
    else if fates.lock != Replied then
      (if fates.lock == ReplyLost && key !in cache.locks then cache.(locks := cache.locks[key := i]) else cache, Ran(r))
    else if key in cache.locks then (cache, Conflict)
    else
      (Cache(if fates.unlocked then cache.locks - {key} else cache.locks[key := i],
             if Cacheable(r) && fates.stored then cache.responses[key := r] else cache.responses), Ran(r))
  }

  // The steps it takes in the machine.
  function OwnActions(cache: Cache, key: string, i: nat, r: Response, fates: Fates): seq<Action> {
    var looked := [] + [if fates.lookup then Lookup(i) else LookupFails(i)];
    if fates.lookup && key in cache.responses then looked
    else if fates.lock != Replied then looked + [AcquireFails(i, fates.lock == ReplyLost)] + [ExecuteUnguarded(i, r)]
    else if key in cache.locks then looked + [Acquire(i)]
    else looked + [Acquire(i)] + [Execute(i, r)] + [Store(i, fates.stored)] + [if fates.unlocked then Unlock(i) else Crash(i)]
  }

  predicate Reaches(s: State, actions: seq<Action>, end: State) {
    IsRun(s, actions) && RunState(s, actions) == end
  }

  lemma ReachesMore(s: State, actions: seq<Action>, mid: State, a: Action)
    requires Reaches(s, actions, mid) && Enabled(mid, a)
    ensures Reaches(s, actions + [a], Step(mid, a))
  {
    RunSnoc(s, actions, a);
  }

  // What serving request i has done to the state: its cache, what its handler has answered, and where the
  // request has ended.
  predicate Served(s: State, end: State, i: nat, cache: Cache, ran: seq<Execution>, phase: Phase) {
    && end.locks == cache.locks && end.responses == cache.responses
    && end.executions == s.executions + ran
    && |end.requests| == |s.requests| && i < |s.requests| && end.requests[i].phase == phase
  }

  // From the lock on, the requests' phases and the cache.
  lemma LockedSteps(mid: State, i: nat, r: Response, fates: Fates)
    requires i < |mid.requests| && mid.requests[i].phase.Missed? && mid.requests[i].key !in mid.locks
    ensures var key, locked := mid.requests[i].key, Step(mid, Acquire(i));
            && Enabled(locked, Execute(i, r))
            && Enabled(Step(locked, Execute(i, r)), Store(i, fates.stored))
            && var storing := Step(Step(locked, Execute(i, r)), Store(i, fates.stored));
               && Enabled(storing, Unlock(i)) && Enabled(storing, Crash(i))
               && |storing.requests| == |mid.requests|
               && storing.requests[i].key == key && storing.locks == mid.locks[key := i]
               && storing.executions == mid.executions + [Execution(key, r)]
               && storing.responses == (if Cacheable(r) && fates.stored then mid.responses[key := r] else mid.responses)
  {
  }

  lemma LockedIsARun(s: State, looked: seq<Action>, mid: State, i: nat, r: Response, fates: Fates) returns (end: State)
    requires Reaches(s, looked, mid) && i < |mid.requests|
    requires mid.requests[i].phase.Missed? && mid.requests[i].key !in mid.locks
    ensures var last := if fates.unlocked then Unlock(i) else Crash(i);
            Reaches(s, looked + [Acquire(i)] + [Execute(i, r)] + [Store(i, fates.stored)] + [last], end)
    ensures var key := mid.requests[i].key;
            Served(mid, end, i,
                   Cache(if fates.unlocked then mid.locks - {key} else mid.locks[key := i],
                         if Cacheable(r) && fates.stored then mid.responses[key := r] else mid.responses),
                   [Execution(key, r)], Finished)
  {
    LockedSteps(mid, i, r, fates);
    var locked := Step(mid, Acquire(i));
    var executed := Step(locked, Execute(i, r));
    var storing := Step(executed, Store(i, fates.stored));
    var last := if fates.unlocked then Unlock(i) else Crash(i);
    end := Step(storing, last);
    var acquired := looked + [Acquire(i)];
    ReachesMore(s, looked, mid, Acquire(i));
    ReachesMore(s, acquired, locked, Execute(i, r));
    ReachesMore(s, acquired + [Execute(i, r)], executed, Store(i, fates.stored));
    ReachesMore(s, acquired + [Execute(i, r)] + [Store(i, fates.stored)], storing, last);
    assert mid.locks[mid.requests[i].key := i] - {mid.requests[i].key} == mid.locks - {mid.requests[i].key};
  }

  // When SET NX errs.
  lemma UnguardedIsARun(s: State, looked: seq<Action>, mid: State, i: nat, r: Response, ran: bool) returns (end: State)
    requires Reaches(s, looked, mid) && i < |mid.requests| && mid.requests[i].phase.Missed?
    ensures Reaches(s, looked + [AcquireFails(i, ran)] + [ExecuteUnguarded(i, r)], end)
    ensures var key := mid.requests[i].key;
            Served(mid, end, i,
                   Cache(if ran && key !in mid.locks then mid.locks[key := i] else mid.locks, mid.responses),
                   [Execution(key, r)], Finished)
  {
    var passed := Step(mid, AcquireFails(i, ran));
    end := Step(passed, ExecuteUnguarded(i, r));
    ReachesMore(s, looked, mid, AcquireFails(i, ran));
    ReachesMore(s, looked + [AcquireFails(i, ran)], passed, ExecuteUnguarded(i, r));
  }

  lemma RefusedIsARun(s: State, looked: seq<Action>, mid: State, i: nat) returns (end: State)
    requires Reaches(s, looked, mid) && i < |mid.requests| && mid.requests[i].phase.Missed?
    requires mid.requests[i].key in mid.locks
    ensures Reaches(s, looked + [Acquire(i)], end)
    ensures Served(mid, end, i, Cache(mid.locks, mid.responses), [], Refused)
  {
    end := Step(mid, Acquire(i));
    ReachesMore(s, looked, mid, Acquire(i));
  }

  lemma LookupIsARun(s: State, i: nat, lookup: bool) returns (mid: State)
    requires i < |s.requests| && s.requests[i].phase.New?
    ensures Reaches(s, [] + [if lookup then Lookup(i) else LookupFails(i)], mid)
    ensures |mid.requests| == |s.requests| && mid.requests[i].key == s.requests[i].key
    ensures Served(s, mid, i, Cache(s.locks, s.responses), [],
                   if lookup && s.requests[i].key in s.responses then Replayed(s.responses[s.requests[i].key]) else Missed)
  {
    var first := if lookup then Lookup(i) else LookupFails(i);
    mid := Step(s, first);
    ReachesMore(s, [], s, first);
  }

  // Serving a request by itself is a run of the machine: the cache ends the same, the handler has answered
  // exactly when the outcome says so, and the request ends refused or replayed exactly when it does.
  lemma ServeIsARun(s: State, i: nat, r: Response, fates: Fates) returns (end: State)
    requires i < |s.requests| && s.requests[i].phase.New?
    ensures var cache, key := Cache(s.locks, s.responses), s.requests[i].key;
            var (after, outcome) := Serve(cache, key, i, r, fates);
            && Reaches(s, OwnActions(cache, key, i, r, fates), end)
            && Cache(end.locks, end.responses) == after
            && end.executions == s.executions + (if outcome.Ran? then [Execution(key, outcome.response)] else [])
            && |end.requests| == |s.requests|
            && (end.requests[i].phase.Refused? <==> outcome == Conflict)
            && (forall x :: end.requests[i].phase == Replayed(x) <==> outcome == Replay(x))
  {
    var key := s.requests[i].key;
    var looked := [] + [if fates.lookup then Lookup(i) else LookupFails(i)];
    var mid := LookupIsARun(s, i, fates.lookup);
    if fates.lookup && key in s.responses {
      end := mid;
    } else if fates.lock != Replied {
      end := UnguardedIsARun(s, looked, mid, i, r, fates.lock == ReplyLost);
    } else if key in s.locks {
      end := RefusedIsARun(s, looked, mid, i);
    } else {
      end := LockedIsARun(s, looked, mid, i, r, fates);
    }
  }

  // A retry after a first request was served: its response is replayed, without another execution,
  // exactly when the first one got its lock, answered below 500 and could store that, and the retry's
  // lookup works.
  lemma RetryReplaysIff(cache: Cache, key: string, i: nat, j: nat, r: Response, again: Response, f: Fates, g: Fates)
    requires key !in cache.locks && key !in cache.responses
    ensures var retry := Serve(Serve(cache, key, i, r, f).0, key, j, again, g).1;
            && (retry.Replay? <==> g.lookup && f.lock == Replied && f.stored && 200 <= r.statusCode < 500)
            && (retry.Replay? ==> retry.response == r)
  {
  }

  // ---- the handler function itself ----

  datatype HandlerCall = WriteHeader(statusCode: int) | Write(bytes: string)

  // The response of a handler that makes these calls: the last status written, 200 if none, and all bytes.
  function Recorded(calls: seq<HandlerCall>, contentType: string): Response {
    if calls == [] then Response(200, contentType, "")
    else
      var before := Recorded(calls[..|calls| - 1], contentType);
      match calls[|calls| - 1]
      case WriteHeader(statusCode) => before.(statusCode := statusCode)
      case Write(bytes) => before.(body := before.body + bytes)
  }

  // The last status written decides; all bytes written are kept, in order.
  lemma {:induction false} RecordedStatus(calls: seq<HandlerCall>, contentType: string, n: nat)
    requires n <= |calls| && forall k :: n <= k < |calls| ==> calls[k].Write?
    ensures n == 0 ==> Recorded(calls, contentType).statusCode == 200
    ensures n > 0 && calls[n - 1].WriteHeader? ==> Recorded(calls, contentType).statusCode == calls[n - 1].statusCode
    decreases |calls|
  {
    if n < |calls| {
      assert calls[|calls| - 1].Write?;
      RecordedStatus(calls[..|calls| - 1], contentType, n);
    }
  }

  lemma {:induction false} RecordedType(calls: seq<HandlerCall>, contentType: string)
    ensures Recorded(calls, contentType).contentType == contentType
  {
    if calls != [] { RecordedType(calls[..|calls| - 1], contentType); }
  }

  lemma {:induction false} RecordedBody(first: seq<HandlerCall>, rest: seq<HandlerCall>, contentType: string)
    ensures Recorded(first + rest, contentType).body == Recorded(first, contentType).body + Recorded(rest, contentType).body
  {
    if rest == [] {
      assert first + rest == first;
    } else {
      var n := |rest| - 1;
      RecordedBody(first, rest[..n], contentType);
      assert (first + rest)[..|first + rest| - 1] == first + rest[..n];
    }
  }

  // What net/http sends as the status (informational ones aside): the first one written, and 200 if a
  // body comes first.
  function SentStatus(calls: seq<HandlerCall>): int {
    if calls != [] && calls[0].WriteHeader? then calls[0].statusCode else 200
  }

  // A handler that writes its header before all else, if it does, and once, has recorded what was sent;
  // one that writes two may not have.
  lemma RecordedIsSent(calls: seq<HandlerCall>, contentType: string)
    requires forall k :: 0 < k < |calls| ==> calls[k].Write?
    ensures Recorded(calls, contentType).statusCode == SentStatus(calls)
  {
    RecordedStatus(calls, contentType, if calls != [] && calls[0].WriteHeader? then 1 else 0);
  }

  lemma TwoHeadersDiffer(first: int, last: int)
    ensures var calls := [WriteHeader(first), WriteHeader(last)];
            Recorded(calls, "").statusCode == last && SentStatus(calls) == first
  {
    RecordedStatus([WriteHeader(first), WriteHeader(last)], "", 2);
  }

  class ResponseRecorder {
    var statusCode: int
    var body: string

    constructor ()
      ensures statusCode == 200 && body == ""
    {
      statusCode, body := 200, "";
    }

    // next.ServeHTTP(recorder, r)
    method Record(calls: seq<HandlerCall>, contentType: string)
      requires statusCode == 200 && body == ""
      modifies this
      ensures Response(statusCode, contentType, body) == Recorded(calls, contentType)
    {
      for n := 0 to |calls|
        invariant Response(statusCode, contentType, body) == Recorded(calls[..n], contentType)
      {
        assert calls[..n + 1][..n] == calls[..n];
        match calls[n] {
          case WriteHeader(code) => statusCode := code;
          case Write(bytes) => body := body + bytes;
        }
      }
      assert calls[..|calls|] == calls;
    }
  }

  class IdempotencyMiddleware {
    var locks: map<string, nat>
    var responses: map<string, Response>

    constructor ()
      ensures locks == map[] && responses == map[]
    {
      locks, responses := map[], map[];
    }

    // `i` names the request. Requests that change nothing or carry no key pass through untouched, and
    // malformed keys are turned away.
    method ServeHTTP(key: string, verb: string, isUuid: bool, i: nat, calls: seq<HandlerCall>, contentType: string, fates: Fates)
      returns (outcome: Outcome)
      modifies this
      ensures key == "" || verb in ["GET", "HEAD", "OPTIONS"] ==>
                outcome == Ran(Recorded(calls, contentType)) && locks == old(locks) && responses == old(responses)
      ensures key != "" && verb !in ["GET", "HEAD", "OPTIONS"] && !isUuid && |key| < 8 ==>
                outcome == BadKey && locks == old(locks) && responses == old(responses)
      ensures key != "" && verb !in ["GET", "HEAD", "OPTIONS"] && (isUuid || |key| >= 8) ==>
                (Cache(locks, responses), outcome) ==
                Serve(Cache(old(locks), old(responses)), key, i, Recorded(calls, contentType), fates)
      // A stored response is replayed, and no handler runs while another request owns the lock.
      ensures key != "" && verb !in ["GET", "HEAD", "OPTIONS"] && (isUuid || |key| >= 8) ==>
                && (fates.lookup && key in old(responses) ==>
                      outcome == Replay(old(responses)[key]) && locks == old(locks) && responses == old(responses))
                && (!(fates.lookup && key in old(responses)) && fates.lock == Replied && key in old(locks) ==>
                      outcome == Conflict && locks == old(locks) && responses == old(responses))
      // In every other case the handler answers. What it has recorded is kept when the request had the lock
      // and it is below 500; a lock the request has set goes unless its DEL fails or it never knew of it.
      ensures key != "" && verb !in ["GET", "HEAD", "OPTIONS"] && (isUuid || |key| >= 8)
              && !(fates.lookup && key in old(responses)) && !(fates.lock == Replied && key in old(locks)) ==>
                var answer := Recorded(calls, contentType);
                && outcome == Ran(answer)
                && responses == (if fates.lock == Replied && fates.stored && 200 <= answer.statusCode < 500
                                 then old(responses)[key := answer] else old(responses))
                && locks == (if key in old(locks) || fates.lock == NotRun || (fates.lock == Replied && fates.unlocked)
                             then old(locks) else old(locks)[key := i])
    {
      if key == "" || verb == "GET" || verb == "HEAD" || verb == "OPTIONS" {
        return Ran(Recorded(calls, contentType));
      }
      if !isUuid && |key| < 8 {
        return BadKey;
      }
      if fates.lookup && key in responses {
        return Replay(responses[key]);
      }
      var locked := key !in locks;
      if fates.lock != NotRun && locked {
        locks := locks[key := i];
      }
      if fates.lock != Replied {
        return Ran(Recorded(calls, contentType));
      }
      if !locked {
        return Conflict;
      }
      var recorder := new ResponseRecorder();
      recorder.Record(calls, contentType);
      var response := Response(recorder.statusCode, contentType, recorder.body);
      if recorder.statusCode >= 200 && recorder.statusCode < 500 && fates.stored {
        responses := responses[key := response];
      }
      if fates.unlocked {
        locks := locks - {key};
        assert locks == old(locks) - {key};
      }
      outcome := Ran(response);
    }
  }
}

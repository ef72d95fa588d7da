/** What every run of the authentication service guarantees. */
module AuthSafety {
  import opened Sums
  import opened Authentication
  import opened AuthProtocol

  ghost predicate Begins(s: System) {
    s == System(NewService(s.auth.config), [], map[], 0, s.clock)
  }

  ghost predicate IsRun(w: World, states: seq<System>, actions: seq<Action>) {
    && |states| == |actions| + 1
    && Begins(states[0])
    && forall i :: 0 <= i < |actions| ==> CanAct(w, states[i], actions[i]) && states[i + 1] == Act(w, states[i], actions[i])
  }

  lemma {:induction false} RunKeeps(w: World, states: seq<System>, actions: seq<Action>, n: nat)
    requires IsRun(w, states, actions) && n < |states|
    ensures Inv(w, states[n])
  {
    hide Inv, Act, CanAct;
    if n == 0 {
      StartKeeps(w, states[0].auth.config, states[0].clock);
    } else {
      RunKeeps(w, states, actions, n - 1);
      ActKeeps(w, states[n - 1], actions[n - 1]);
    }
  }

  // ----- credentials -----

  /** The effective credentials are the same in all states from j to n. */
  ghost predicate Unchanged(w: World, states: seq<System>, j: nat, n: nat)
    requires j <= n < |states|
  {
    forall k :: j <= k <= n ==> Effective(w, states[k].auth.config) == Effective(w, states[n].auth.config)
  }

  lemma GenerationStep(w: World, s: System, a: Action)
    requires CanAct(w, s, a)
    ensures var t := Act(w, s, a);
            && s.auth.generation <= t.auth.generation
            && (s.auth.generation == t.auth.generation <==> Effective(w, s.auth.config) == Effective(w, t.auth.config))
  {
    hide Oldest, SplitOnce, Unexpired, RunningChecks;
  }

  /** The generation says exactly whether the effective credentials stayed the same throughout. */
  lemma {:induction false} GenerationTells(w: World, states: seq<System>, actions: seq<Action>, j: nat, n: nat)
    requires IsRun(w, states, actions) && j <= n < |states|
    ensures states[j].auth.generation <= states[n].auth.generation
    ensures states[j].auth.generation == states[n].auth.generation <==> Unchanged(w, states, j, n)
    decreases n - j
  {
    hide Act, CanAct, Effective;
    if j < n {
      GenerationTells(w, states, actions, j, n - 1);
      GenerationStep(w, states[n - 1], actions[n - 1]);
      if Unchanged(w, states, j, n) {
        assert Effective(w, states[n - 1].auth.config) == Effective(w, states[n].auth.config);
        assert Unchanged(w, states, j, n - 1);
      }
    }
  }

  /** The credentials a request carries, if it carries any. */
  function Carried(header: Option<string>): Option<Key> {
    if header.None? then None else SplitOnce(header.value)
  }

  /** These credentials are the ones configured now. */
  predicate Correct(w: World, s: System, key: Key) {
    && key.user == w.trim(s.auth.config.loginUser)
    && w.verifies(key.password, s.auth.config.loginPassword)
  }

  // ----- where cache entries and waiting requests come from -----

  /** At step j a check of `key` ends in success, and the credentials are those it began with. */
  ghost predicate SucceedsAt(states: seq<System>, actions: seq<Action>, j: int, key: Key)
    requires |states| == |actions| + 1
  {
    && 0 <= j < |actions| && actions[j].Complete? && actions[j].check < |states[j].checks|
    && states[j].checks[actions[j].check].key == key
    && states[j].checks[actions[j].check].stage == Decided(Allowed)
    && states[j].checks[actions[j].check].generation == states[j].auth.generation
  }

  /** The request finds its credentials in the cache. */
  ghost predicate Hits(w: World, s: AuthState, header: Option<string>, now: nat, k: Key) {
    && Enabled(w, s.config) && Carried(header) == Some(k) && k.user == w.trim(s.config.loginUser)
    && k in Unexpired(s.cache, now)
  }

  lemma EnterEntry(w: World, s: AuthState, header: Option<string>, now: nat, channel: nat, k: Key)
    ensures var (t, e) := Enter(w, s, header, now, channel);
            && t.generation == s.generation && s.accessCounter <= t.accessCounter
            && (k in t.cache ==>
                  && k in s.cache && t.cache[k].verifiedAt == s.cache[k].verifiedAt
                  && (t.cache[k] != s.cache[k] ==>
                        Hits(w, s, header, now, k) && t.cache[k].lastAccess == t.accessCounter))
            && (Hits(w, s, header, now, k) ==>
                  k in t.cache && t.cache[k].lastAccess == t.accessCounter == s.accessCounter + 1)
  {
    hide SplitOnce;
  }

  lemma FinishEntry(s: AuthState, key: Key, generation: nat, channel: nat, d: Decision, now: nat, oldest: Key, k: Key)
    ensures var t := Finish(s, key, generation, channel, d, now, oldest);
            && t.generation == s.generation && s.accessCounter == t.accessCounter
            && (k in t.cache ==>
                  || (k in s.cache && t.cache[k] == s.cache[k])
                  || (k == key && d == Allowed && generation == s.generation && t.cache[k] == Entry(now, t.accessCounter)))
            && (d == Allowed && generation == s.generation ==>
                  key in t.cache && t.cache[key].lastAccess == t.accessCounter)
  {
  }

  lemma CacheStep(w: World, s: System, a: Action, k: Key)
    requires CanAct(w, s, a)
    ensures var t := Act(w, s, a);
            && s.auth.accessCounter <= t.auth.accessCounter
            && (k in t.auth.cache ==>
                  && t.auth.generation == s.auth.generation
                  && (|| (k in s.auth.cache && t.auth.cache[k] == s.auth.cache[k])
                      || (&& a.Arrive? && k in s.auth.cache && t.auth.cache[k].verifiedAt == s.auth.cache[k].verifiedAt
                          && Hits(w, s.auth, a.header, s.clock, k) && t.auth.cache[k].lastAccess == t.auth.accessCounter)
                      || (&& a.Complete? && s.checks[a.check].key == k && s.checks[a.check].stage == Decided(Allowed)
                          && s.checks[a.check].generation == s.auth.generation
                          && t.auth.cache[k] == Entry(s.clock, t.auth.accessCounter))))
  {
    hide Hits, Enter, Finish, Oldest;
    match a
    case Arrive(_, header) => EnterEntry(w, s.auth, header, s.clock, |s.checks|, k);
    case Complete(i, oldest) =>
      var c := s.checks[i];
      FinishEntry(s.auth, c.key, c.generation, i, c.stage.decision, s.clock, oldest, k);
    case _ =>
  }

  /** Every entry stems from a success at the time it names, and the credentials have not changed since. */
  lemma {:induction false} CacheHistory(w: World, states: seq<System>, actions: seq<Action>, n: nat, k: Key)
    requires IsRun(w, states, actions) && n < |states| && k in states[n].auth.cache
    ensures exists j :: SucceedsAt(states, actions, j, k) && j < n
                        && states[j].clock == states[n].auth.cache[k].verifiedAt
                        && states[j].auth.generation == states[n].auth.generation
  {
    hide Act, CanAct;
    if n > 0 {
      CacheStep(w, states[n - 1], actions[n - 1], k);
      if k in states[n - 1].auth.cache && states[n - 1].auth.cache[k].verifiedAt == states[n].auth.cache[k].verifiedAt {
        CacheHistory(w, states, actions, n - 1, k);
      } else {
        assert CanAct(w, states[n - 1], actions[n - 1]);
        CanCompleteBound(w, states[n - 1], actions[n - 1]);
        assert SucceedsAt(states, actions, n - 1, k);
      }
    }
  }

  lemma CanCompleteBound(w: World, s: System, a: Action)
    requires CanAct(w, s, a)
    ensures a.Complete? ==> a.check < |s.checks|
  {
  }

  /** At step j the request arrives with these credentials and begins to wait. */
  ghost predicate ArrivesAt(w: World, states: seq<System>, actions: seq<Action>, j: int, request: nat, wt: Waiter)
    requires |states| == |actions| + 1
  {
    && 0 <= j < |actions| && actions[j].Arrive? && actions[j].request == request
    && Carried(actions[j].header) == Some(wt.key)
    && states[j].auth.generation == wt.generation
  }

  lemma WaiterStep(w: World, s: System, a: Action, r: nat)
    requires CanAct(w, s, a) && r in Act(w, s, a).waiters
    ensures var wt := Act(w, s, a).waiters[r];
            || (r in s.waiters && s.waiters[r] == wt)
            || (a.Arrive? && a.request == r && Carried(a.header) == Some(wt.key) && s.auth.generation == wt.generation)
  {
    hide Oldest, SplitOnce, Unexpired, RunningChecks;
  }

  lemma {:induction false} WaiterHistory(w: World, states: seq<System>, actions: seq<Action>, n: nat, r: nat)
    requires IsRun(w, states, actions) && n < |states| && r in states[n].waiters
    ensures exists j :: ArrivesAt(w, states, actions, j, r, states[n].waiters[r]) && j < n
                        && forall k :: j < k <= n ==> r in states[k].waiters
  {
    hide Act, CanAct, Carried;
    if n > 0 {
      WaiterStep(w, states[n - 1], actions[n - 1], r);
      if r in states[n - 1].waiters && states[n - 1].waiters[r] == states[n].waiters[r] {
        WaiterHistory(w, states, actions, n - 1, r);
      } else {
        assert ArrivesAt(w, states, actions, n - 1, r, states[n].waiters[r]);
      }
    }
  }

  predicate Succeeded(s: System, i: nat) {
    i < |s.checks| && (s.checks[i].stage == Decided(Allowed) || (i in s.auth.sent && s.auth.sent[i] == Allowed))
  }

  lemma SuccessStep(w: World, s: System, a: Action, i: nat)
    requires CanAct(w, s, a) && Succeeded(Act(w, s, a), i)
    requires ChecksOk(w, s)
    ensures Succeeded(s, i) || a == Return(i, false)
  {
    hide Oldest, SplitOnce, Unexpired, RunningChecks, CheckOk;
  }

  /** A check succeeds only after the password verifier has returned for it. */
  lemma {:induction false} SuccessHistory(w: World, states: seq<System>, actions: seq<Action>, n: nat, i: nat)
    requires IsRun(w, states, actions) && n < |states| && Succeeded(states[n], i)
    ensures Return(i, false) in actions[..n]
  {
    hide Act, CanAct, Succeeded;
    if n == 0 {
      NothingSucceeded(states[0], i);
    } else {
      RunKeeps(w, states, actions, n - 1);
      SuccessStep(w, states[n - 1], actions[n - 1], i);
      if Succeeded(states[n - 1], i) {
        SuccessHistory(w, states, actions, n - 1, i);
      }
      assert actions[..n] == actions[..n - 1] + [actions[n - 1]];
    }
  }

  lemma NothingSucceeded(s: System, i: nat)
    requires Begins(s)
    ensures !Succeeded(s, i)
  {
  }

  // ----- answers -----

  /**
   A request that is let in at once, while login is enabled, carries the current credentials, and a
   check of them succeeded less than half an hour ago, since when they have not changed.
   */
  lemma CachedAllowedIsJustified(w: World, states: seq<System>, actions: seq<Action>, n: nat)
    requires IsRun(w, states, actions) && n < |actions| && actions[n].Arrive?
    requires Enabled(w, states[n].auth.config)
    requires Answer(w, states[n], actions[n]) == Some(Allowed)
    ensures var key := Carried(actions[n].header);
            && key.Some? && Correct(w, states[n], key.value)
            && exists j :: SucceedsAt(states, actions, j, key.value) && j < n
                           && Elapsed(states[n].clock, states[j].clock) < CACHE_TTL
                           && Unchanged(w, states, j, n)
  {
    hide SplitOnce, Act, CanAct, Unchanged;
    RunKeeps(w, states, actions, n);
    var key := Carried(actions[n].header).value;
    assert key in states[n].auth.cache && Elapsed(states[n].clock, states[n].auth.cache[key].verifiedAt) < CACHE_TTL;
    assert Correct(w, states[n], key) by { assert CacheOk(w, states[n]); }
    CacheHistory(w, states, actions, n, key);
    var j :| SucceedsAt(states, actions, j, key) && j < n
             && states[j].clock == states[n].auth.cache[key].verifiedAt
             && states[j].auth.generation == states[n].auth.generation;
    GenerationTells(w, states, actions, j, n);
  }

  /**
   A request that waited is let in exactly on a success of a check of its own password, and only when
   the credentials stayed the same from its first critical section to its last.
   */
  lemma WaitedAnswerIsJustified(w: World, states: seq<System>, actions: seq<Action>, n: nat)
    requires IsRun(w, states, actions) && n < |actions| && actions[n].Wake?
    requires actions[n].request in states[n].waiters
    ensures var answer := Answer(w, states[n], actions[n]);
            var wt := states[n].waiters[actions[n].request];
            exists j :: ArrivesAt(w, states, actions, j, actions[n].request, wt) && j < n
              && (forall k :: j < k <= n ==> actions[n].request in states[k].waiters)
              && (answer == Some(Allowed) ==>
                    && Unchanged(w, states, j, n) && Correct(w, states[n], wt.key)
                    && wt.channel < |states[n].checks| && states[n].checks[wt.channel].key == wt.key
                    && Return(wt.channel, false) in actions[..n])
              && (answer == Some(Unauthorized) ==> !Unchanged(w, states, j, n) || !Correct(w, states[n], wt.key))
              && answer.Some? && answer.value != Busy
  {
    hide SplitOnce, Act, Unchanged, Carried;
    RunKeeps(w, states, actions, n);
    var s, request := states[n], actions[n].request;
    var wt := s.waiters[request];
    assert CanAct(w, s, actions[n]);
    WaiterHistory(w, states, actions, n, request);
    var j :| ArrivesAt(w, states, actions, j, request, wt) && j < n
             && forall k :: j < k <= n ==> request in states[k].waiters;
    GenerationTells(w, states, actions, j, n);
    assert WaiterOk(s, wt);
    assert CheckOk(w, s, wt.channel);
    if Answer(w, s, actions[n]) == Some(Allowed) {
      SuccessHistory(w, states, actions, n, wt.channel);
    }
  }

  // ----- bounds -----

  ghost function FlightSet(s: System): set<int> {
    set i | 0 <= i < |s.checks| && InFlight(s, i)
  }

  /** The checks in flight are one-to-one with the pending keys, and everything is bounded. */
  lemma SingleFlight(w: World, states: seq<System>, actions: seq<Action>, n: nat)
    requires IsRun(w, states, actions) && n < |states|
    ensures var s := states[n];
            && (forall i, j :: InFlight(s, i) && InFlight(s, j) && s.checks[i].key == s.checks[j].key ==> i == j)
            && (set i | i in FlightSet(s) :: s.checks[i].key) == s.auth.pending.Keys
            && |FlightSet(s)| == |s.auth.pending| <= 32
            && |s.auth.cache| <= 256
            && |RunningChecks(s.checks)| <= 2
  {
    RunKeeps(w, states, actions, n);
    var s := states[n];
    hide ChecksOk, WaitersOk, Act, CanAct;
    var keyOf: int -> Key := i => if 0 <= i < |s.checks| then s.checks[i].key else Key("", "");
    forall k | k in s.auth.pending.Keys ensures exists i :: i in FlightSet(s) && keyOf(i) == k {
      assert s.auth.pending[k] in FlightSet(s);
    }
    SumImage(FlightSet(s), i => 0, keyOf, s.auth.pending.Keys, k => 0);
  }

  // ----- progress -----

  lemma {:induction false} OldestExists(cache: map<Key, Entry>)
    requires cache != map[]
    ensures exists k :: Oldest(cache, k)
    decreases |cache|
  {
    var x :| x in cache;
    var rest := cache - {x};
    assert rest.Keys == cache.Keys - {x};
    if rest != map[] {
      OldestExists(rest);
      var y :| Oldest(rest, y);
      assert forall k :: k in cache ==> k == x || (k in rest && cache[y].lastAccess <= rest[k].lastAccess);
      assert Oldest(cache, if cache[x].lastAccess <= cache[y].lastAccess then x else y);
    } else {
      assert forall k :: k in cache ==> k == x || k in rest;
      assert Oldest(cache, x);
    }
  }

  /** Work that is already under way: an answer to give, or a check or a hash that can move on. */
  predicate Advances(a: Action) {
    a.Wake? || a.Start? || a.Return? || a.Complete? || a.EndHash?
  }

  /** While a request waits, its answer is there or some work under way can move on: nothing is stranded. */
  lemma NeverStuck(w: World, states: seq<System>, actions: seq<Action>, n: nat, r: nat)
    requires IsRun(w, states, actions) && n < |states| && r in states[n].waiters
    ensures exists a :: Advances(a) && CanAct(w, states[n], a)
    ensures states[n].waiters[r].channel !in states[n].auth.sent ==> InFlight(states[n], states[n].waiters[r].channel)
  {
    RunKeeps(w, states, actions, n);
    var s := states[n];
    var i := s.waiters[r].channel;
    assert WaiterOk(s, s.waiters[r]) && CheckOk(w, s, i);
    if i in s.auth.sent {
      assert CanAct(w, s, Wake(r));
    } else {
      CheckAdvances(w, s, i);
    }
  }

  lemma CheckAdvances(w: World, s: System, i: nat)
    requires i < |s.checks| && !s.checks[i].stage.Ended?
    ensures exists a :: Advances(a) && CanAct(w, s, a)
  {
    match s.checks[i].stage
    case Queued =>
      if PermitFree(s) {
        assert CanAct(w, s, Start(i));
      } else if s.hashing > 0 {
        assert CanAct(w, s, EndHash);
      } else {
        var j :| j in RunningChecks(s.checks);
        assert CanAct(w, s, Return(j, false));
      }
    case Running => assert CanAct(w, s, Return(i, false));
    case Decided(_) =>
      if |s.auth.cache| >= CACHE_CAPACITY { OldestExists(s.auth.cache); }
      var oldest :| |s.auth.cache| >= CACHE_CAPACITY ==> Oldest(s.auth.cache, oldest);
      assert CanAct(w, s, Complete(i, oldest));
  }

  /** How many steps of its own a check still has before it. */
  function StepsLeft(stage: Stage): nat {
    match stage
    case Queued => 3
    case Running => 2
    case Decided(_) => 1
    case Ended => 0
  }

  function ChecksLeft(checks: seq<Check>): nat {
    if checks == [] then 0 else ChecksLeft(checks[..|checks| - 1]) + StepsLeft(checks[|checks| - 1].stage)
  }

  /** The work under way: checks, hashes, and requests to be answered. */
  function Work(s: System): nat {
    ChecksLeft(s.checks) + s.hashing + |s.waiters|
  }

  lemma {:induction false} StageWork(checks: seq<Check>, i: nat, stage: Stage)
    requires i < |checks|
    ensures ChecksLeft(checks[i := checks[i].(stage := stage)]) + StepsLeft(checks[i].stage)
            == ChecksLeft(checks) + StepsLeft(stage)
    decreases |checks|
  {
    var n := |checks| - 1;
    var moved := checks[i := checks[i].(stage := stage)];
    if i < n {
      StageWork(checks[..n], i, stage);
      assert moved[..n] == checks[..n][i := checks[i].(stage := stage)];
    } else {
      assert moved[..n] == checks[..n];
    }
  }

  /** Every step of work under way leaves less of it, and so does a refused check or a cancelled request. */
  lemma WorkFalls(w: World, s: System, a: Action)
    requires CanAct(w, s, a) && (Advances(a) || a.Refuse? || a.Cancel?)
    ensures Work(Act(w, s, a)) < Work(s)
  {
    hide Oldest, Finish, ChecksLeft, PermitFree, RunningChecks;
    match a
    case Start(i) =>
      StageWork(s.checks, i, Running);
      StageWork(s.checks, i, Ended);
    case Refuse(i) => StageWork(s.checks, i, Decided(Failed));
    case Return(i, panicked) => ReturnWork(w, s, i, panicked);
    case Complete(i, oldest) => StageWork(s.checks, i, Ended);
    case Wake(r) => OneWaiterLess(s, r);
    case Cancel(r) => OneWaiterLess(s, r);
    case EndHash =>
  }

  lemma ReturnWork(w: World, s: System, i: nat, panicked: bool)
    requires i < |s.checks| && s.checks[i].stage.Running?
    ensures Work(Returned(w, s, i, panicked)) < Work(s)
  {
    StageWork(s.checks, i, Returned(w, s, i, panicked).checks[i].stage);
  }

  lemma OneWaiterLess(s: System, r: nat)
    requires r in s.waiters
    ensures |s.waiters - {r}| < |s.waiters|
  {
    assert (s.waiters - {r}).Keys == s.waiters.Keys - {r};
  }

  lemma {:induction false} ExtendedRun(w: World, states: seq<System>, actions: seq<Action>, a: Action)
    requires IsRun(w, states, actions) && CanAct(w, states[|actions|], a)
    ensures IsRun(w, states + [Act(w, states[|actions|], a)], actions + [a])
  {
    hide Act, CanAct;
  }

  lemma OnlyWakeAnswers(w: World, s: System, a: Action, r: nat)
    requires CanAct(w, s, a) && Advances(a) && r in s.waiters
    ensures a == Wake(r) || r in Act(w, s, a).waiters
  {
  }

  /** After any run the work under way suffices to answer every request that waits. */
  lemma {:induction false} EveryoneIsAnswered(w: World, states: seq<System>, actions: seq<Action>)
    returns (more: seq<Action>, after: seq<System>)
    requires IsRun(w, states, actions)
    ensures IsRun(w, states + after, actions + more)
    ensures |after| == |more| <= Work(states[|actions|]) && forall i :: 0 <= i < |more| ==> Advances(more[i])
    ensures forall r :: r in states[|actions|].waiters ==> Wake(r) in more
    decreases Work(states[|actions|])
  {
    hide CanAct, Act, Work;
    var s := states[|actions|];
    more, after := [], [];
    if s.waiters == map[] {
      assert states + [] == states && actions + [] == actions;
    } else {
      var waiting :| waiting in s.waiters.Items;
      NeverStuck(w, states, actions, |actions|, waiting.0);
      var a :| Advances(a) && CanAct(w, s, a);
      var t := Act(w, s, a);
      ExtendedRun(w, states, actions, a);
      WorkFalls(w, s, a);
      var rest, later := EveryoneIsAnswered(w, states + [t], actions + [a]);
      more, after := [a] + rest, [t] + later;
      assert states + [t] + later == states + after && actions + [a] + rest == actions + more;
      forall r | r in s.waiters ensures Wake(r) in more { OnlyWakeAnswers(w, s, a, r); }
    }
  }

  /** However the work goes on, it ends: as many steps as there is work, at most. */
  lemma {:induction false} WorkEnds(w: World, states: seq<System>, actions: seq<Action>, j: nat, n: nat)
    requires IsRun(w, states, actions) && j <= n < |states|
    requires forall i :: j <= i < n ==> Advances(actions[i])
    ensures n - j + Work(states[n]) <= Work(states[j])
    decreases n - j
  {
    hide CanAct, Act, Work;
    if j < n {
      WorkEnds(w, states, actions, j, n - 1);
      WorkFalls(w, states[n - 1], actions[n - 1]);
    }
  }

  // ----- eviction -----

  ghost predicate HitAt(w: World, states: seq<System>, actions: seq<Action>, j: int, key: Key)
    requires |states| == |actions| + 1
  {
    0 <= j < |actions| && actions[j].Arrive? && Hits(w, states[j].auth, actions[j].header, states[j].clock, key)
  }

  ghost predicate UsedAt(w: World, states: seq<System>, actions: seq<Action>, j: int, key: Key)
    requires |states| == |actions| + 1
  {
    HitAt(w, states, actions, j, key) || SucceedsAt(states, actions, j, key)
  }

  lemma AccessStep(w: World, states: seq<System>, actions: seq<Action>, n: nat, k: Key)
    requires IsRun(w, states, actions) && n < |actions|
    ensures var s, t := states[n].auth, states[n + 1].auth;
            && s.accessCounter <= t.accessCounter
            && (k in t.cache ==>
                  || (k in s.cache && t.cache[k] == s.cache[k])
                  || (UsedAt(w, states, actions, n, k) && t.cache[k].lastAccess == t.accessCounter))
  {
    hide Act, Hits;
    assert CanAct(w, states[n], actions[n]);
    CacheStep(w, states[n], actions[n], k);
  }

  lemma CounterStep(w: World, s: System, a: Action)
    requires CanAct(w, s, a)
    ensures s.auth.accessCounter <= Act(w, s, a).auth.accessCounter
  {
    hide SplitOnce, Unexpired, Oldest, RunningChecks;
  }

  lemma {:induction false} CounterGrows(w: World, states: seq<System>, actions: seq<Action>, j: nat, n: nat)
    requires IsRun(w, states, actions) && j <= n < |states|
    ensures states[j].auth.accessCounter <= states[n].auth.accessCounter
    decreases n - j
  {
    hide Act, CanAct;
    if j < n {
      CounterGrows(w, states, actions, j, n - 1);
      CounterStep(w, states[n - 1], actions[n - 1]);
    }
  }

  lemma HitStep(w: World, s: System, a: Action, k: Key)
    requires CanAct(w, s, a) && a.Arrive? && Hits(w, s.auth, a.header, s.clock, k)
    ensures var t := Act(w, s, a);
            && t.auth.accessCounter == s.auth.accessCounter + 1
            && k in t.auth.cache && t.auth.cache[k].lastAccess == t.auth.accessCounter
  {
    hide Hits, Enter;
    EnterEntry(w, s.auth, a.header, s.clock, |s.checks|, k);
  }

  /** A use leaves the entry in the cache with the latest access count. */
  lemma UseStep(w: World, states: seq<System>, actions: seq<Action>, j: nat, k: Key)
    requires IsRun(w, states, actions) && UsedAt(w, states, actions, j, k)
    ensures k in states[j + 1].auth.cache && states[j + 1].auth.cache[k].lastAccess == states[j + 1].auth.accessCounter
    ensures HitAt(w, states, actions, j, k) ==> states[j + 1].auth.accessCounter > states[j].auth.accessCounter
  {
    hide Act, Hits;
    assert CanAct(w, states[j], actions[j]);
    if HitAt(w, states, actions, j, k) {
      HitStep(w, states[j], actions[j], k);
    } else {
      SuccessIsStored(w, states[j], actions[j], k);
    }
  }

  lemma SuccessIsStored(w: World, s: System, a: Action, k: Key)
    requires CanAct(w, s, a) && a.Complete? && a.check < |s.checks| && s.checks[a.check].key == k
    requires s.checks[a.check].stage == Decided(Allowed) && s.checks[a.check].generation == s.auth.generation
    ensures var t := Act(w, s, a).auth;
            k in t.cache && t.cache[k].lastAccess == t.accessCounter
  {
    hide Finish, Oldest;
    FinishEntry(s.auth, k, s.auth.generation, a.check, Allowed, s.clock, a.oldest, k);
  }

  /** The access count of an entry never falls behind its last use. */
  lemma {:induction false} UseLasts(w: World, states: seq<System>, actions: seq<Action>, j: nat, n: nat, k: Key)
    requires IsRun(w, states, actions) && j < n < |states| && k in states[n].auth.cache
    requires UsedAt(w, states, actions, j, k)
    ensures states[n].auth.cache[k].lastAccess >= states[j + 1].auth.accessCounter
    decreases n - j
  {
    hide Act, CanAct, UsedAt, HitAt;
    if n == j + 1 {
      UseStep(w, states, actions, j, k);
    } else {
      CounterGrows(w, states, actions, j + 1, n);
      AccessStep(w, states, actions, n - 1, k);
      if k in states[n - 1].auth.cache && states[n].auth.cache[k] == states[n - 1].auth.cache[k] {
        UseLasts(w, states, actions, j, n - 1, k);
      }
    }
  }

  /** The access count of an entry is that of a use of it. */
  lemma {:induction false} EntryWasUsed(w: World, states: seq<System>, actions: seq<Action>, n: nat, k: Key)
    returns (m: nat)
    requires IsRun(w, states, actions) && n < |states| && k in states[n].auth.cache
    ensures m < n && UsedAt(w, states, actions, m, k)
    ensures states[m + 1].auth.accessCounter == states[n].auth.cache[k].lastAccess
  {
    hide Act, CanAct, UsedAt;
    m := 0;
    if n > 0 {
      m := n - 1;
      AccessStep(w, states, actions, n - 1, k);
      if k in states[n - 1].auth.cache && states[n].auth.cache[k] == states[n - 1].auth.cache[k] {
        m := EntryWasUsed(w, states, actions, n - 1, k);
      }
    }
  }

  /**
   When a full cache evicts an entry that was used at step j, by a hit or by being put in, every other
   entry has a use with at least the same access count. If step j was a hit, that use came no earlier.
   */
  lemma EvictsLeastRecent(w: World, states: seq<System>, actions: seq<Action>, j: nat, n: nat, k: Key)
    requires IsRun(w, states, actions) && j < n < |actions|
    requires actions[n].Complete? && |states[n].auth.cache| >= CACHE_CAPACITY
    requires actions[n].oldest in states[n].auth.cache && UsedAt(w, states, actions, j, actions[n].oldest)
    requires k in states[n].auth.cache
    ensures exists m :: UsedAt(w, states, actions, m, k) && m < n
                        && states[j + 1].auth.accessCounter <= states[m + 1].auth.accessCounter
                        && (HitAt(w, states, actions, j, actions[n].oldest) ==> j <= m)
  {
    hide Act, UsedAt, HitAt;
    assert CanAct(w, states[n], actions[n]);
    UseLasts(w, states, actions, j, n, actions[n].oldest);
    var m := EntryWasUsed(w, states, actions, n, k);
    UseStep(w, states, actions, j, actions[n].oldest);
    if m < j { CounterGrows(w, states, actions, m + 1, j); }
  }

  /**
   Entries put in without a request that looks at the cache in between tie: their checks do not
   advance the access count, and either may be evicted first, whichever is older.
   */
  lemma TiesGoEitherWay(w: World, states: seq<System>, actions: seq<Action>, i: nat, j: nat, n: nat, k: Key, l: Key)
    requires IsRun(w, states, actions) && i < n < |states| && j < n
    requires UsedAt(w, states, actions, i, k) && UsedAt(w, states, actions, j, l)
    requires k in states[n].auth.cache && l in states[n].auth.cache
    requires states[i + 1].auth.accessCounter == states[n].auth.accessCounter == states[j + 1].auth.accessCounter
    ensures states[n].auth.cache[k].lastAccess == states[n].auth.cache[l].lastAccess
    ensures Oldest(states[n].auth.cache, k) <==> Oldest(states[n].auth.cache, l)
  {
    hide UsedAt, Act;
    RunKeeps(w, states, actions, n);
    UseLasts(w, states, actions, i, n, k);
    UseLasts(w, states, actions, j, n, l);
    assert CacheOk(w, states[n]);
  }
}

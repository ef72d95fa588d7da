/** A run of the authentication service that ends with a full cache and two entries to choose from. */
module AuthTies {
  import opened Sums
  import opened Authentication
  import opened AuthProtocol
  import opened AuthSafety

  /** A service where every password is right. */
  const OPEN := World(name => name, (password, stored) => true)
  const CONFIG := Config("u", "s")

  function Password(i: nat): (p: string)
    ensures |p| == i
  {
    seq(i, _ => 'x')
  }

  /** The credentials of the i-th request. */
  function Login(i: nat): Key {
    Key("u", Password(i))
  }

  function Header(i: nat): string {
    "u:" + Password(i)
  }

  lemma HeaderCarries(i: nat)
    ensures SplitOnce(Header(i)) == Some(Login(i))
  {
    var text := Header(i);
    assert text[0] == 'u' && text[1..] == ":" + Password(i);
    SplitsAt(Password(i));
    assert ['u'] + "" == "u";
  }

  lemma SplitsAt(password: string)
    ensures SplitOnce(":" + password) == Some(Key("", password))
  {
    assert (":" + password)[1..] == password;
  }

  // ----- one request after the other -----

  /** The next request can come in: its credentials are new, and there is room for a check. */
  ghost predicate Ready(s: System, n: nat) {
    && s.auth.config == CONFIG && s.clock == 0 && s.hashing == 0
    && |s.checks| == n && n !in s.waiters
    && Login(n) !in s.auth.cache && Login(n) !in s.auth.pending && |s.auth.pending| < MAX_PENDING
    && forall k :: k in s.auth.cache ==> s.auth.cache[k].verifiedAt == 0
  }

  function CameIn(s: System, n: nat): (t: System)
    ensures |t.checks| == |s.checks| + 1
  {
    s.(auth := s.auth.(accessCounter := s.auth.accessCounter + 1, pending := s.auth.pending[Login(n) := n]),
       waiters := s.waiters[n := Waiter(Login(n), n, s.auth.generation)],
       checks := s.checks + [Check(Login(n), s.auth.generation, "s", Queued)])
  }

  lemma ComesIn(s: System, n: nat)
    requires Ready(s, n)
    ensures CanAct(OPEN, s, Arrive(n, Some(Header(n)))) && Act(OPEN, s, Arrive(n, Some(Header(n)))) == CameIn(s, n)
  {
    HeaderCarries(n);
    hide SplitOnce, Login, Header;
    assert Login(n).user == "u" by { LoginUser(n); }
    assert Unexpired(s.auth.cache, s.clock) == s.auth.cache;
  }

  lemma LoginUser(n: nat)
    ensures Login(n).user == "u"
  {
  }

  /** The check of the i-th request waits for a permit, and both are free. */
  ghost predicate Waits(s: System, i: nat) {
    && i < |s.checks| && s.checks[i] == Check(Login(i), s.auth.generation, "s", Queued)
    && RunningChecks(s.checks) == {} && s.hashing == 0
  }

  function Passed(s: System, i: nat): System
    requires i < |s.checks|
  {
    AtStage(s, i, Decided(Allowed))
  }

  lemma Decides(s: System, i: nat) returns (t: System)
    requires Waits(s, i)
    ensures CanAct(OPEN, s, Start(i)) && t == Act(OPEN, s, Start(i))
    ensures CanAct(OPEN, t, Return(i, false)) && Act(OPEN, t, Return(i, false)) == Passed(s, i)
    ensures RunningChecks(Passed(s, i).checks) == {}
  {
    t := Act(OPEN, s, Start(i));
    assert Passed(s, i).checks == t.checks[i := t.checks[i].(stage := Decided(Allowed))];
    forall j | 0 <= j < |s.checks| ensures !Passed(s, i).checks[j].stage.Running? {
      assert j !in RunningChecks(s.checks);
    }
  }

  function Cached(s: System, i: nat): (t: System)
    requires i < |s.checks|
    ensures |t.checks| == |s.checks|
  {
    AtStage(s, i, Ended).(auth := s.auth.(pending := s.auth.pending - {Login(i)},
                                          cache := s.auth.cache[Login(i) := Entry(s.clock, s.auth.accessCounter)],
                                          sent := s.auth.sent[i := Allowed]))
  }

  lemma GetsCached(s: System, i: nat)
    requires Waits(s, i) && |s.auth.cache| < CACHE_CAPACITY
    ensures var d := Passed(s, i);
            CanAct(OPEN, d, Complete(i, Login(0))) && Act(OPEN, d, Complete(i, Login(0))) == Cached(s, i)
    ensures RunningChecks(Cached(s, i).checks) == {}
  {
    hide Login;
    forall j | 0 <= j < |s.checks| ensures !Cached(s, i).checks[j].stage.Running? {
      assert j !in RunningChecks(s.checks);
    }
  }

  // ----- runs -----

  ghost predicate Reached(states: seq<System>, actions: seq<Action>, s: System) {
    IsRun(OPEN, states, actions) && states[|actions|] == s
  }

  lemma Extend(states: seq<System>, actions: seq<Action>, s: System, a: Action)
    returns (more: seq<System>, acts: seq<Action>)
    requires Reached(states, actions, s) && CanAct(OPEN, s, a)
    ensures Reached(more, acts, Act(OPEN, s, a))
  {
    hide IsRun, Act, CanAct;
    assert |states| == |actions| + 1 by { RunLength(states, actions); }
    ExtendedRun(OPEN, states, actions, a);
    more, acts := states + [Act(OPEN, s, a)], actions + [a];
    assert Reached(more, acts, Act(OPEN, s, a)) by { assert more[|acts|] == Act(OPEN, s, a); }
  }

  lemma RunLength(states: seq<System>, actions: seq<Action>)
    requires IsRun(OPEN, states, actions)
    ensures |states| == |actions| + 1
  {
  }

  lemma LetIn(states: seq<System>, actions: seq<Action>, s: System, n: nat)
    returns (more: seq<System>, acts: seq<Action>)
    requires Reached(states, actions, s) && Ready(s, n)
    ensures Reached(more, acts, CameIn(s, n))
  {
    hide Reached, Act, CanAct, CameIn;
    ComesIn(s, n);
    more, acts := Extend(states, actions, s, Arrive(n, Some(Header(n))));
  }

  lemma Decide(states: seq<System>, actions: seq<Action>, s: System, i: nat)
    returns (more: seq<System>, acts: seq<Action>)
    requires Reached(states, actions, s) && Waits(s, i)
    ensures Reached(more, acts, Passed(s, i))
  {
    hide Reached, Act, CanAct, Passed;
    var t := Decides(s, i);
    more, acts := Extend(states, actions, s, Start(i));
    more, acts := Extend(more, acts, t, Return(i, false));
  }

  lemma CacheIt(states: seq<System>, actions: seq<Action>, s: System, i: nat)
    returns (more: seq<System>, acts: seq<Action>)
    requires Reached(states, actions, s) && Waits(s, i) && |s.auth.cache| < CACHE_CAPACITY
    ensures Reached(more, acts, Cached(s, i))
  {
    hide Reached, Act, CanAct, Passed, Cached;
    more, acts := Decide(states, actions, s, i);
    GetsCached(s, i);
    more, acts := Extend(more, acts, Passed(s, i), Complete(i, Login(0)));
  }

  // ----- filling the cache -----

  function Logins(n: nat): set<Key> {
    set i | 0 <= i < n :: Login(i)
  }

  lemma {:induction false} LoginCount(n: nat)
    ensures |Logins(n)| == n
  {
    if n > 0 {
      LoginCount(n - 1);
      assert Logins(n) == Logins(n - 1) + {Login(n - 1)};
    } else {
      assert Logins(0) == {};
    }
  }

  /** The first n requests have been let in, and the first two tie for the oldest entry of the cache. */
  ghost predicate Filled(s: System, n: nat) {
    && 2 <= n && s.auth.config == CONFIG && s.clock == 0 && s.hashing == 0
    && |s.checks| == n && RunningChecks(s.checks) == {} && s.auth.pending == map[]
    && (forall r :: r in s.waiters ==> r < n)
    && s.auth.cache.Keys == Logins(n)
    && (forall k :: k in s.auth.cache ==> s.auth.cache[k].verifiedAt == 0 && s.auth.cache[k].lastAccess >= 2)
    && Login(0) in s.auth.cache && Login(1) in s.auth.cache
    && s.auth.cache[Login(0)].lastAccess == 2 && s.auth.cache[Login(1)].lastAccess == 2
    && s.auth.accessCounter >= 2
  }

  lemma NewLogin(n: nat)
    ensures Login(n) !in Logins(n) && Logins(n + 1) == Logins(n) + {Login(n)}
    ensures 2 <= n ==> Login(0) in Logins(n) && Login(1) in Logins(n)
  {
  }

  lemma FilledIsReady(s: System, n: nat)
    requires Filled(s, n)
    ensures Ready(s, n) && |s.auth.cache| == n
    ensures Waits(CameIn(s, n), n)
  {
    hide Login, Logins;
    NewLogin(n);
    LoginCount(n);
    forall j | 0 <= j < n ensures !CameIn(s, n).checks[j].stage.Running? {
      assert j !in RunningChecks(s.checks);
    }
  }

  lemma FillsOne(s: System, n: nat)
    requires Filled(s, n)
    ensures Filled(Cached(CameIn(s, n), n), n + 1)
  {
    hide Login, Logins;
    NewLogin(n);
    var t := Cached(CameIn(s, n), n);
    assert map[Login(n) := n] - {Login(n)} == map[];
    forall j | 0 <= j <= n ensures !t.checks[j].stage.Running? {
      if j < n { assert j !in RunningChecks(s.checks); }
    }
  }

  const START := System(NewService(CONFIG), [], map[], 0, 0)
  const BOTH_IN := CameIn(CameIn(START, 0), 1)

  lemma StartsReady()
    ensures Reached([START], [], START) && Ready(START, 0) && Ready(CameIn(START, 0), 1)
  {
  }

  lemma BothWait()
    ensures Waits(BOTH_IN, 0) && BOTH_IN.auth.cache == map[]
    ensures Waits(Cached(BOTH_IN, 0), 1) && |Cached(BOTH_IN, 0).auth.cache| == 1
  {
    hide Login;
    assert RunningChecks(BOTH_IN.checks) == {};
    assert RunningChecks(Cached(BOTH_IN, 0).checks) == {};
  }

  lemma BothCached()
    ensures Filled(Cached(Cached(BOTH_IN, 0), 1), 2)
  {
    var s := Cached(Cached(BOTH_IN, 0), 1);
    assert RunningChecks(s.checks) == {};
    assert Logins(2) == {Login(0), Login(1)} && Login(0) != Login(1);
    hide Login;
    assert s.auth.pending == map[];
    assert s.auth.cache == map[Login(0) := Entry(0, 2), Login(1) := Entry(0, 2)];
  }

  lemma FirstTwo() returns (states: seq<System>, actions: seq<Action>)
    ensures Reached(states, actions, Cached(Cached(BOTH_IN, 0), 1))
  {
    hide Reached, Login, Ready, Waits, CameIn, Cached;
    StartsReady();
    BothWait();
    states, actions := LetIn([START], [], START, 0);
    states, actions := LetIn(states, actions, CameIn(START, 0), 1);
    states, actions := CacheIt(states, actions, BOTH_IN, 0);
    states, actions := CacheIt(states, actions, Cached(BOTH_IN, 0), 1);
  }

  lemma {:induction false} Fill(n: nat) returns (states: seq<System>, actions: seq<Action>, s: System)
    requires 2 <= n <= CACHE_CAPACITY
    ensures Reached(states, actions, s) && Filled(s, n)
  {
    hide Reached, Filled, CameIn, Cached, Ready, Waits;
    if n == 2 {
      states, actions := FirstTwo();
      s := Cached(Cached(BOTH_IN, 0), 1);
      BothCached();
    } else {
      var before: System;
      states, actions, before := Fill(n - 1);
      FilledIsReady(before, n - 1);
      states, actions := LetIn(states, actions, before, n - 1);
      assert |before.checks| == n - 1 by { ChecksOf(before, n - 1); }
      var t := CameIn(before, n - 1);
      assert t.auth.cache == before.auth.cache by { SameCache(before, n - 1); }
      states, actions := CacheIt(states, actions, t, n - 1);
      FillsOne(before, n - 1);
      s := Cached(t, n - 1);
    }
  }

  lemma ChecksOf(s: System, n: nat)
    requires Ready(s, n)
    ensures |s.checks| == n
  {
  }

  lemma SameCache(s: System, n: nat)
    ensures CameIn(s, n).auth.cache == s.auth.cache
  {
  }

  /**
   There is a run after which the cache is full, a check has succeeded, and either of the first two entries may
   be evicted for it.
   */
  lemma EitherMayBeEvicted()
    returns (states: seq<System>, actions: seq<Action>)
    ensures IsRun(OPEN, states, actions)
    ensures var s := states[|actions|];
            && |s.auth.cache| == CACHE_CAPACITY
            && Login(0) != Login(1) && Login(0) in s.auth.cache && Login(1) in s.auth.cache
            && CanAct(OPEN, s, Complete(CACHE_CAPACITY, Login(0)))
            && CanAct(OPEN, s, Complete(CACHE_CAPACITY, Login(1)))
            && Login(0) !in Act(OPEN, s, Complete(CACHE_CAPACITY, Login(0))).auth.cache
            && Login(1) !in Act(OPEN, s, Complete(CACHE_CAPACITY, Login(1))).auth.cache
  {
    var s: System;
    states, actions, s := Fill(CACHE_CAPACITY);
    FilledIsReady(s, CACHE_CAPACITY);
    states, actions := LetIn(states, actions, s, CACHE_CAPACITY);
    var t := CameIn(s, CACHE_CAPACITY);
    states, actions := Decide(states, actions, t, CACHE_CAPACITY);
  }
}

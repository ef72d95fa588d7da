/**
 The authentication cache: password checks are slow, so concurrent requests with the same
 credentials share one check, and successes are cached for half an hour. Each function below is
 one critical section of the service; AuthProtocol interleaves them.
 */
module Authentication {
  import opened Sums

  const CACHE_TTL: nat := 30 * 60
  const CACHE_CAPACITY: nat := 256
  const MAX_PENDING: nat := 32

  datatype Config = Config(loginUser: string, loginPassword: string)

  /** What the service takes from elsewhere: how names are trimmed, and the password check. */
  datatype World = World(trim: string -> string, verifies: (string, string) -> bool)

  datatype Key = Key(user: string, password: string)

  datatype Entry = Entry(verifiedAt: nat, lastAccess: nat)

  datatype Decision = Allowed | Unauthorized | Busy | Failed

  /** `sent` holds the latest decision of each channel; waiting requests listen to a channel. */
  datatype AuthState = AuthState(
    config: Config,
    generation: nat,
    cache: map<Key, Entry>,
    pending: map<Key, nat>,
    accessCounter: nat,
    sent: map<nat, Decision>)

  function NewService(config: Config): AuthState {
    AuthState(config, 0, map[], map[], 0, map[])
  }

  /** The part of the configuration that decides who may log in. */
  function Effective(w: World, c: Config): (string, string) {
    (w.trim(c.loginUser), c.loginPassword)
  }

  predicate Enabled(w: World, c: Config) {
    w.trim(c.loginUser) != "" && c.loginPassword != ""
  }

  /** Splits at the first colon, as section 2 of RFC 7617 asks. */
  function SplitOnce(text: string): (r: Option<Key>)
    ensures r.Some? ==> text == r.value.user + ":" + r.value.password && ':' !in r.value.user
    ensures r.None? ==> ':' !in text
  {
    if text == "" then None
    else if text[0] == ':' then Some(Key("", text[1..]))
    else match SplitOnce(text[1..])
         case None => None
         case Some(k) => Some(Key([text[0]] + k.user, k.password))
  }

  function Elapsed(now: nat, since: nat): nat {
    if now < since then 0 else now - since
  }

  function Unexpired(cache: map<Key, Entry>, now: nat): map<Key, Entry> {
    map k | k in cache && Elapsed(now, cache[k].verifiedAt) < CACHE_TTL :: cache[k]
  }

  function Notified(sent: map<nat, Decision>, channels: set<nat>, d: Decision): map<nat, Decision> {
    sent + map c | c in channels :: d
  }

  function ReplaceConfig(w: World, s: AuthState, config: Config): AuthState {
    if Effective(w, s.config) != Effective(w, config) then
      AuthState(config, s.generation + 1, map[], map[], s.accessCounter,
                Notified(s.sent, s.pending.Values, Unauthorized))
    else
      s.(config := config)
  }

  /** What a request does after its first critical section. */
  datatype Entered =
    | Answered(decision: Decision)
    | Subscribed(key: Key, channel: nat)
    | Spawned(key: Key, stored: string)

  /** A request arrives with the decoded text of its header; `channel` is unused so far. */
  function Enter(w: World, s: AuthState, header: Option<string>, now: nat, channel: nat): (AuthState, Entered) {
    if !Enabled(w, s.config) then (s, Answered(Allowed))
    else if header.None? || SplitOnce(header.value).None? then (s, Answered(Unauthorized))
    else
      var key := SplitOnce(header.value).value;
      if key.user != w.trim(s.config.loginUser) then (s, Answered(Unauthorized)) else
        var s1 := s.(cache := Unexpired(s.cache, now), accessCounter := s.accessCounter + 1);
        if key in s1.cache then
          (s1.(cache := s1.cache[key := s1.cache[key].(lastAccess := s1.accessCounter)]), Answered(Allowed))
        else if key in s.pending then (s1, Subscribed(key, s.pending[key]))
        else if |s.pending| >= MAX_PENDING then (s1, Answered(Busy))
        else (s1.(pending := s.pending[key := channel]), Spawned(key, s.config.loginPassword))
  }

  predicate Oldest(cache: map<Key, Entry>, key: Key) {
    key in cache && forall k :: k in cache ==> cache[key].lastAccess <= cache[k].lastAccess
  }

  /** A check of `key` that began under `generation` has decided. */
  function Finish(s: AuthState, key: Key, generation: nat, channel: nat, d: Decision, now: nat, oldest: Key): AuthState {
    if s.generation != generation then s.(sent := s.sent[channel := Unauthorized]) else
      var cache :=
        if d != Allowed then s.cache else
          var kept := if |s.cache| >= CACHE_CAPACITY then s.cache - {oldest} else s.cache;
          kept[key := Entry(now, s.accessCounter)];
      s.(pending := s.pending - {key}, cache := cache, sent := s.sent[channel := d])
  }

  /** What a waiting request answers once its channel holds a decision. */
  function Leave(s: AuthState, generation: nat, d: Decision): Decision {
    if s.generation != generation then Unauthorized else d
  }
}

/** Every interleaving of requests, checks, configuration changes and the clock. */
module AuthProtocol {
  import opened Sums
  import opened Authentication

  const PERMITS: nat := 2

  datatype Stage = Queued | Running | Decided(decision: Decision) | Ended

  /** A spawned check. Its index in the list of checks is also its channel. */
  datatype Check = Check(key: Key, generation: nat, stored: string, stage: Stage)

  datatype Waiter = Waiter(key: Key, channel: nat, generation: nat)

  datatype System = System(
    auth: AuthState,
    checks: seq<Check>,
    waiters: map<nat, Waiter>,
    hashing: nat,
    clock: nat)

  datatype Action =
    | Replace(config: Config)
    | Arrive(request: nat, header: Option<string>)
    | Start(check: nat)
    | Refuse(check: nat)
    | Return(check: nat, panicked: bool)
    | Complete(check: nat, oldest: Key)
    | Wake(request: nat)
    | Cancel(request: nat)
    | StartHash
    | EndHash
    | Tick(seconds: nat)

  function RunningChecks(checks: seq<Check>): set<nat> {
    set i | 0 <= i < |checks| && checks[i].stage.Running?
  }

  /** Checks and password hashing share the permits. */
  predicate PermitFree(s: System) {
    |RunningChecks(s.checks)| + s.hashing < PERMITS
  }

  predicate CanComplete(s: System, i: nat, oldest: Key) {
    && i < |s.checks| && s.checks[i].stage.Decided?
    && (|s.auth.cache| >= CACHE_CAPACITY ==> Oldest(s.auth.cache, oldest))
  }

  predicate CanAct(w: World, s: System, a: Action) {
    match a
    case Replace(_) => true
    case Arrive(request, _) => request !in s.waiters
    case Start(i) => i < |s.checks| && s.checks[i].stage.Queued? && PermitFree(s)
    case Refuse(i) => i < |s.checks| && s.checks[i].stage.Queued?
    case Return(i, _) => i < |s.checks| && s.checks[i].stage.Running?
    case Complete(i, oldest) => CanComplete(s, i, oldest)
    case Wake(request) => request in s.waiters && s.waiters[request].channel in s.auth.sent
    case Cancel(request) => request in s.waiters
    case StartHash => PermitFree(s)
    case EndHash => s.hashing > 0
    case Tick(_) => true
  }

  function AtStage(s: System, i: nat, stage: Stage): System
    requires i < |s.checks|
  {
    s.(checks := s.checks[i := s.checks[i].(stage := stage)])
  }

  function Entering(w: World, s: System, header: Option<string>): (AuthState, Entered) {
    Enter(w, s.auth, header, s.clock, |s.checks|)
  }

  function Replaced(w: World, s: System, config: Config): System {
    s.(auth := ReplaceConfig(w, s.auth, config))
  }

  function Arrived(w: World, s: System, request: nat, header: Option<string>): System {
    var (auth, entered) := Entering(w, s, header);
    var s1 := s.(auth := auth);
    match entered
    case Answered(_) => s1
    case Subscribed(key, channel) =>
      s1.(waiters := s.waiters[request := Waiter(key, channel, auth.generation)])
    case Spawned(key, stored) =>
      s1.(waiters := s.waiters[request := Waiter(key, |s.checks|, auth.generation)],
          checks := s.checks + [Check(key, auth.generation, stored, Queued)])
  }

  /** A check that holds a permit runs, unless the configuration has changed since it was spawned. */
  function Started(s: System, i: nat): System
    requires i < |s.checks|
  {
    if s.auth.generation != s.checks[i].generation then
      AtStage(s, i, Ended).(auth := s.auth.(sent := s.auth.sent[i := Unauthorized]))
    else AtStage(s, i, Running)
  }

  function Returned(w: World, s: System, i: nat, panicked: bool): System
    requires i < |s.checks|
  {
    var c := s.checks[i];
    AtStage(s, i, Decided(if panicked then Failed else if w.verifies(c.key.password, c.stored) then Allowed
                          else Unauthorized))
  }

  function Completed(s: System, i: nat, oldest: Key): System
    requires i < |s.checks| && s.checks[i].stage.Decided?
  {
    var c := s.checks[i];
    AtStage(s, i, Ended).(auth := Finish(s.auth, c.key, c.generation, i, c.stage.decision, s.clock, oldest))
  }

  function Act(w: World, s: System, a: Action): System
    requires CanAct(w, s, a)
  {
    match a
    case Replace(config) => Replaced(w, s, config)
    case Arrive(request, header) => Arrived(w, s, request, header)
    case Start(i) => Started(s, i)
    case Refuse(i) => AtStage(s, i, Decided(Failed))
    case Return(i, panicked) => Returned(w, s, i, panicked)
    case Complete(i, oldest) => Completed(s, i, oldest)
    case Wake(request) => s.(waiters := s.waiters - {request})
    case Cancel(request) => s.(waiters := s.waiters - {request})
    case StartHash => s.(hashing := s.hashing + 1)
    case EndHash => s.(hashing := s.hashing - 1)
    case Tick(seconds) => s.(clock := s.clock + seconds)
  }

  /** The answer that a request gets in this step, if any. */
  function Answer(w: World, s: System, a: Action): Option<Decision>
    requires CanAct(w, s, a)
  {
    match a
    case Arrive(_, header) =>
      var (_, entered) := Entering(w, s, header);
      if entered.Answered? then Some(entered.decision) else None
    case Wake(request) =>
      Some(Leave(s.auth, s.waiters[request].generation, s.auth.sent[s.waiters[request].channel]))
    case _ => None
  }

  // ----- the invariant -----

  /** A check of the current generation that has not ended. */
  predicate InFlight(s: System, i: int) {
    0 <= i < |s.checks| && s.checks[i].generation == s.auth.generation && !s.checks[i].stage.Ended?
  }

  ghost predicate CheckOk(w: World, s: System, i: int)
    requires 0 <= i < |s.checks|
  {
    var c := s.checks[i];
    && c.generation <= s.auth.generation
    && (c.generation == s.auth.generation ==> (c.key.user, c.stored) == Effective(w, s.auth.config))
    && (c.stage == Decided(Allowed) ==> w.verifies(c.key.password, c.stored))
    && (c.stage == Decided(Unauthorized) ==> !w.verifies(c.key.password, c.stored))
    && c.stage != Decided(Busy)
    && (i in s.auth.sent && s.auth.sent[i] == Allowed ==> w.verifies(c.key.password, c.stored))
    && (i in s.auth.sent && s.auth.sent[i] == Unauthorized && c.generation == s.auth.generation ==>
          !w.verifies(c.key.password, c.stored))
    && (i in s.auth.sent ==> s.auth.sent[i] != Busy)
    && (i !in s.auth.sent <==> InFlight(s, i))
  }

  ghost predicate ChecksOk(w: World, s: System) {
    && (forall i :: 0 <= i < |s.checks| ==> CheckOk(w, s, i))
    && (forall i :: i in s.auth.sent ==> i < |s.checks|)
  }

  /** The pending keys are exactly the keys of the checks in flight, one check each. */
  ghost predicate PendingOk(s: System) {
    && (forall k :: k in s.auth.pending ==> InFlight(s, s.auth.pending[k]) && s.checks[s.auth.pending[k]].key == k)
    && (forall i :: InFlight(s, i) ==>
          s.checks[i].key in s.auth.pending && s.auth.pending[s.checks[i].key] == i)
    && |s.auth.pending| <= MAX_PENDING
  }

  /** Every entry is a success against the current credentials. */
  ghost predicate CacheOk(w: World, s: System) {
    && |s.auth.cache| <= CACHE_CAPACITY
    && forall k :: k in s.auth.cache ==>
         && k !in s.auth.pending
         && k.user == w.trim(s.auth.config.loginUser)
         && w.verifies(k.password, s.auth.config.loginPassword)
         && s.auth.cache[k].verifiedAt <= s.clock
         && s.auth.cache[k].lastAccess <= s.auth.accessCounter
  }

  ghost predicate WaiterOk(s: System, wt: Waiter) {
    && wt.channel < |s.checks|
    && s.checks[wt.channel].key == wt.key
    && s.checks[wt.channel].generation == wt.generation
  }

  ghost predicate WaitersOk(s: System) {
    forall r :: r in s.waiters ==> WaiterOk(s, s.waiters[r])
  }

  ghost predicate PermitsOk(s: System) {
    |RunningChecks(s.checks)| + s.hashing <= PERMITS
  }

  ghost predicate Inv(w: World, s: System) {
    ChecksOk(w, s) && PendingOk(s) && CacheOk(w, s) && WaitersOk(s) && PermitsOk(s)
  }

  lemma StartKeeps(w: World, config: Config, clock: nat)
    ensures Inv(w, System(NewService(config), [], map[], 0, clock))
  {
    assert RunningChecks([]) == {};
  }

  // ----- a new configuration -----

  lemma ReplaceKeepsChecks(w: World, s: System, config: Config)
    requires ChecksOk(w, s) && PendingOk(s)
    ensures ChecksOk(w, Replaced(w, s, config))
  {
    var t := Replaced(w, s, config);
    forall i | 0 <= i < |t.checks| ensures CheckOk(w, t, i) {
      assert CheckOk(w, s, i);
      if InFlight(s, i) {
        assert s.auth.pending[s.checks[i].key] in s.auth.pending.Values;
      }
    }
  }

  lemma ReplaceKeepsPending(w: World, s: System, config: Config)
    requires ChecksOk(w, s) && PendingOk(s)
    ensures PendingOk(Replaced(w, s, config))
  {
    hide Notified;
    var t := Replaced(w, s, config);
    if t.auth.generation != s.auth.generation {
      forall i | 0 <= i < |t.checks| ensures !InFlight(t, i) {
        assert CheckOk(w, s, i);
      }
    } else {
      assert forall i :: InFlight(t, i) <==> InFlight(s, i);
    }
  }

  // ----- a request arrives -----

  lemma UnexpiredSize(cache: map<Key, Entry>, now: nat)
    ensures |Unexpired(cache, now)| <= |cache|
  {
    SubsetSize(Unexpired(cache, now).Keys, cache.Keys);
  }

  lemma {:induction false} SubsetSize<T>(a: set<T>, b: set<T>)
    requires a <= b
    ensures |a| <= |b|
    decreases a
  {
    if a != {} {
      var x :| x in a;
      SubsetSize(a - {x}, b - {x});
    }
  }

  /** What the first critical section of a request changes. */
  lemma EnterFacts(w: World, s: AuthState, header: Option<string>, now: nat, channel: nat)
    ensures var (t, e) := Enter(w, s, header, now, channel);
            && t == s.(cache := t.cache, pending := t.pending, accessCounter := t.accessCounter)
            && s.accessCounter <= t.accessCounter && |t.cache| <= |s.cache|
            && (forall k :: k in t.cache ==>
                  && k in s.cache && t.cache[k].verifiedAt == s.cache[k].verifiedAt
                  && (t.cache[k].lastAccess == s.cache[k].lastAccess || t.cache[k].lastAccess == t.accessCounter))
            && (e.Subscribed? ==> e.key in s.pending && e.channel == s.pending[e.key])
            && (if e.Spawned? then
                  && t.pending == s.pending[e.key := channel] && |s.pending| < MAX_PENDING
                  && e.key !in s.pending && e.key !in t.cache
                  && (e.key.user, e.stored) == Effective(w, s.config)
                else t.pending == s.pending)
  {
    hide SplitOnce;
    UnexpiredSize(s.cache, now);
  }

  lemma ArriveKeepsChecks(w: World, s: System, request: nat, header: Option<string>)
    requires ChecksOk(w, s)
    ensures ChecksOk(w, Arrived(w, s, request, header))
  {
    EnterFacts(w, s.auth, header, s.clock, |s.checks|);
    hide Enter;
    var t := Arrived(w, s, request, header);
    forall i | 0 <= i < |t.checks| ensures CheckOk(w, t, i) {
      if i < |s.checks| { assert CheckOk(w, s, i); }
    }
  }

  lemma ArriveKeepsPending(w: World, s: System, request: nat, header: Option<string>)
    requires PendingOk(s)
    ensures PendingOk(Arrived(w, s, request, header))
  {
    EnterFacts(w, s.auth, header, s.clock, |s.checks|);
    hide Enter;
    var t := Arrived(w, s, request, header);
    assert forall i :: 0 <= i < |s.checks| ==> (InFlight(t, i) <==> InFlight(s, i));
  }

  lemma ArriveKeepsCache(w: World, s: System, request: nat, header: Option<string>)
    requires CacheOk(w, s)
    ensures CacheOk(w, Arrived(w, s, request, header))
  {
    EnterFacts(w, s.auth, header, s.clock, |s.checks|);
    hide Enter;
  }

  lemma ArriveKeepsWaiters(w: World, s: System, request: nat, header: Option<string>)
    requires WaitersOk(s) && PendingOk(s) && PermitsOk(s)
    ensures WaitersOk(Arrived(w, s, request, header))
    ensures PermitsOk(Arrived(w, s, request, header))
  {
    EnterFacts(w, s.auth, header, s.clock, |s.checks|);
    hide Enter;
    var t := Arrived(w, s, request, header);
    assert RunningChecks(t.checks) == RunningChecks(s.checks);
    forall r | r in t.waiters ensures WaiterOk(t, t.waiters[r]) {
      assert r != request ==> WaiterOk(s, s.waiters[r]);
    }
  }

  // ----- a check moves on -----

  lemma StageKeepsPermits(s: System, i: nat, stage: Stage)
    requires PermitsOk(s) && i < |s.checks| && (stage.Running? ==> PermitFree(s))
    ensures PermitsOk(AtStage(s, i, stage))
  {
    var running := RunningChecks(s.checks);
    var next := RunningChecks(AtStage(s, i, stage).checks);
    if stage.Running? {
      assert next == running + {i};
    } else {
      assert next == running - {i};
    }
  }

  lemma StageKeepsWaiters(s: System, i: nat, stage: Stage)
    requires WaitersOk(s) && i < |s.checks|
    ensures WaitersOk(AtStage(s, i, stage))
  {
    var t := AtStage(s, i, stage);
    forall r | r in t.waiters ensures WaiterOk(t, t.waiters[r]) {
      assert WaiterOk(s, s.waiters[r]);
    }
  }

  lemma StageKeepsPending(s: System, i: nat, stage: Stage)
    requires PendingOk(s) && i < |s.checks|
    requires !s.checks[i].stage.Ended? && (stage.Ended? ==> s.checks[i].generation != s.auth.generation)
    ensures PendingOk(AtStage(s, i, stage))
  {
    var t := AtStage(s, i, stage);
    assert forall j :: InFlight(t, j) <==> InFlight(s, j);
    assert forall j :: 0 <= j < |s.checks| ==> t.checks[j].key == s.checks[j].key;
  }

  lemma StageKeepsChecks(w: World, s: System, i: nat, stage: Stage)
    requires ChecksOk(w, s) && i < |s.checks|
    requires !s.checks[i].stage.Ended?
    requires stage in {Running, Decided(Failed),
                       Decided(if w.verifies(s.checks[i].key.password, s.checks[i].stored) then Allowed else Unauthorized)}
    ensures ChecksOk(w, AtStage(s, i, stage))
  {
    var t := AtStage(s, i, stage);
    forall j | 0 <= j < |t.checks| ensures CheckOk(w, t, j) {
      assert CheckOk(w, s, j);
    }
  }

  lemma StageKeeps(w: World, s: System, i: nat, stage: Stage)
    requires Inv(w, s) && i < |s.checks|
    requires !s.checks[i].stage.Ended? && (stage.Running? ==> PermitFree(s))
    requires stage in {Running, Decided(Failed),
                       Decided(if w.verifies(s.checks[i].key.password, s.checks[i].stored) then Allowed else Unauthorized)}
    ensures Inv(w, AtStage(s, i, stage))
  {
    StageKeepsChecks(w, s, i, stage);
    StageKeepsPermits(s, i, stage);
    StageKeepsWaiters(s, i, stage);
    StageKeepsPending(s, i, stage);
    hide ChecksOk, PendingOk, WaitersOk, PermitsOk;
  }

  lemma StaleStartKeeps(w: World, s: System, i: nat)
    requires Inv(w, s) && i < |s.checks| && s.checks[i].generation != s.auth.generation
    requires !s.checks[i].stage.Ended?
    ensures Inv(w, Started(s, i))
  {
    var t := Started(s, i);
    forall j | 0 <= j < |t.checks| ensures CheckOk(w, t, j) {
      assert CheckOk(w, s, j);
    }
    StageKeepsPermits(s, i, Ended);
    StageKeepsWaiters(s, i, Ended);
    StageKeepsPending(s, i, Ended);
    hide CheckOk, RunningChecks;
  }

  // ----- a check ends -----

  lemma CompleteKeepsChecks(w: World, s: System, i: nat, oldest: Key)
    requires ChecksOk(w, s) && CanComplete(s, i, oldest)
    ensures ChecksOk(w, Completed(s, i, oldest))
  {
    hide Oldest;
    var t := Completed(s, i, oldest);
    forall j | 0 <= j < |t.checks| ensures CheckOk(w, t, j) {
      assert CheckOk(w, s, j);
    }
  }

  lemma CompleteKeepsPending(w: World, s: System, i: nat, oldest: Key)
    requires PendingOk(s) && CanComplete(s, i, oldest)
    ensures PendingOk(Completed(s, i, oldest))
  {
    hide Oldest;
    var t := Completed(s, i, oldest);
    assert forall j :: InFlight(t, j) <==> InFlight(s, j) && j != i;
    assert forall j :: 0 <= j < |s.checks| ==> t.checks[j].key == s.checks[j].key;
    SubsetSize(t.auth.pending.Keys, s.auth.pending.Keys);
  }

  lemma CompleteKeepsCache(w: World, s: System, i: nat, oldest: Key)
    requires ChecksOk(w, s) && PendingOk(s) && CacheOk(w, s) && CanComplete(s, i, oldest)
    ensures CacheOk(w, Completed(s, i, oldest))
  {
    assert CheckOk(w, s, i);
    var c := s.checks[i];
    if c.generation == s.auth.generation && c.stage == Decided(Allowed) {
      assert InFlight(s, i);
      Insertion(s.auth.cache, c.key, Entry(s.clock, s.auth.accessCounter), oldest);
    }
  }

  lemma Insertion(cache: map<Key, Entry>, key: Key, entry: Entry, oldest: Key)
    requires |cache| <= CACHE_CAPACITY && (|cache| >= CACHE_CAPACITY ==> oldest in cache)
    ensures var kept := if |cache| >= CACHE_CAPACITY then cache - {oldest} else cache;
            |kept[key := entry]| <= CACHE_CAPACITY
  {
    assert (cache - {oldest}).Keys == cache.Keys - {oldest};
    var kept := if |cache| >= CACHE_CAPACITY then cache - {oldest} else cache;
    assert kept[key := entry].Keys == kept.Keys + {key};
  }

  lemma CompleteKeeps(w: World, s: System, i: nat, oldest: Key)
    requires Inv(w, s) && CanComplete(s, i, oldest)
    ensures Inv(w, Completed(s, i, oldest))
  {
    CompleteKeepsChecks(w, s, i, oldest);
    CompleteKeepsPending(w, s, i, oldest);
    CompleteKeepsCache(w, s, i, oldest);
    StageKeepsPermits(s, i, Ended);
    StageKeepsWaiters(s, i, Ended);
    hide RunningChecks, CheckOk, Finish, PendingOk, CacheOk;
  }

  // ----- every action -----

  lemma ActKeeps(w: World, s: System, a: Action)
    requires Inv(w, s) && CanAct(w, s, a)
    ensures Inv(w, Act(w, s, a))
  {
    match a
    case Replace(config) =>
      ReplaceKeepsChecks(w, s, config);
      ReplaceKeepsPending(w, s, config);
    case Arrive(request, header) =>
      ArriveKeepsChecks(w, s, request, header);
      ArriveKeepsPending(w, s, request, header);
      ArriveKeepsCache(w, s, request, header);
      ArriveKeepsWaiters(w, s, request, header);
    case Complete(i, oldest) => CompleteKeeps(w, s, i, oldest);
    case Start(i) =>
      if s.checks[i].generation != s.auth.generation {
        StaleStartKeeps(w, s, i);
      } else {
        StageKeeps(w, s, i, Running);
      }
    case Refuse(i) => StageKeeps(w, s, i, Decided(Failed));
    case Return(i, panicked) => StageKeeps(w, s, i, Returned(w, s, i, panicked).checks[i].stage);
    case _ => SmallStepsKeep(w, s, a);
  }

  lemma SmallStepsKeep(w: World, s: System, a: Action)
    requires Inv(w, s) && CanAct(w, s, a)
    requires a.Wake? || a.Cancel? || a.StartHash? || a.EndHash? || a.Tick?
    ensures Inv(w, Act(w, s, a))
  {
    var t := Act(w, s, a);
    forall i | 0 <= i < |t.checks| ensures CheckOk(w, t, i) {
      assert CheckOk(w, s, i);
    }
    assert forall i :: InFlight(t, i) <==> InFlight(s, i);
  }
}

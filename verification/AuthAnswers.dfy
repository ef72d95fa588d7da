/** What becomes of a request for login: exactly which of six things happens at once, and how a check ends. */
module AuthAnswers {
  import opened Sums
  import opened Authentication
  import opened AuthProtocol
  import opened AuthSafety

  // ----- at once -----

  /** Login is asked for: a user and a password are configured. */
  predicate Asked(w: World, s: System) {
    w.trim(s.auth.config.loginUser) != "" && s.auth.config.loginPassword != ""
  }

  /** The header carries no credentials, or those of somebody else. */
  predicate Stranger(w: World, s: System, header: Option<string>) {
    match Carried(header)
    case None => true
    case Some(key) => key.user != w.trim(s.auth.config.loginUser)
  }

  /** A success of these credentials is remembered, and less than half an hour old. */
  predicate Remembered(s: System, key: Key) {
    key in s.auth.cache && s.clock < s.auth.cache[key].verifiedAt + 30 * 60
  }

  /** These credentials are being checked, by check i. */
  predicate CheckedBy(s: System, key: Key, i: int) {
    InFlight(s, i) && s.checks[i].key == key
  }

  ghost predicate BeingChecked(s: System, key: Key) {
    exists i :: CheckedBy(s, key, i)
  }

  /** The request carries the configured user, is not remembered, and so needs a check. */
  predicate NeedsCheck(w: World, s: System, header: Option<string>) {
    Asked(w, s) && !Stranger(w, s, header) && !Remembered(s, Carried(header).value)
  }

  predicate Joins(s: System, t: System, request: nat, key: Key, i: int) {
    i >= 0 && t.checks == s.checks && t.waiters == s.waiters[request := Waiter(key, i, s.auth.generation)]
  }

  predicate Queues(s: System, t: System, request: nat, key: Key) {
    && t.checks == s.checks + [Check(key, s.auth.generation, s.auth.config.loginPassword, Queued)]
    && t.waiters == s.waiters[request := Waiter(key, |s.checks|, s.auth.generation)]
  }

  /**
   Exactly what happens to a request at once. It is let in if login is not asked for or its credentials are
   remembered; refused if it carries none, or another user; told that the service is busy if its credentials need
   a check that nobody runs yet while 32 are under way. Otherwise it waits: on the check of its credentials that
   is under way, or on a new one. It never fails at once.
   */
  lemma ArrivalIs(w: World, states: seq<System>, actions: seq<Action>, n: nat)
    requires IsRun(w, states, actions) && n < |actions| && actions[n].Arrive?
    ensures var s, t, request, header := states[n], states[n + 1], actions[n].request, actions[n].header;
            var answer := Answer(w, s, actions[n]);
            var needs := NeedsCheck(w, s, header);
            && (answer == Some(Allowed) <==> !Asked(w, s) || (!Stranger(w, s, header) && Remembered(s, Carried(header).value)))
            && (answer == Some(Unauthorized) <==> Asked(w, s) && Stranger(w, s, header))
            && (answer == Some(Busy) <==>
                  needs && !BeingChecked(s, Carried(header).value) && |s.auth.pending| >= 32)
            && (forall i :: needs && CheckedBy(s, Carried(header).value, i) ==>
                  Joins(s, t, request, Carried(header).value, i) && answer == None)
            && (needs && !BeingChecked(s, Carried(header).value) && |s.auth.pending| < 32 ==>
                  Queues(s, t, request, Carried(header).value) && answer == None)
            && answer != Some(Failed)
            && (answer.Some? ==> t.checks == s.checks && t.waiters == s.waiters)
  {
    hide SplitOnce, IsRun, Inv, CheckOk, Act;
    StepOfRun(w, states, actions, n);
    RunKeeps(w, states, actions, n);
    var s, header := states[n], actions[n].header;
    RememberedIsUnexpired(w, s);
    if NeedsCheck(w, s, header) {
      PendingIsBeingChecked(w, s, Carried(header).value);
    }
    ActArrives(w, s, actions[n]);
  }

  lemma StepOfRun(w: World, states: seq<System>, actions: seq<Action>, n: nat)
    requires IsRun(w, states, actions) && n < |actions|
    ensures |states| == |actions| + 1 && CanAct(w, states[n], actions[n]) && states[n + 1] == Act(w, states[n], actions[n])
  {
  }

  lemma ActArrives(w: World, s: System, a: Action)
    requires CanAct(w, s, a) && a.Arrive?
    ensures Act(w, s, a) == Arrived(w, s, a.request, a.header)
  {
  }

  lemma RememberedIsUnexpired(w: World, s: System)
    requires Inv(w, s)
    ensures forall key :: key in Unexpired(s.auth.cache, s.clock) <==> Remembered(s, key)
  {
  }

  lemma PendingIsBeingChecked(w: World, s: System, key: Key)
    requires Inv(w, s)
    ensures key in s.auth.pending <==> BeingChecked(s, key)
    ensures forall i :: CheckedBy(s, key, i) ==> key in s.auth.pending && s.auth.pending[key] == i
  {
    hide ChecksOk, CacheOk, WaitersOk, PermitsOk;
    if key in s.auth.pending { assert CheckedBy(s, key, s.auth.pending[key]); }
  }

  // ----- after a check -----

  /** A check that somebody refused to run, or that panicked. */
  predicate Failing(s: System, i: nat) {
    i < |s.checks| && (s.checks[i].stage == Decided(Failed) || (i in s.auth.sent && s.auth.sent[i] == Failed))
  }

  lemma FailureStep(w: World, s: System, a: Action, i: nat)
    requires CanAct(w, s, a) && Failing(Act(w, s, a), i)
    requires ChecksOk(w, s)
    ensures Failing(s, i) || a == Return(i, true) || a == Refuse(i)
  {
    hide Oldest, SplitOnce, Unexpired, RunningChecks, CheckOk;
  }

  lemma {:induction false} FailureHistory(w: World, states: seq<System>, actions: seq<Action>, n: nat, i: nat)
    requires IsRun(w, states, actions) && n < |states| && Failing(states[n], i)
    ensures Return(i, true) in actions[..n] || Refuse(i) in actions[..n]
  {
    hide Act, CanAct, Failing;
    if n == 0 {
      NothingFailed(states[0], i);
    } else {
      RunKeeps(w, states, actions, n - 1);
      FailureStep(w, states[n - 1], actions[n - 1], i);
      if Failing(states[n - 1], i) {
        FailureHistory(w, states, actions, n - 1, i);
      }
      assert actions[..n] == actions[..n - 1] + [actions[n - 1]];
    }
  }

  lemma NothingFailed(s: System, i: nat)
    requires Begins(s)
    ensures !Failing(s, i)
  {
  }

  /** A request that waited fails only if its check could not be run, or panicked. */
  lemma FailsOnlyWithItsCheck(w: World, states: seq<System>, actions: seq<Action>, n: nat)
    requires IsRun(w, states, actions) && n < |actions| && actions[n].Wake?
    requires actions[n].request in states[n].waiters
    requires Answer(w, states[n], actions[n]) == Some(Failed)
    ensures var i := states[n].waiters[actions[n].request].channel;
            Return(i, true) in actions[..n] || Refuse(i) in actions[..n]
  {
    hide Act;
    RunKeeps(w, states, actions, n);
    assert CanAct(w, states[n], actions[n]);
    var wt := states[n].waiters[actions[n].request];
    assert WaiterOk(states[n], wt);
    FailureHistory(w, states, actions, n, wt.channel);
  }

  /**
   A request that has just queued a check gets the verdict of the verifier if that check runs: let in exactly if
   the password is right, and then remembered.
   */
  lemma CheckGivesVerdict(w: World, s: System, request: nat, key: Key)
    returns (oldest: Key, s1: System, s2: System, s3: System)
    requires Inv(w, s) && request in s.waiters && PermitFree(s)
    requires var i := s.waiters[request].channel;
             && s.waiters[request] == Waiter(key, i, s.auth.generation) && i < |s.checks|
             && s.checks[i] == Check(key, s.auth.generation, s.auth.config.loginPassword, Queued)
    ensures var i := s.waiters[request].channel;
            && CanAct(w, s, Start(i)) && s1 == Act(w, s, Start(i))
            && CanAct(w, s1, Return(i, false)) && s2 == Act(w, s1, Return(i, false))
            && CanAct(w, s2, Complete(i, oldest)) && s3 == Act(w, s2, Complete(i, oldest))
            && CanAct(w, s3, Wake(request))
    ensures Answer(w, s3, Wake(request))
            == Some(if w.verifies(key.password, s.auth.config.loginPassword) then Allowed else Unauthorized)
    ensures key in s3.auth.cache <==> w.verifies(key.password, s.auth.config.loginPassword)
    ensures key in s3.auth.cache ==> s3.auth.cache[key].verifiedAt == s3.clock
  {
    var i := s.waiters[request].channel;
    QueuedIsPending(w, s, i);
    hide Inv, Oldest, Finish, PermitFree, Act;
    oldest := key;
    if |s.auth.cache| >= CACHE_CAPACITY {
      OldestExists(s.auth.cache);
      oldest :| Oldest(s.auth.cache, oldest);
    }
    StartIs(w, s, i);
    s1 := AtStage(s, i, Running);
    ReturnIs(w, s1, i);
    s2 := Act(w, s1, Return(i, false));
    s3 := AnswersVerdict(w, s2, request, key, oldest);
  }

  lemma AnswersVerdict(w: World, s: System, request: nat, key: Key, oldest: Key) returns (t: System)
    requires request in s.waiters && key !in s.auth.cache
    requires var i := s.waiters[request].channel;
             && s.waiters[request].generation == s.auth.generation && i < |s.checks|
             && s.checks[i].key == key && s.checks[i].generation == s.auth.generation && s.checks[i].stage.Decided?
             && CanAct(w, s, Complete(i, oldest))
    ensures var i := s.waiters[request].channel;
            t == Act(w, s, Complete(i, oldest)) && CanAct(w, t, Wake(request))
    ensures var d := s.checks[s.waiters[request].channel].stage.decision;
            && Answer(w, t, Wake(request)) == Some(d)
            && (key in t.auth.cache <==> d == Allowed) && (key in t.auth.cache ==> t.auth.cache[key].verifiedAt == t.clock)
  {
    hide Oldest, Finish;
    var i := s.waiters[request].channel;
    FinishGives(s.auth, key, i, s.checks[i].stage.decision, s.clock, oldest);
    t := Completed(s, i, oldest);
  }

  lemma StartIs(w: World, s: System, i: nat)
    requires CanAct(w, s, Start(i)) && s.checks[i].generation == s.auth.generation
    ensures Act(w, s, Start(i)) == AtStage(s, i, Running)
  {
  }

  lemma ReturnIs(w: World, s: System, i: nat)
    requires CanAct(w, s, Return(i, false))
    ensures Act(w, s, Return(i, false))
            == AtStage(s, i, Decided(if w.verifies(s.checks[i].key.password, s.checks[i].stored) then Allowed else Unauthorized))
  {
  }

  lemma QueuedIsPending(w: World, s: System, i: nat)
    requires Inv(w, s) && i < |s.checks| && InFlight(s, i)
    ensures s.checks[i].key in s.auth.pending && s.checks[i].key !in s.auth.cache
  {
    hide ChecksOk, WaitersOk, PermitsOk;
  }

  lemma FinishGives(s: AuthState, key: Key, channel: nat, d: Decision, now: nat, oldest: Key)
    requires key !in s.cache
    ensures var t := Finish(s, key, s.generation, channel, d, now, oldest);
            && t.generation == s.generation && channel in t.sent && t.sent[channel] == d
            && (key in t.cache <==> d == Allowed) && (key in t.cache ==> t.cache[key].verifiedAt == now)
  {
  }

  /** Two checks or password hashes run at the same time, and a check that waits may begin whenever fewer do. */
  lemma TwoAtATime(w: World, s: System, i: nat)
    ensures CanAct(w, s, StartHash) <==> |RunningChecks(s.checks)| + s.hashing < 2
    ensures i < |s.checks| && s.checks[i].stage.Queued? ==>
              (CanAct(w, s, Start(i)) <==> |RunningChecks(s.checks)| + s.hashing < 2)
  {
  }

  /** Hashing a password holds one of the two permits, and gives it back. */
  lemma HashingHolds(w: World, s: System)
    requires Inv(w, s)
    ensures CanAct(w, s, StartHash) ==>
              var t := Act(w, s, StartHash);
              && CanAct(w, t, EndHash) && Act(w, t, EndHash) == s
              && forall i :: 0 <= i < |s.checks| && s.checks[i].stage.Queued? ==>
                   (CanAct(w, t, Start(i)) <==> |RunningChecks(s.checks)| + s.hashing == 0)
    ensures s.hashing > 0 ==>
              && CanAct(w, s, EndHash)
              && CanAct(w, Act(w, s, EndHash), StartHash) && Act(w, Act(w, s, EndHash), StartHash) == s
  {
    hide ChecksOk, PendingOk, WaitersOk, Oldest;
  }

  /** A check that gets no permit any more fails, and so does everyone who waits for it; nothing is remembered. */
  lemma RefusalFails(w: World, s: System, request: nat, key: Key, oldest: Key)
    requires Inv(w, s) && request in s.waiters
    requires var i := s.waiters[request].channel;
             && s.waiters[request] == Waiter(key, i, s.auth.generation) && i < |s.checks|
             && s.checks[i] == Check(key, s.auth.generation, s.auth.config.loginPassword, Queued)
    requires |s.auth.cache| >= CACHE_CAPACITY ==> Oldest(s.auth.cache, oldest)
    ensures var i := s.waiters[request].channel;
            && CanAct(w, s, Refuse(i))
            && var s1 := Act(w, s, Refuse(i));
            && CanAct(w, s1, Complete(i, oldest))
            && var s2 := Act(w, s1, Complete(i, oldest));
            && CanAct(w, s2, Wake(request)) && Answer(w, s2, Wake(request)) == Some(Failed) && key !in s2.auth.cache
  {
    var i := s.waiters[request].channel;
    QueuedIsPending(w, s, i);
    hide Inv, Oldest, Finish;
    var t := AnswersVerdict(w, Act(w, s, Refuse(i)), request, key, oldest);
  }

  /** A request may go away while it waits. Its check and everybody else go on. */
  lemma GoesAway(w: World, s: System, request: nat)
    requires request in s.waiters
    ensures CanAct(w, s, Cancel(request))
    ensures var t := Act(w, s, Cancel(request));
            && t.auth == s.auth && t.checks == s.checks && t.hashing == s.hashing && t.clock == s.clock
            && request !in t.waiters && t.waiters[request := s.waiters[request]] == s.waiters
  {
  }

  /** A success is remembered for half an hour from its check, however often it is used. */
  lemma ForgottenInTime(w: World, s: System, request: nat, header: Option<string>, seconds: nat)
    requires Inv(w, s) && Asked(w, s) && !Stranger(w, s, header)
    requires Carried(header).value in s.auth.cache && request !in s.waiters
    ensures CanAct(w, s, Tick(seconds))
    ensures var t := Act(w, s, Tick(seconds));
            && CanAct(w, t, Arrive(request, header))
            && (Answer(w, t, Arrive(request, header)) == Some(Allowed) <==>
                  s.clock + seconds < s.auth.cache[Carried(header).value].verifiedAt + 30 * 60)
  {
    hide SplitOnce, Inv;
    ActKeeps(w, s, Tick(seconds));
    RememberedIsUnexpired(w, Act(w, s, Tick(seconds)));
  }

  /**
   What a check that ends leaves in the cache: its own success, if nothing has changed since it began, and all that was
   there but for the least recently used entry of a cache with 256.
   */
  lemma CompletionIs(w: World, s: System, i: nat, oldest: Key)
    requires Inv(w, s) && CanAct(w, s, Complete(i, oldest)) && s.checks[i].generation == s.auth.generation
    ensures var t, key, d := Act(w, s, Complete(i, oldest)), s.checks[i].key, s.checks[i].stage.decision;
            && (forall k :: k != key ==>
                  (k in t.auth.cache <==> k in s.auth.cache && !(d == Allowed && |s.auth.cache| == 256 && k == oldest)))
            && (forall k :: k != key && k in t.auth.cache ==> t.auth.cache[k] == s.auth.cache[k])
            && (d == Allowed ==> key in t.auth.cache && t.auth.cache[key] == Entry(s.clock, s.auth.accessCounter))
            && (d == Allowed && |s.auth.cache| == 256 ==>
                  forall k :: k in s.auth.cache ==> s.auth.cache[oldest].lastAccess <= s.auth.cache[k].lastAccess)
            && (d != Allowed ==> t.auth.cache == s.auth.cache)
            && t.auth.pending == s.auth.pending - {key}
            && i in t.auth.sent && t.auth.sent[i] == d
  {
    hide ChecksOk, PendingOk, WaitersOk, PermitsOk;
  }

  // ----- a new configuration -----

  /**
   A new configuration takes effect at once. If it changes who may log in, nothing is remembered, no check counts
   any more, and everyone who waits is refused; otherwise everything goes on as before.
   */
  lemma ReplacementIs(w: World, s: System, config: Config)
    requires Inv(w, s)
    ensures var t := Act(w, s, Replace(config));
            && t.auth.config == config
            && (Effective(w, config) == Effective(w, s.auth.config) ==> t == s.(auth := s.auth.(config := config)))
            && (Effective(w, config) != Effective(w, s.auth.config) ==>
                  && t.auth.cache == map[] && t.auth.pending == map[] && (forall i :: !InFlight(t, i))
                  && forall r :: r in s.waiters ==>
                       && r in t.waiters && CanAct(w, t, Wake(r))
                       && Answer(w, t, Wake(r)) == Some(Unauthorized))
  {
    hide Notified;
    var t := Act(w, s, Replace(config));
    ReplaceKeepsChecks(w, s, config);
    if Effective(w, config) != Effective(w, s.auth.config) {
      forall i | 0 <= i < |s.checks| ensures !InFlight(t, i) {
        assert CheckOk(w, s, i);
      }
      forall r | r in s.waiters ensures CanAct(w, t, Wake(r)) && Answer(w, t, Wake(r)) == Some(Unauthorized) {
        assert WaiterOk(s, s.waiters[r]);
        assert CheckOk(w, s, s.waiters[r].channel) && CheckOk(w, t, s.waiters[r].channel);
      }
    }
  }
}

/** The critical sections of the authentication service, run on its locked state in place. */
module AuthService {
  import opened Sums
  import opened Authentication
  import AuthSafety

  class LockedState {
    const world: World
    var config: Config
    var generation: nat
    var cache: map<Key, Entry>
    var pending: map<Key, nat>
    var accessCounter: nat
    var sent: map<nat, Decision>

    constructor (world: World, config: Config)
      ensures this.world == world && Value() == NewService(config)
    {
      this.world, this.config := world, config;
      generation, accessCounter := 0, 0;
      cache, pending, sent := map[], map[], map[];
    }

    function Value(): AuthState
      reads this
    {
      AuthState(config, generation, cache, pending, accessCounter, sent)
    }

    /** Installs a configuration. If who may log in changes, everything in progress is refused. */
    method ReplaceConfig(next: Config)
      modifies this
      ensures Value() == Authentication.ReplaceConfig(world, old(Value()), next)
    {
      if world.trim(config.loginUser) != world.trim(next.loginUser) || config.loginPassword != next.loginPassword {
        generation := generation + 1;
        cache := map[];
        SendToAll(pending.Values, Unauthorized);
        pending := map[];
      }
      config := next;
    }

    method SendToAll(channels: set<nat>, d: Decision)
      modifies this`sent
      ensures sent == Notified(old(sent), channels, d)
    {
      var left := channels;
      while left != {}
        invariant left <= channels
        invariant sent == Notified(old(sent), channels - left, d)
        decreases |left|
      {
        var c :| c in left;
        NotifiedMore(old(sent), channels - left, c, d);
        assert channels - (left - {c}) == channels - left + {c};
        sent := sent[c := d];
        left := left - {c};
      }
      assert channels - left == channels;
    }

    lemma NotifiedMore(sent: map<nat, Decision>, channels: set<nat>, c: nat, d: Decision)
      ensures Notified(sent, channels + {c}, d) == Notified(sent, channels, d)[c := d]
    {
    }

    /** The first critical section of a request. */
    method Enter(header: Option<string>, now: nat, channel: nat) returns (entered: Entered)
      modifies this
      ensures (Value(), entered) == Authentication.Enter(world, old(Value()), header, now, channel)
    {
      if !Enabled(world, config) {
        return Answered(Allowed);
      }
      if header.None? {
        return Answered(Unauthorized);
      }
      var split := SplitOnce(header.value);
      if split.None? || split.value.user != world.trim(config.loginUser) {
        return Answered(Unauthorized);
      }
      var key := split.value;
      cache := map k | k in cache && Elapsed(now, cache[k].verifiedAt) < CACHE_TTL :: cache[k];
      accessCounter := accessCounter + 1;
      if key in cache {
        cache := cache[key := cache[key].(lastAccess := accessCounter)];
        return Answered(Allowed);
      }
      if key in pending {
        return Subscribed(key, pending[key]);
      }
      if |pending| >= MAX_PENDING {
        return Answered(Busy);
      }
      pending := pending[key := channel];
      return Spawned(key, config.loginPassword);
    }

    /** A least recently used key. */
    method LeastRecent() returns (oldest: Key)
      requires cache != map[]
      ensures Oldest(cache, oldest)
    {
      oldest :| oldest in cache;
      var left := cache.Keys - {oldest};
      while left != {}
        invariant left <= cache.Keys && oldest in cache
        invariant forall k :: k in cache && k !in left ==> cache[oldest].lastAccess <= cache[k].lastAccess
        decreases |left|
      {
        var k :| k in left;
        if cache[k].lastAccess < cache[oldest].lastAccess {
          oldest := k;
        }
        left := left - {k};
      }
    }

    /** The last critical section of a check. */
    method Finish(key: Key, spawned: nat, channel: nat, d: Decision, now: nat) returns (ghost oldest: Key)
      modifies this
      ensures |old(cache)| >= CACHE_CAPACITY ==> Oldest(old(cache), oldest)
      ensures Value() == Authentication.Finish(old(Value()), key, spawned, channel, d, now, oldest)
    {
      oldest := key;
      if |cache| >= CACHE_CAPACITY {
        AuthSafety.OldestExists(cache);
        oldest :| Oldest(cache, oldest);
      }
      if generation != spawned {
        sent := sent[channel := Unauthorized];
        return;
      }
      pending := pending - {key};
      if d == Allowed {
        if |cache| >= CACHE_CAPACITY {
          var victim := LeastRecent();
          oldest := victim;
          cache := cache - {victim};
        }
        cache := cache[key := Entry(now, accessCounter)];
      }
      sent := sent[channel := d];
    }

    /** The last critical section of a request that waited. */
    method Leave(entered: nat, d: Decision) returns (answer: Decision)
      ensures answer == Authentication.Leave(Value(), entered, d)
    {
      if generation != entered {
        answer := Unauthorized;
      } else {
        answer := d;
      }
    }
  }
}

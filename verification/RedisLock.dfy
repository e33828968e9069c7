/** The lock object of one process over the shared store. */
module RedisLock {
  import opened LeaseStore
  import opened RenewalSchedule
  import R = RenewerRegistry

  datatype LockConfig = LockConfig(defaultTimeout: int, renewInterval: int, autoRenew: bool, keyPrefix: string)

  datatype LockInfo = LockInfo(token: Token, timeout: int)

  /** `token` has the key for the rest of a timeout that was cut to whole milliseconds. */
  predicate LastsFor(s: State, key: string, token: Token, timeout: int)
  {
    && key in s.leases && s.leases[key].token == token
    && var left := s.leases[key].expiry - s.now;
       left % MILLISECOND == 0 && timeout - MILLISECOND < left <= timeout
  }

  /** The shared store, with its clock and the source of tokens. */
  class Redis {
    var leases: map<string, Lease>
    var now: int
    var nextToken: Token

    constructor ()
      ensures Contents() == State(map[], 0, 0, map[])
    {
      leases, now, nextToken := map[], 0, 0;
    }

    function Contents(): (s: State)
      reads this
    {
      State(leases, now, nextToken, map[])
    }

    method SetIfAbsent(key: string, token: Token, timeout: int) returns (ok: bool)
      requires token == nextToken && timeout > 0
      modifies this
      ensures Contents() == SetNX(old(Contents()), key, timeout) && (ok <==> !Taken(old(Contents()), key))
    {
      nextToken := nextToken + 1;
      if key in leases && now < leases[key].expiry {
        return false;
      }
      var millis := if timeout < MILLISECOND then 1 else timeout / MILLISECOND;
      leases := leases[key := Lease(token, now + millis * MILLISECOND)];
      ok := true;
    }

    /** The release script. */
    method DeleteIfEqual(key: string, token: Token) returns (ok: bool)
      modifies `leases
      ensures Contents() == LeaseStore.Delete(old(Contents()), key, token)
              && (ok <==> Live(old(Contents()), key, token))
    {
      if key in leases && now < leases[key].expiry && leases[key].token == token {
        leases := leases - {key};
        return true;
      }
      ok := false;
    }

    /** The refresh script; `timeoutMs` is in milliseconds. */
    method ExpireIfEqual(key: string, token: Token, timeoutMs: nat) returns (ok: bool)
      modifies `leases
      ensures ok <==> Live(old(Contents()), key, token)
      ensures !ok ==> Contents() == old(Contents())
      ensures ok ==> leases == old(leases)[key := Lease(token, now + timeoutMs * MILLISECOND)]
    {
      if key in leases && now < leases[key].expiry && leases[key].token == token {
        leases := leases[key := Lease(token, now + timeoutMs * MILLISECOND)];
        return true;
      }
      ok := false;
    }
  }

  class RedisLock {
    const redis: Redis
    const config: LockConfig
    var activeLocks: map<string, LockInfo>
    var renewers: set<(string, Token)>
    var told: set<(string, Token)>
    var asking: multiset<string>
    var renewalStops: seq<string>

    constructor (redis: Redis, config: LockConfig)
      ensures Valid() && this.redis == redis && Renewers() == R.Empty()
      ensures this.config == config.(renewInterval := Configured(config.renewInterval, config.defaultTimeout))
    {
      this.redis := redis;
      var adjusted := config;
      if config.renewInterval >= Third(config.defaultTimeout) {
        adjusted := config.(renewInterval := Third(config.defaultTimeout));
      }
      this.config := adjusted;
      activeLocks, renewers, told, asking, renewalStops := map[], {}, {}, multiset{}, [];
    }

    function Renewers(): (r: R.Registry)
      reads this
    {
      R.Registry(map key | key in activeLocks :: activeLocks[key].token, renewers, told, asking, renewalStops)
    }

    function LockKey(key: string): (k: string)
    {
      config.keyPrefix + key
    }

    lemma LockKeysApart(key: string, other: string)
      ensures LockKey(key) == LockKey(other) <==> key == other
    {
      assert LockKey(key)[|config.keyPrefix|..] == key && LockKey(other)[|config.keyPrefix|..] == other;
    }

    /** The locks of all other keys are as they were. */
    ghost predicate OthersKept(before: map<string, Lease>, after: map<string, Lease>, key: string)
    {
      forall other :: other != key ==>
        && (LockKey(other) in before <==> LockKey(other) in after)
        && (LockKey(other) in before ==> after[LockKey(other)] == before[LockKey(other)])
    }

    lemma OnlyItsKey(before: map<string, Lease>, after: map<string, Lease>, key: string)
      requires before - {LockKey(key)} == after - {LockKey(key)}
      ensures OthersKept(before, after, key)
    {
      forall other | other != key
        ensures && (LockKey(other) in before <==> LockKey(other) in after)
                && (LockKey(other) in before ==> after[LockKey(other)] == before[LockKey(other)])
      {
        LockKeysApart(key, other);
        assert LockKey(other) in before <==> LockKey(other) in before - {LockKey(key)};
        assert LockKey(other) in after <==> LockKey(other) in after - {LockKey(key)};
      }
    }

    /** Tokens are fresh: no renewer has one that is still to be drawn. */
    ghost predicate Valid()
      reads this, redis
    {
      && (forall x :: x in renewers + told ==> x.1 < redis.nextToken)
      && (forall key :: key in activeLocks ==> activeLocks[key].token < redis.nextToken)
    }

    /** When the key is held by somebody the token is of no use. */
    method TryAcquire(key: string, timeout: int) returns (token: Token, ok: bool)
      requires Valid() && Effective(timeout, config.defaultTimeout) > 0
      modifies this, redis
      ensures Valid()
      ensures var t := Effective(timeout, config.defaultTimeout);
              && redis.Contents() == SetNX(old(redis.Contents()), LockKey(key), t)
              && (ok <==> !Taken(old(redis.Contents()), LockKey(key)))
              && (ok ==> Live(redis.Contents(), LockKey(key), token) && token == old(redis.nextToken))
      ensures Renewers() == if ok && config.autoRenew then R.Apply(old(Renewers()), R.Start(key, token))
              else old(Renewers())
      ensures ok && config.autoRenew ==>
                key in activeLocks && activeLocks[key].timeout == Effective(timeout, config.defaultTimeout)
      ensures OthersKept(old(redis.leases), redis.leases, key) && redis.now == old(redis.now)
      ensures !ok ==> redis.leases == old(redis.leases)
      ensures ok ==>
                var t := if timeout <= 0 then config.defaultTimeout else timeout;
                LastsFor(redis.Contents(), LockKey(key), token, if t < MILLISECOND then MILLISECOND else t)
    {
      token := redis.nextToken;
      var effective := if timeout <= 0 then config.defaultTimeout else timeout;
      ok := redis.SetIfAbsent(LockKey(key), token, effective);
      OnlyItsKey(old(redis.leases), redis.leases, key);
      if !ok {
        return;
      }
      if config.autoRenew {
        var _ := StartAutoRenew(key, token, effective);
      }
    }

    /** Starts a renewer and gives the interval it ticks at. */
    method StartAutoRenew(key: string, token: Token, timeout: int) returns (interval: int)
      requires (key, token) !in renewers && (key, token) !in told
      modifies this
      ensures Renewers() == R.Apply(old(Renewers()), R.Start(key, token))
      ensures activeLocks == old(activeLocks)[key := LockInfo(token, timeout)]
      ensures interval == Interval(config.renewInterval, timeout)
    {
      activeLocks := activeLocks[key := LockInfo(token, timeout)];
      renewers := renewers + {(key, token)};
      assert Renewers().active == old(Renewers()).active[key := token];
      interval := config.renewInterval;
      if interval <= 0 || interval >= Third(timeout) {
        interval := Third(timeout);
      }
    }

    /** The first half of Release: the script, after which a stop request is to be sent. */
    method ReleaseScript(key: string, token: Token) returns (ok: bool)
      requires Valid()
      modifies this, redis
      ensures Valid()
      ensures redis.Contents() == LeaseStore.Delete(old(redis.Contents()), LockKey(key), token)
      ensures ok <==> Live(old(redis.Contents()), LockKey(key), token)
      ensures Renewers() == if ok && config.autoRenew then R.Apply(old(Renewers()), R.Deleted(key, token))
              else old(Renewers())
      ensures if ok then LockKey(key) !in redis.leases else redis.leases == old(redis.leases)
      ensures OthersKept(old(redis.leases), redis.leases, key) && redis.now == old(redis.now)
    {
      ok := redis.DeleteIfEqual(LockKey(key), token);
      OnlyItsKey(old(redis.leases), redis.leases, key);
      if ok && config.autoRenew {
        asking := asking + multiset{key};
      }
    }

    /** The send of a stop request, the second half of Release and of a refused renewal. */
    method StopAutoRenew(key: string)
      requires Valid() && key in asking
      modifies this
      ensures Valid() && Renewers() == R.Apply(old(Renewers()), R.Ask(key))
    {
      asking := asking - multiset{key};
      renewalStops := renewalStops + [key];
    }

    /** The whole of Release, with nothing in between. */
    method Release(key: string, token: Token) returns (ok: bool)
      requires Valid()
      modifies this, redis
      ensures Valid()
      ensures redis.Contents() == LeaseStore.Delete(old(redis.Contents()), LockKey(key), token)
      ensures ok <==> Live(old(redis.Contents()), LockKey(key), token)
      ensures Renewers() == if ok && config.autoRenew then
                              R.Apply(R.Apply(old(Renewers()), R.Deleted(key, token)), R.Ask(key))
                            else old(Renewers())
      ensures if ok then LockKey(key) !in redis.leases else redis.leases == old(redis.leases)
      ensures OthersKept(old(redis.leases), redis.leases, key) && redis.now == old(redis.now)
    {
      ok := ReleaseScript(key, token);
      if ok && config.autoRenew {
        StopAutoRenew(key);
      }
    }

    method Refresh(key: string, token: Token, timeout: int) returns (ok: bool)
      requires Valid() && Effective(timeout, config.defaultTimeout) > 0
      modifies this`activeLocks, redis
      ensures Valid()
      ensures redis.Contents() == Expire(old(redis.Contents()), LockKey(key), token,
                                         Effective(timeout, config.defaultTimeout))
      ensures ok <==> Live(old(redis.Contents()), LockKey(key), token)
      ensures Renewers() == old(Renewers())
      ensures OthersKept(old(redis.leases), redis.leases, key) && redis.now == old(redis.now)
      ensures if ok then
                LastsFor(redis.Contents(), LockKey(key), token, if timeout <= 0 then config.defaultTimeout else timeout)
              else redis.leases == old(redis.leases)
    {
      var effective := if timeout <= 0 then config.defaultTimeout else timeout;
      var timeoutMs := effective / MILLISECOND;
      ok := redis.ExpireIfEqual(LockKey(key), token, timeoutMs);
      OnlyItsKey(old(redis.leases), redis.leases, key);
      if ok && config.autoRenew {
        if key in activeLocks && activeLocks[key].token == token {
          activeLocks := activeLocks[key := activeLocks[key].(timeout := effective)];
        }
      }
      assert Renewers().active == old(Renewers()).active;
    }

    /** One tick of a renewer; `up` tells whether the store can be reached. A renewer that
        does not go on has its stop request still to send. */
    method RenewalTick(key: string, token: Token, timeout: int, up: bool) returns (goesOn: bool)
      requires Valid() && timeout > 0 && (key, token) in renewers
      modifies this, redis
      ensures Valid()
      ensures goesOn <==> !up || Live(old(redis.Contents()), LockKey(key), token)
      ensures redis.Contents() == if up then Expire(old(redis.Contents()), LockKey(key), token, timeout)
              else old(redis.Contents())
      ensures Renewers() == if goesOn then old(Renewers()) else R.Apply(old(Renewers()), R.Refused(key, token))
    {
      if !up {
        return true;
      }
      goesOn := Refresh(key, token, timeout);
      if !goesOn {
        asking := asking + multiset{key};
        renewers := renewers - {(key, token)};
      }
    }

    /** One turn of the loop that handles stop requests. */
    method HandleStop()
      requires Valid() && renewalStops != []
      modifies this
      ensures Valid()
      ensures Renewers() == R.Apply(old(Renewers()), R.Handle)
    {
      var key := renewalStops[0];
      renewalStops := renewalStops[1..];
      if key in activeLocks {
        told := told + {(key, activeLocks[key].token)};
        activeLocks := activeLocks - {key};
      }
      assert Renewers().active == R.Apply(old(Renewers()), R.Handle).active;
    }
  }
}

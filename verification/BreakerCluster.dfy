/** Circuit state shared by all replicas: app/gateway/breaker_cluster.py.

    The three Redis keys of one deployment are a value; each Redis command is a function on it.
    `ClusterBreakers` is the object, run one call at a time. BreakerProtocol interleaves the same
    commands among any number of replicas. */
module BreakerCluster {
  import opened Wrappers
  import opened CircuitBreakers

  datatype Config = Config(limits: Limits, window: real, refresh: real, probeSeconds: real) {
    predicate Valid() {
      limits.Valid()
    }

    function OpenTtl(): int { AtLeastOne(limits.cooldown) }

    function FailsTtl(): int { AtLeastOne(window) }

    function ProbeTtl(): int { AtLeastOne(probeSeconds) }
  }

  /** max(int(x), 1): Python's int() drops the fraction. */
  function AtLeastOne(x: real): (n: int)
    ensures n >= 1 && (x >= 1.0 ==> n as real <= x < n as real + 1.0)
  {
    if x < 1.0 then 1 else x.Floor
  }

  /** `breaker:fails:<dep>`: INCR creates it without a TTL, EXPIRE gives it one. */
  datatype Counter = Counter(count: nat, until: Option<real>)

  /** The three keys of one deployment. `open` and `probe` hold the moment they expire. */
  datatype Keys = Keys(fails: Option<Counter>, open: Option<real>, probe: Option<real>)

  const NO_KEYS := Keys(None, None, None)

  predicate Gone(until: real, now: real) {
    until <= now
  }

  /** What is left of the keys at `now`. */
  function Live(k: Keys, now: real): Keys {
    Keys(if k.fails.Some? && k.fails.value.until.Some? && Gone(k.fails.value.until.value, now) then None else k.fails,
         if k.open.Some? && Gone(k.open.value, now) then None else k.open,
         if k.probe.Some? && Gone(k.probe.value, now) then None else k.probe)
  }

  function FailCount(k: Keys): nat {
    if k.fails.Some? then k.fails.value.count else 0
  }

  function FailsRead(k: Keys): Option<nat> {
    if k.fails.Some? then Some(k.fails.value.count) else None
  }

  function Incr(k: Keys): Keys {
    k.(fails := Some(Counter(FailCount(k) + 1, if k.fails.Some? then k.fails.value.until else None)))
  }

  function ExpireFails(cfg: Config, k: Keys, now: real): Keys {
    if k.fails.None? then k
    else k.(fails := Some(k.fails.value.(until := Some(now + cfg.FailsTtl() as real))))
  }

  function SetOpen(cfg: Config, k: Keys, now: real): Keys {
    k.(open := Some(now + cfg.OpenTtl() as real))
  }

  function DelFailsAndProbe(k: Keys): Keys {
    k.(fails := None, probe := None)
  }

  /** SET NX EX: only an absent key is set. */
  function ClaimProbe(cfg: Config, k: Keys, now: real): Keys {
    if k.probe.Some? then k else k.(probe := Some(now + cfg.ProbeTtl() as real))
  }

  // ------------------------------------------------------------------ one call at a time

  function KeysOf(store: map<string, Keys>, name: string, now: real): Keys {
    if name in store then Live(store[name], now) else NO_KEYS
  }

  /** `_open`. */
  function Opened(cfg: Config, k: Keys, now: real): Keys {
    DelFailsAndProbe(SetOpen(cfg, k, now))
  }

  /** `record_failure` on the keys, given whether the local breaker tripped. */
  function FailureKeys(cfg: Config, k: Keys, tripped: bool, now: real): Keys {
    if tripped then Opened(cfg, k, now)
    else
      var counted := ExpireFails(cfg, Incr(k), now);
      if FailCount(counted) >= cfg.limits.threshold then Opened(cfg, counted, now) else counted
  }

  /** ... and on the local breaker. */
  function FailureBreaker(cfg: Config, k: Keys, b: Breaker, now: real): Breaker {
    var local := Failed(cfg.limits, b, now);
    var count := FailCount(k) + 1;
    if !Trips(cfg.limits, b, now) && count >= cfg.limits.threshold
    then Adopted(cfg.limits, local, OPEN, count, now)
    else local
  }

  /** What `sync` makes of one deployment, having read its OPEN and FAILS keys as in `view`. */
  function SyncedBreaker(cfg: Config, view: Keys, k: Keys, b: Breaker, now: real): Breaker {
    var o := Observed(cfg.limits, b, now);
    if view.open.Some? then Adopted(cfg.limits, o, OPEN, cfg.limits.threshold, now)
    else if o.state.OPEN? then
      if k.probe.None? then Adopted(cfg.limits, o, HALF_OPEN, 0, now) else o
    else if view.fails.Some? then Adopted(cfg.limits, o, o.state, view.fails.value.count, now)
    else o
  }

  function SyncedKeys(cfg: Config, view: Keys, k: Keys, b: Breaker, now: real): Keys {
    if view.open.None? && Observed(cfg.limits, b, now).state.OPEN? then ClaimProbe(cfg, k, now) else k
  }

  datatype Local = Local(breakers: map<string, Breaker>, store: map<string, Keys>)

  /** The loop of `sync`: every read came before the first deployment is dealt with. */
  function SyncedAll(cfg: Config, view: map<string, Keys>, names: seq<string>, s: Local, now: real): Local {
    if names == [] then s
    else
      var before := SyncedAll(cfg, view, Front(names), s, now);
      var n := Last(names);
      if n !in before.breakers then before
      else
        var seen, k, b := KeysOf(view, n, now), KeysOf(before.store, n, now), before.breakers[n];
        Local(before.breakers[n := SyncedBreaker(cfg, seen, k, b, now)],
              before.store[n := SyncedKeys(cfg, seen, k, b, now)])
  }

  class Redis {
    var store: map<string, Keys>

    constructor ()
      ensures store == map[]
    {
      store := map[];
    }
  }

  class ClusterBreakers {
    const cfg: Config
    const redis: Redis
    var syncedAt: Option<real>

    constructor (cfg: Config, redis: Redis)
      ensures this.cfg == cfg && this.redis == redis && syncedAt == None
    {
      this.cfg, this.redis, syncedAt := cfg, redis, None;
    }

    /** `record_failure`: all of the calls' Redis commands, in order. */
    method RecordFailure(name: string, breaker: CircuitBreaker, now: real) returns (isOpen: bool)
      requires breaker.limits == cfg.limits
      modifies redis, breaker
      ensures var k, b := KeysOf(old(redis.store), name, now), old(breaker.Value());
              && redis.store == old(redis.store)[name := FailureKeys(cfg, k, Trips(cfg.limits, b, now), now)]
              && breaker.Value() == FailureBreaker(cfg, k, b, now)
              && isOpen == (Trips(cfg.limits, b, now) || FailCount(k) + 1 >= cfg.limits.threshold)
    {
      var tripped := breaker.RecordFailure(now);
      var k := KeysOf(redis.store, name, now);
      if tripped {
        redis.store := redis.store[name := Opened(cfg, k, now)];
        return true;
      }
      k := ExpireFails(cfg, Incr(k), now);
      var count := FailCount(k);
      if count >= cfg.limits.threshold {
        redis.store := redis.store[name := Opened(cfg, k, now)];
        breaker.Adopt(OPEN, count, now);
        return true;
      }
      redis.store := redis.store[name := k];
      return false;
    }

    method RecordSuccess(name: string, breaker: CircuitBreaker)
      modifies redis, breaker
      ensures redis.store == old(redis.store)[name := NO_KEYS]
      ensures breaker.Value() == Succeeded(old(breaker.Value()))
    {
      breaker.RecordSuccess();
      redis.store := redis.store[name := NO_KEYS];
    }

    ghost function Values(breakers: map<string, CircuitBreaker>): map<string, Breaker>
      reads breakers.Values
    {
      map n | n in breakers :: breakers[n].Value()
    }

    ghost predicate Distinct(breakers: map<string, CircuitBreaker>) {
      && (forall n <- breakers :: breakers[n].limits == cfg.limits)
      && (forall m <- breakers, n <- breakers :: m != n ==> breakers[m] != breakers[n])
    }

    /** The body of `sync`'s loop, for a deployment this replica has a breaker for. */
    method SyncOne(ghost view: map<string, Keys>, openFlag: bool, fails: Option<nat>, name: string,
                   breaker: CircuitBreaker, now: real)
      requires cfg.Valid() && breaker.limits == cfg.limits
      requires openFlag == KeysOf(view, name, now).open.Some? && fails == FailsRead(KeysOf(view, name, now))
      modifies redis, breaker
      ensures var seen, k, b := KeysOf(view, name, now), KeysOf(old(redis.store), name, now), old(breaker.Value());
              && breaker.Value() == SyncedBreaker(cfg, seen, k, b, now)
              && redis.store == old(redis.store)[name := SyncedKeys(cfg, seen, k, b, now)]
    {
      var k := KeysOf(redis.store, name, now);
      redis.store := redis.store[name := k];
      var state := breaker.State(now);
      if openFlag {
        breaker.Adopt(OPEN, cfg.limits.threshold, now);
      } else if state.OPEN? {
        redis.store := redis.store[name := ClaimProbe(cfg, k, now)];
        if k.probe.None? {
          breaker.Adopt(HALF_OPEN, 0, now);
        }
      } else if fails.Some? {
        breaker.Adopt(state, fails.value, now);
      }
    }

    /** `sync`: nothing within the refresh period of the last one, whichever names that one read;
        otherwise one read of every name, then the loop. */
    method Sync(breakers: map<string, CircuitBreaker>, names: seq<string>, now: real)
      requires cfg.Valid() && Distinct(breakers)
      modifies this, redis, breakers.Values
      ensures old(syncedAt).Some? && now - old(syncedAt).value < cfg.refresh ==>
                && syncedAt == old(syncedAt) && redis.store == old(redis.store)
                && Values(breakers) == old(Values(breakers))
      ensures !(old(syncedAt).Some? && now - old(syncedAt).value < cfg.refresh) ==>
                && syncedAt == Some(now)
                && Local(Values(breakers), redis.store)
                   == SyncedAll(cfg, old(redis.store), names, Local(old(Values(breakers)), old(redis.store)), now)
    {
      if syncedAt.Some? && now - syncedAt.value < cfg.refresh {
        return;
      }
      syncedAt := Some(now);
      var view := redis.store;
      ghost var start := Local(Values(breakers), redis.store);
      var i := 0;
      while i < |names|
        invariant 0 <= i <= |names| && syncedAt == Some(now)
        invariant Local(Values(breakers), redis.store) == SyncedAll(cfg, view, names[..i], start, now)
      {
        var n := names[i];
        assert Front(names[..i + 1]) == names[..i] && Last(names[..i + 1]) == n;
        if n in breakers {
          ghost var before := Values(breakers);
          var seen := KeysOf(view, n, now);
          SyncOne(view, seen.open.Some?, FailsRead(seen), n, breakers[n], now);
          assert Values(breakers) == before[n := breakers[n].Value()];
        }
        i := i + 1;
      }
      assert names[..i] == names;
    }
  }

  // ------------------------------------------------------------------ what a history of failures leaves

  /** Redis takes whole seconds, at least one of them. */
  predicate WholeSeconds(x: real, n: int) {
    && n >= 1
    && (if x < 1.0 then n == 1 else n as real <= x < n as real + 1.0)
  }

  lemma AtLeastOneIs(x: real, n: int)
    requires WholeSeconds(x, n)
    ensures AtLeastOne(x) == n
  {
  }

  /** The keys after failures at these times that trip no replica's own breaker. */
  function AfterFailures(cfg: Config, times: seq<real>): Keys {
    if times == [] then NO_KEYS
    else FailureKeys(cfg, Live(AfterFailures(cfg, Front(times)), Last(times)), false, Last(times))
  }

  /** The longest run of failures at the end in which each came less than `ttl` seconds after the one before. */
  function EndingRun(times: seq<real>, ttl: int): (n: nat)
    ensures n <= |times| && (times != [] ==> n > 0)
    ensures forall i :: |times| - n < i < |times| ==> times[i] - times[i - 1] < ttl as real
    ensures 0 < n < |times| ==> times[|times| - n] - times[|times| - n - 1] >= ttl as real
  {
    if times == [] then 0
    else if |times| > 1 && times[|times| - 1] - times[|times| - 2] < ttl as real then 1 + EndingRun(Front(times), ttl)
    else 1
  }

  /** No run reached the threshold before the last failure. */
  ghost predicate NoBurstYet(cfg: Config, times: seq<real>, ttl: int) {
    forall m :: 0 <= m < |times| ==> EndingRun(times[..m], ttl) < cfg.limits.threshold
  }

  lemma OneMoreInTheRun(times: seq<real>, at: real, ttl: int)
    ensures EndingRun(times + [at], ttl)
            == if times != [] && at - Last(times) < ttl as real then 1 + EndingRun(times, ttl) else 1
  {
    assert Front(times + [at]) == times;
  }

  lemma NoBurstBefore(cfg: Config, times: seq<real>, at: real, ttl: int)
    requires NoBurstYet(cfg, times + [at], ttl)
    ensures NoBurstYet(cfg, times, ttl) && EndingRun(times, ttl) < cfg.limits.threshold
  {
    hide EndingRun;
    var all := times + [at];
    assert all[..|times|] == times;
    forall m | 0 <= m < |times|
      ensures EndingRun(times[..m], ttl) < cfg.limits.threshold
    {
      assert times[..m] == all[..m];
    }
  }

  /** The keys while the count of the ending run, `n`, is under the threshold. */
  function Counting(times: seq<real>, n: nat, window: int): Keys {
    if times == [] then NO_KEYS else Keys(Some(Counter(n, Some(Last(times) + window as real))), None, None)
  }

  /** What one more failure makes of them. */
  lemma CountingGoesOn(cfg: Config, times: seq<real>, n: nat, at: real, window: int, cooldown: int)
    requires cfg.Valid() && WholeSeconds(cfg.window, window) && WholeSeconds(cfg.limits.cooldown, cooldown)
    ensures var n' := if times != [] && at - Last(times) < window as real then 1 + n else 1;
            && FailCount(Live(Counting(times, n, window), at)) + 1 == n'
            && FailureKeys(cfg, Live(Counting(times, n, window), at), false, at)
               == if n' < cfg.limits.threshold then Counting(times + [at], n', window)
                  else Keys(None, Some(at + cooldown as real), None)
  {
    AtLeastOneIs(cfg.window, window);
    AtLeastOneIs(cfg.limits.cooldown, cooldown);
  }

  /** What Redis holds after them. */
  function StoreAfter(cfg: Config, name: string, times: seq<real>): map<string, Keys> {
    if times == [] then map[]
    else
      var before, at := StoreAfter(cfg, name, Front(times)), Last(times);
      before[name := FailureKeys(cfg, KeysOf(before, name, at), false, at)]
  }

  lemma {:induction false} StoreShows(cfg: Config, name: string, times: seq<real>, now: real)
    ensures KeysOf(StoreAfter(cfg, name, times), name, now) == Live(AfterFailures(cfg, times), now)
  {
    hide FailureKeys;
    if times != [] {
      StoreShows(cfg, name, Front(times), Last(times));
    }
  }

  /** How long a pooled failure counts. FAILS shows the ending run, and nothing once its window has passed
      since the last failure; the failure that brings the run to the threshold clears it and opens the circuit
      for the whole seconds of the cooldown. */
  lemma FailsShowsTheEndingRun(cfg: Config, name: string, times: seq<real>, window: int, cooldown: int, now: real)
    requires cfg.Valid() && WholeSeconds(cfg.window, window) && WholeSeconds(cfg.limits.cooldown, cooldown)
    requires NoBurstYet(cfg, times, window)
    ensures var keys, n := KeysOf(StoreAfter(cfg, name, times), name, now), EndingRun(times, window);
            && keys.probe.None?
            && if n < cfg.limits.threshold then
                 && keys.open.None?
                 && FailCount(keys) == if times == [] || now - Last(times) >= window as real then 0 else n
               else
                 keys.fails.None? && (keys.open.Some? <==> now - Last(times) < cooldown as real)
  {
    hide EndingRun, NoBurstYet, AfterFailures, StoreAfter, KeysOf;
    StoreShows(cfg, name, times, now);
    KeysCountTheRun(cfg, times, window, cooldown);
  }

  lemma {:induction false} KeysCountTheRun(cfg: Config, times: seq<real>, window: int, cooldown: int)
    requires cfg.Valid() && WholeSeconds(cfg.window, window) && WholeSeconds(cfg.limits.cooldown, cooldown)
    requires NoBurstYet(cfg, times, window)
    ensures times == [] ==> EndingRun(times, window) < cfg.limits.threshold
    ensures AfterFailures(cfg, times)
            == if EndingRun(times, window) < cfg.limits.threshold
               then Counting(times, EndingRun(times, window), window)
               else Keys(None, Some(Last(times) + cooldown as real), None)
  {
    hide EndingRun, NoBurstYet, FailureKeys, Live, Counting, WholeSeconds;
    if times == [] {
      assert EndingRun([], window) == 0;
      NothingCounted(window);
    } else {
      var front, at := Front(times), Last(times);
      assert times == front + [at];
      NoBurstBefore(cfg, front, at, window);
      KeysCountTheRun(cfg, front, window, cooldown);
      CountingGoesOn(cfg, front, EndingRun(front, window), at, window, cooldown);
      OneMoreInTheRun(front, at, window);
    }
  }

  lemma NothingCounted(window: int)
    ensures Counting([], 0, window) == NO_KEYS
  {
  }

  /** So a failure that opens no circuit by itself opens it for all exactly if it is the one that brings the
      run of failures across the replicas to the threshold. */
  lemma PooledFailureOpensExactly(cfg: Config, name: string, times: seq<real>, at: real, b: Breaker, window: int)
    requires cfg.Valid() && WholeSeconds(cfg.window, window) && !Trips(cfg.limits, b, at)
    requires NoBurstYet(cfg, times + [at], window)
    ensures var k, n := KeysOf(StoreAfter(cfg, name, times), name, at), EndingRun(times + [at], window);
            && (FailureKeys(cfg, k, false, at).open.Some? <==> n >= cfg.limits.threshold)
            && FailureBreaker(cfg, k, b, at)
               == if n < cfg.limits.threshold then Failed(cfg.limits, b, at) else Breaker(OPEN, n, at, false)
  {
    hide EndingRun, NoBurstYet, AfterFailures, FailureKeys, Live, Counting, Trips, StoreAfter, KeysOf;
    StoreShows(cfg, name, times, at);
    OpenTtlIsWhole(cfg);
    NoBurstBefore(cfg, times, at, window);
    KeysCountTheRun(cfg, times, window, cfg.OpenTtl());
    CountingGoesOn(cfg, times, EndingRun(times, window), at, window, cfg.OpenTtl());
    OneMoreInTheRun(times, at, window);
    NoneOpenWhileCounting(times + [at], EndingRun(times + [at], window), window);
  }

  lemma OpenTtlIsWhole(cfg: Config)
    ensures WholeSeconds(cfg.limits.cooldown, cfg.OpenTtl())
  {
  }

  lemma NoneOpenWhileCounting(times: seq<real>, n: nat, window: int)
    ensures Counting(times, n, window).open.None?
  {
  }

  /** A replica that has synced counts on from what all replicas counted: its next failure opens the circuit
      exactly if with it they have seen `threshold`. */
  lemma SyncedCountsOn(cfg: Config, k: Keys, b: Breaker, now: real, later: real)
    requires b.state.CLOSED? && k.open.None? && k.fails.Some?
    ensures var b' := SyncedBreaker(cfg, k, k, b, now);
            && b'.state.CLOSED? && SyncedKeys(cfg, k, k, b, now) == k
            && (Trips(cfg.limits, b', later) <==> k.fails.value.count + 1 >= cfg.limits.threshold)
  {
  }

  ghost predicate NoRepeats(names: seq<string>) {
    forall i, j :: 0 <= i < j < |names| ==> names[i] != names[j]
  }

  /** One refresh deals with each deployment it names on its own: what it makes of one depends on that one's
      keys and breaker alone, and what it does not name, or has no breaker for, stays as it is. */
  lemma {:induction false} SyncTreatsEachAlone(cfg: Config, names: seq<string>, s: Local, now: real, n: string)
    requires NoRepeats(names)
    ensures var s', k := SyncedAll(cfg, s.store, names, s, now), KeysOf(s.store, n, now);
            && s'.breakers.Keys == s.breakers.Keys
            && (n in s.breakers && n in names ==>
                  && s'.breakers[n] == SyncedBreaker(cfg, k, k, s.breakers[n], now)
                  && n in s'.store && s'.store[n] == SyncedKeys(cfg, k, k, s.breakers[n], now))
            && (n !in names || n !in s.breakers ==>
                  && (n in s.breakers ==> s'.breakers[n] == s.breakers[n])
                  && (n in s'.store <==> n in s.store) && (n in s.store ==> s'.store[n] == s.store[n]))
  {
    hide SyncedBreaker, SyncedKeys, Live;
    if names != [] {
      var front, last := Front(names), Last(names);
      assert names == front + [last] && last !in front;
      SyncTreatsEachAlone(cfg, front, s, now, n);
      SyncTreatsEachAlone(cfg, front, s, now, last);
    }
  }
}

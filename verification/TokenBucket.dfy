/** The rate limiter of app/core/rate_limit.py: one Lua script over an expiring Redis hash.

    Tokens and times are reals. The script's `now` is the caller's clock; a key expires by Redis's own. */
module TokenBucket {
  import opened Wrappers

  /** The hash `ratelimit:<key>`: its two fields and when, by Redis's clock, its TTL runs out. */
  datatype Bucket = Bucket(tokens: real, ts: real, expiresAt: real)

  datatype Config = Config(capacity: int, rate: real) {
    predicate Valid() {
      capacity >= 0 && rate > 0.0
    }
  }

  datatype Decision = Decision(allowed: bool, remaining: int, retryAfterSeconds: int, limit: int)

  /** A hit at `at` by its caller's clock, `server` by Redis's. */
  datatype Hit = Hit(at: real, server: real, cost: int)

  function Min(a: real, b: real): real {
    if a <= b then a else b
  }

  function Max(a: real, b: real): real {
    if a >= b then a else b
  }

  function Ceil(x: real): (c: int)
    ensures x <= c as real < x + 1.0
  {
    -((-x).Floor)
  }

  /** The TTL the script sets. */
  function Ttl(cfg: Config): real
    requires cfg.rate > 0.0
  {
    (Ceil(cfg.capacity as real / cfg.rate) + 60) as real
  }

  /** What Redis answers at its time `server`: an expired key is a missing key. */
  function Live(stored: Option<Bucket>, server: real): Option<Bucket> {
    if stored.Some? && server < stored.value.expiresAt then stored else None
  }

  /** Tokens on hand at `now`, refill included, before anything is taken. */
  function Level(cfg: Config, stored: Option<Bucket>, now: real): real {
    match stored
    case None => cfg.capacity as real
    case Some(b) => Min(cfg.capacity as real, b.tokens + cfg.rate * Max(0.0, now - b.ts))
  }

  /** What the script leaves in the hash. */
  function Stored(cfg: Config, level: real, now: real, server: real, cost: int): (b: Bucket)
    requires cfg.rate > 0.0
    ensures b.ts == now && b.expiresAt == server + Ttl(cfg)
    ensures level < cost as real ==> b.tokens == level
  {
    Bucket(if level >= cost as real then level - cost as real else level, now, server + Ttl(cfg))
  }

  class TokenBucketLimiter {
    var buckets: map<string, Bucket>

    constructor ()
      ensures buckets == map[]
    {
      buckets := map[];
    }

    function Get(key: string): Option<Bucket>
      reads this
    {
      if key in buckets then Some(buckets[key]) else None
    }

    /** `TokenBucketLimiter.hit`, with the script run in place. No other key's bucket is touched. */
    method Hit(key: string, cfg: Config, now: real, server: real, cost: int) returns (d: Decision)
      requires cfg.Valid()
      modifies this
      ensures var level := Level(cfg, Live(old(Get(key)), server), now);
              && buckets == old(buckets)[key := Stored(cfg, level, now, server, cost)]
              && d.allowed == (level >= cost as real)
              && d.remaining == buckets[key].tokens.Floor
              && d.retryAfterSeconds == (if d.allowed then 0 else Ceil((cost as real - level) / cfg.rate))
              && d.limit == cfg.capacity
    {
      var state := Live(Get(key), server);
      var tokens, ts := cfg.capacity as real, now;
      if state.Some? {
        tokens, ts := state.value.tokens, state.value.ts;
      }
      tokens := Min(cfg.capacity as real, tokens + cfg.rate * Max(0.0, now - ts));
      assert tokens == Level(cfg, state, now);
      var allowed, retryAfter := false, 0.0;
      if tokens >= cost as real {
        tokens := tokens - cost as real;
        allowed := true;
      } else {
        retryAfter := (cost as real - tokens) / cfg.rate;
      }
      buckets := buckets[key := Bucket(tokens, now, server + Ttl(cfg))];
      d := Decision(allowed, tokens.Floor, Ceil(retryAfter), cfg.capacity);
    }
  }

  // ------------------------------------------------------------------ whole runs on one key

  /** The caller's clock and Redis's agree this much: when Redis lets a key expire between the two hits, the
      caller's clock went forward long enough to fill the bucket. */
  predicate Agree(cfg: Config, a: Hit, b: Hit)
    requires cfg.rate > 0.0
  {
    b.server - a.server >= Ttl(cfg) ==> Max(0.0, b.at - a.at) >= cfg.capacity as real / cfg.rate
  }

  /** The 60 spare seconds of the TTL are what Redis's clock may run ahead between two hits. */
  lemma SpareSecondsCoverSkew(cfg: Config, a: Hit, b: Hit)
    requires cfg.Valid() && (b.server - a.server) - Max(0.0, b.at - a.at) <= 60.0
    ensures Agree(cfg, a, b)
  {
    hide Max;
    if b.server - a.server >= Ttl(cfg) {
      assert Max(0.0, b.at - a.at) >= Ttl(cfg) - 60.0 >= cfg.capacity as real / cfg.rate;
    }
  }

  /** A run: no cost is negative, and the clocks agree from hit to hit. The readings may be anything else,
      those of one clock in particular. */
  ghost predicate Run(cfg: Config, hits: seq<Hit>) {
    && cfg.Valid() && (forall i :: 0 <= i < |hits| ==> hits[i].cost >= 0)
    && (forall i, j :: 0 <= i && j == i + 1 < |hits| ==> Agree(cfg, hits[i], hits[j]))
  }

  /** One clock, however it steps, agrees with itself. */
  lemma OneClockAgrees(cfg: Config, hits: seq<Hit>)
    requires cfg.Valid() && forall i :: 0 <= i < |hits| ==> hits[i].cost >= 0 && hits[i].server == hits[i].at
    ensures Run(cfg, hits)
  {
    forall i, j | 0 <= i && j == i + 1 < |hits|
      ensures Agree(cfg, hits[i], hits[j])
    {
      SpareSecondsCoverSkew(cfg, hits[i], hits[j]);
    }
  }

  /** The clock does not go back. */
  ghost predicate Forward(hits: seq<Hit>) {
    forall i, j :: 0 <= i <= j < |hits| ==> hits[i].at <= hits[j].at
  }

  /** The key after the first `n` hits, starting from no key at all, which is a full bucket. */
  function After(cfg: Config, hits: seq<Hit>, n: nat): Option<Bucket>
    requires cfg.Valid() && n <= |hits|
    decreases n, 0
  {
    if n == 0 then None
    else Some(Stored(cfg, LevelAt(cfg, hits, n - 1), hits[n - 1].at, hits[n - 1].server, hits[n - 1].cost))
  }

  function LevelAt(cfg: Config, hits: seq<Hit>, n: nat): real
    requires cfg.Valid() && n < |hits|
    decreases n, 1
  {
    Level(cfg, Live(After(cfg, hits, n), hits[n].server), hits[n].at)
  }

  predicate Admitted(cfg: Config, hits: seq<Hit>, n: nat)
    requires cfg.Valid() && n < |hits|
  {
    LevelAt(cfg, hits, n) >= hits[n].cost as real
  }

  /** Cost admitted over hits `i .. n-1`. */
  function Spent(cfg: Config, hits: seq<Hit>, i: nat, n: nat): int
    requires cfg.Valid() && i <= n <= |hits|
    decreases n
  {
    if i == n then 0
    else Spent(cfg, hits, i, n - 1) + (if Admitted(cfg, hits, n - 1) then hits[n - 1].cost else 0)
  }

  /** How far the clock went forward between hits `i` and `n`, steps back not counted. */
  function Elapsed(hits: seq<Hit>, i: nat, n: nat): real
    requires i <= n < |hits|
    decreases n
  {
    if i == n then 0.0 else Elapsed(hits, i, n - 1) + Max(0.0, hits[n].at - hits[n - 1].at)
  }

  /** What the rate produced between the first hit and hit `n`. */
  function Earned(cfg: Config, hits: seq<Hit>, n: nat): real
    requires cfg.Valid() && n < |hits|
  {
    if n == 0 then 0.0 else Earned(cfg, hits, n - 1) + cfg.rate * Max(0.0, hits[n].at - hits[n - 1].at)
  }

  lemma {:induction false} EarnedIsRateTimesElapsed(cfg: Config, hits: seq<Hit>, i: nat, n: nat)
    requires cfg.Valid() && i <= n < |hits|
    ensures Earned(cfg, hits, n) == Earned(cfg, hits, i) + cfg.rate * Elapsed(hits, i, n)
  {
    if i < n {
      EarnedIsRateTimesElapsed(cfg, hits, i, n - 1);
      RateDistributes(cfg.rate, Elapsed(hits, i, n - 1), Max(0.0, hits[n].at - hits[n - 1].at));
    }
  }

  /** With a clock that does not go back the time that went forward is the window's length. */
  lemma {:induction false} ElapsedIsLength(hits: seq<Hit>, i: nat, n: nat)
    requires Forward(hits) && i <= n < |hits|
    ensures Elapsed(hits, i, n) == hits[n].at - hits[i].at
  {
    if i < n {
      ElapsedIsLength(hits, i, n - 1);
    }
  }

  lemma RateDistributes(rate: real, a: real, b: real)
    ensures rate * a + rate * b == rate * (a + b)
  {
  }

  /** What a window that opened full at hit `i` would still hold at hit `n`. */
  function Room(cfg: Config, hits: seq<Hit>, i: nat, n: nat): real
    requires cfg.Valid() && i <= n < |hits|
  {
    cfg.capacity as real + Earned(cfg, hits, n) - Earned(cfg, hits, i) - Spent(cfg, hits, i, n) as real
  }

  /** What every bucket the script wrote satisfies. */
  ghost predicate WellStored(cfg: Config, b: Bucket)
    requires cfg.Valid()
  {
    0.0 <= b.tokens <= cfg.capacity as real
  }

  lemma StoredIsWellStored(cfg: Config, stored: Option<Bucket>, now: real, server: real, cost: int)
    requires cfg.Valid() && cost >= 0
    requires stored.Some? ==> WellStored(cfg, stored.value)
    ensures WellStored(cfg, Stored(cfg, Level(cfg, stored, now), now, server, cost))
  {
    if stored.Some? {
      assert cfg.rate * Max(0.0, now - stored.value.ts) >= 0.0;
    }
  }

  /** If the bucket has expired by Redis's clock it has been filled by the caller's. */
  predicate Covered(cfg: Config, b: Bucket, now: real, server: real)
    requires cfg.rate > 0.0
  {
    server >= b.expiresAt ==> Max(0.0, now - b.ts) >= cfg.capacity as real / cfg.rate
  }

  /** Deleting the key after its TTL changes no decision exactly when it has not run out or the bucket had
      refilled anyway, as it has while the two clocks agree. */
  lemma ExpiryIsInvisible(cfg: Config, b: Bucket, now: real, server: real)
    requires cfg.Valid() && WellStored(cfg, b)
    ensures Level(cfg, Live(Some(b), server), now) == Level(cfg, Some(b), now)
            <==> server < b.expiresAt || Level(cfg, Some(b), now) == cfg.capacity as real
    ensures Covered(cfg, b, now, server) ==> Level(cfg, Live(Some(b), server), now) == Level(cfg, Some(b), now)
  {
    if server >= b.expiresAt && Covered(cfg, b, now, server) {
      FullAfter(cfg.capacity as real, cfg.rate, Max(0.0, now - b.ts));
    }
  }

  lemma FullAfter(cap: real, rate: real, gone: real)
    requires rate > 0.0 && gone >= cap / rate
    ensures rate * gone >= cap
  {
    var full := cap / rate;
    assert rate * full == cap;
    MulMonotone(full, gone, rate);
  }

  lemma MulMonotone(a: real, b: real, r: real)
    requires a <= b && r >= 0.0
    ensures r * a <= r * b
  {
    assert r * (b - a) >= 0.0;
  }

  lemma {:induction false} AfterIsWellStored(cfg: Config, hits: seq<Hit>, n: nat)
    requires Run(cfg, hits) && 0 < n <= |hits|
    ensures WellStored(cfg, After(cfg, hits, n).value)
  {
    if n > 1 {
      AfterIsWellStored(cfg, hits, n - 1);
    }
    StoredIsWellStored(cfg, Live(After(cfg, hits, n - 1), hits[n - 1].server), hits[n - 1].at, hits[n - 1].server,
                       hits[n - 1].cost);
  }

  lemma LevelOfStored(cfg: Config, b: Bucket, now: real, server: real)
    requires cfg.Valid() && WellStored(cfg, b) && Covered(cfg, b, now, server)
    ensures Level(cfg, Live(Some(b), server), now)
            == Min(cfg.capacity as real, b.tokens + cfg.rate * Max(0.0, now - b.ts))
  {
    ExpiryIsInvisible(cfg, b, now, server);
  }

  /** What hit `n` left of the level it found. */
  function Left(cfg: Config, hits: seq<Hit>, n: nat): real
    requires cfg.Valid() && n < |hits|
  {
    LevelAt(cfg, hits, n) - (if Admitted(cfg, hits, n) then hits[n].cost else 0) as real
  }

  lemma AfterHoldsWhatIsLeft(cfg: Config, hits: seq<Hit>, n: nat)
    requires cfg.Valid() && 0 < n <= |hits|
    ensures After(cfg, hits, n).Some?
    ensures After(cfg, hits, n).value.tokens == Left(cfg, hits, n - 1)
    ensures After(cfg, hits, n).value.ts == hits[n - 1].at
    ensures After(cfg, hits, n).value.expiresAt == hits[n - 1].server + Ttl(cfg)
  {
  }

  /** One step of the level: refill what the last hit left, up to the capacity. */
  lemma LevelStep(cfg: Config, hits: seq<Hit>, n: nat)
    requires Run(cfg, hits) && 0 < n < |hits|
    ensures LevelAt(cfg, hits, n)
         == Min(cfg.capacity as real,
                Left(cfg, hits, n - 1) + Earned(cfg, hits, n) - Earned(cfg, hits, n - 1))
  {
    hide Stored, Level, Live, Left;
    AfterHoldsWhatIsLeft(cfg, hits, n);
    AfterIsWellStored(cfg, hits, n);
    assert Agree(cfg, hits[n - 1], hits[n]);
    LevelOfStored(cfg, After(cfg, hits, n).value, hits[n].at, hits[n].server);
  }

  lemma LevelBounds(cfg: Config, hits: seq<Hit>, n: nat)
    requires Run(cfg, hits) && n < |hits|
    ensures 0.0 <= LevelAt(cfg, hits, n) <= cfg.capacity as real
  {
    if n > 0 {
      AfterIsWellStored(cfg, hits, n);
      var b := After(cfg, hits, n).value;
      assert cfg.rate * Max(0.0, hits[n].at - b.ts) >= 0.0;
    }
  }

  /** The level is exactly the tightest of all the windows that end here. */
  lemma {:induction false} LevelIsTightestWindow(cfg: Config, hits: seq<Hit>, n: nat) returns (w: nat)
    requires Run(cfg, hits) && n < |hits|
    ensures w <= n && LevelAt(cfg, hits, n) == Room(cfg, hits, w, n)
    ensures forall i :: 0 <= i <= n ==> LevelAt(cfg, hits, n) <= Room(cfg, hits, i, n)
  {
    w := n;
    if n > 0 {
      var v := LevelIsTightestWindow(cfg, hits, n - 1);
      LevelStep(cfg, hits, n);
      forall i | 0 <= i < n
        ensures LevelAt(cfg, hits, n) <= Room(cfg, hits, i, n)
      {
        assert LevelAt(cfg, hits, n - 1) <= Room(cfg, hits, i, n - 1);
      }
      if LevelAt(cfg, hits, n) != cfg.capacity as real {
        w := v;
      }
    }
  }

  /** The hit at `n` would fit into what the window from hit `i` may spend: C + r * the time that went
      forward in it. */
  ghost predicate FitsWindow(cfg: Config, hits: seq<Hit>, i: nat, n: nat)
    requires cfg.Valid() && i <= n < |hits|
  {
    Spent(cfg, hits, i, n) as real + hits[n].cost as real <= cfg.capacity as real + cfg.rate * Elapsed(hits, i, n)
  }

  /** The exact meaning of the bucket, for every clock: a hit is admitted if and only if no window ending
      at it would spend more than the capacity plus what refilled inside the window. */
  lemma AdmittedIffEveryWindowFits(cfg: Config, hits: seq<Hit>, n: nat)
    requires Run(cfg, hits) && n < |hits|
    ensures Admitted(cfg, hits, n) <==> forall i :: 0 <= i <= n ==> FitsWindow(cfg, hits, i, n)
  {
    var w := LevelIsTightestWindow(cfg, hits, n);
    FitsWindowIsRoom(cfg, hits, w, n);
    forall i | 0 <= i <= n
      ensures FitsWindow(cfg, hits, i, n) <==> Room(cfg, hits, i, n) >= hits[n].cost as real
    {
      FitsWindowIsRoom(cfg, hits, i, n);
    }
  }

  lemma FitsWindowIsRoom(cfg: Config, hits: seq<Hit>, i: nat, n: nat)
    requires cfg.Valid() && i <= n < |hits|
    ensures FitsWindow(cfg, hits, i, n) <==> Room(cfg, hits, i, n) >= hits[n].cost as real
  {
    hide Spent, Elapsed, Earned;
    EarnedIsRateTimesElapsed(cfg, hits, i, n);
  }

  /** No window ever admits more than C + r * the time that went forward in it. */
  lemma NoWindowOverspends(cfg: Config, hits: seq<Hit>, i: nat, n: nat)
    requires Run(cfg, hits) && i <= n < |hits|
    ensures Spent(cfg, hits, i, n + 1) as real <= cfg.capacity as real + cfg.rate * Elapsed(hits, i, n)
  {
    var w := LevelIsTightestWindow(cfg, hits, n);
    LevelBounds(cfg, hits, n);
    EarnedIsRateTimesElapsed(cfg, hits, i, n);
    assert Room(cfg, hits, i, n) >= LevelAt(cfg, hits, n);
    assert Spent(cfg, hits, i, n + 1)
        == Spent(cfg, hits, i, n) + (if Admitted(cfg, hits, n) then hits[n].cost else 0);
  }

  // ------------------------------------------------------------------ clocks that go back

  /** The window admits no more than C + r * what the clock says its length is. */
  ghost predicate WithinClock(cfg: Config, hits: seq<Hit>, i: nat, n: nat)
    requires cfg.Valid() && i <= n < |hits|
  {
    Spent(cfg, hits, i, n + 1) as real <= cfg.capacity as real + cfg.rate * (hits[n].at - hits[i].at)
  }

  ghost predicate NeverOverspends(cfg: Config, hits: seq<Hit>)
    requires cfg.Valid()
  {
    forall i, n :: 0 <= i <= n < |hits| ==> WithinClock(cfg, hits, i, n)
  }

  function HitsAt(times: seq<real>, costs: seq<nat>): (hits: seq<Hit>)
    requires |times| == |costs|
    ensures |hits| == |times| && forall k :: 0 <= k < |hits| ==> hits[k] == Hit(times[k], times[k], costs[k])
  {
    seq(|times|, k requires 0 <= k < |times| && |times| == |costs| => Hit(times[k], times[k], costs[k]))
  }

  ghost predicate NoCostsOverspend(cfg: Config, times: seq<real>)
    requires cfg.Valid()
  {
    forall costs: seq<nat> | |costs| == |times| :: NeverOverspends(cfg, HitsAt(times, costs))
  }

  ghost predicate Nondecreasing(times: seq<real>) {
    forall i, j :: 0 <= i <= j < |times| ==> times[i] <= times[j]
  }

  lemma ForwardNeverOverspends(cfg: Config, hits: seq<Hit>)
    requires Run(cfg, hits) && Forward(hits)
    ensures NeverOverspends(cfg, hits)
  {
    hide WithinClock;
    forall i, n | 0 <= i <= n < |hits|
      ensures WithinClock(cfg, hits, i, n)
    {
      ForwardWithinClock(cfg, hits, i, n);
    }
  }

  lemma ForwardWithinClock(cfg: Config, hits: seq<Hit>, i: nat, n: nat)
    requires Run(cfg, hits) && Forward(hits) && i <= n < |hits|
    ensures WithinClock(cfg, hits, i, n)
  {
    hide Spent, Elapsed, Run, Forward;
    NoWindowOverspends(cfg, hits, i, n);
    ElapsedIsLength(hits, i, n);
  }

  /** Nothing, then the whole capacity at hit `i`, then nothing. */
  function AllAt(cfg: Config, len: nat, i: nat): (costs: seq<nat>)
    requires cfg.Valid() && i < len
    ensures |costs| == len && forall k :: 0 <= k < len ==> costs[k] == if k == i then cfg.capacity else 0
  {
    seq(len, k requires 0 <= k < len && cfg.Valid() => if k == i then cfg.capacity else 0)
  }

  lemma {:induction false} NothingSpent(cfg: Config, hits: seq<Hit>, i: nat, n: nat)
    requires Run(cfg, hits) && i <= n <= |hits| && forall k :: i <= k < n ==> hits[k].cost == 0
    ensures Spent(cfg, hits, i, n) == 0
  {
    if i < n {
      NothingSpent(cfg, hits, i, n - 1);
    }
  }

  lemma {:induction false} EarnedIsMore(cfg: Config, hits: seq<Hit>, i: nat, n: nat)
    requires Run(cfg, hits) && i <= n < |hits|
    ensures Earned(cfg, hits, i) <= Earned(cfg, hits, n)
  {
    if i < n {
      EarnedIsMore(cfg, hits, i, n - 1);
      EarnedGrows(cfg, hits, n);
    }
  }

  /** A bucket nobody has taken from is full, so it admits the whole capacity. */
  lemma FullUntilFirst(cfg: Config, hits: seq<Hit>, i: nat)
    requires Run(cfg, hits) && i < |hits| && forall k :: 0 <= k < i ==> hits[k].cost == 0
    ensures LevelAt(cfg, hits, i) == cfg.capacity as real
  {
    var w := LevelIsTightestWindow(cfg, hits, i);
    NothingSpent(cfg, hits, w, i);
    EarnedIsMore(cfg, hits, w, i);
    LevelBounds(cfg, hits, i);
  }

  lemma {:induction false} SpentOnce(cfg: Config, hits: seq<Hit>, i: nat, n: nat)
    requires Run(cfg, hits) && i < n <= |hits| && hits[i].cost == cfg.capacity
    requires forall k :: 0 <= k < |hits| && k != i ==> hits[k].cost == 0
    ensures Spent(cfg, hits, i, n) == cfg.capacity
  {
    if n == i + 1 {
      FullUntilFirst(cfg, hits, i);
      assert Spent(cfg, hits, i, i) == 0;
    } else {
      SpentOnce(cfg, hits, i, n - 1);
    }
  }

  lemma BackwardOverspends(cfg: Config, times: seq<real>, i: nat, n: nat)
    requires cfg.Valid() && i < n < |times| && times[i] > times[n]
    ensures !NoCostsOverspend(cfg, times)
  {
    hide Run, Spent, WithinClock;
    var costs := AllAt(cfg, |times|, i);
    var hits := HitsAt(times, costs);
    OneClockAgrees(cfg, hits);
    SpentOnce(cfg, hits, i, n + 1);
    OneOverspends(cfg, hits, i, n);
    assert !NeverOverspends(cfg, hits);
  }

  lemma OneOverspends(cfg: Config, hits: seq<Hit>, i: nat, n: nat)
    requires cfg.Valid() && i <= n < |hits| && hits[i].at > hits[n].at && Spent(cfg, hits, i, n + 1) == cfg.capacity
    ensures !WithinClock(cfg, hits, i, n)
  {
    hide Spent;
    RefillNegative(cfg.rate, hits[n].at - hits[i].at);
  }

  /** By the clock's own account of how long a window is, no costs overspend any window if and only if
      the clock never goes back. */
  lemma NoCostsOverspendIffClockForward(cfg: Config, times: seq<real>)
    requires cfg.Valid()
    ensures NoCostsOverspend(cfg, times) <==> Nondecreasing(times)
  {
    if Nondecreasing(times) {
      hide NeverOverspends, Run;
      forall costs: seq<nat> | |costs| == |times|
        ensures NeverOverspends(cfg, HitsAt(times, costs))
      {
        OneClockAgrees(cfg, HitsAt(times, costs));
        ForwardNeverOverspends(cfg, HitsAt(times, costs));
      }
    } else {
      var i, n :| 0 <= i <= n < |times| && times[i] > times[n];
      BackwardOverspends(cfg, times, i, n);
    }
  }

  lemma RefillNegative(rate: real, length: real)
    requires rate > 0.0 && length < 0.0
    ensures rate * length < 0.0
  {
  }

  /** Line 40 stores `now` even when the clock moved back, so a clock that steps back and forward refills
      the same seconds twice: here a bucket of one admits two hits at one instant, five seconds having
      gone forward in between. */
  lemma ClockStepBackOverspends()
    ensures var cfg := Config(1, 1.0);
            var hits := [Hit(10.0, 10.0, 1), Hit(5.0, 5.0, 1), Hit(10.0, 10.0, 1)];
            && Admitted(cfg, hits, 0) && !Admitted(cfg, hits, 1) && Admitted(cfg, hits, 2)
            && Elapsed(hits, 0, 2) == 5.0 && !WithinClock(cfg, hits, 0, 2)
  {
    var cfg := Config(1, 1.0);
    var hits := [Hit(10.0, 10.0, 1), Hit(5.0, 5.0, 1), Hit(10.0, 10.0, 1)];
    assert After(cfg, hits, 0) == None;
    assert LevelAt(cfg, hits, 0) == 1.0;
    assert After(cfg, hits, 1).value.tokens == 0.0 && After(cfg, hits, 1).value.ts == 10.0;
    assert LevelAt(cfg, hits, 1) == 0.0;
    assert After(cfg, hits, 2).value.tokens == 0.0 && After(cfg, hits, 2).value.ts == 5.0;
    assert LevelAt(cfg, hits, 2) == 1.0;
    assert Spent(cfg, hits, 0, 1) == 1 && Spent(cfg, hits, 0, 2) == 1 && Spent(cfg, hits, 0, 3) == 2;
    assert Elapsed(hits, 0, 1) == 0.0;
  }

  // ------------------------------------------------------------------ denials and Retry-After

  /** Refilling in two goes, with the cap applied in between, is refilling once. */
  lemma RefillTwice(cap: real, tokens: real, first: real, second: real, both: real, rate: real)
    requires second >= 0.0 && both == first + second && rate > 0.0
    ensures Min(cap, Min(cap, tokens + rate * first) + rate * second) == Min(cap, tokens + rate * both)
  {
    assert rate * second >= 0.0;
    RateDistributes(rate, first, second);
  }

  /** What the key holds after a hit at `at` that was refused. */
  ghost predicate RefusedInto(cfg: Config, before: Bucket, at: real, server: real, cost: int, after: Bucket)
    requires cfg.Valid()
  {
    var level := Level(cfg, Live(Some(before), server), at);
    level < cost as real && after == Stored(cfg, level, at, server, cost)
  }

  lemma RefusedFields(cfg: Config, before: Bucket, at: real, server: real, cost: int, after: Bucket)
    requires cfg.Valid() && cost >= 0 && WellStored(cfg, before) && Covered(cfg, before, at, server)
    requires RefusedInto(cfg, before, at, server, cost, after)
    ensures WellStored(cfg, after) && after.ts == at
    ensures after.tokens == Refilled(cfg, before.tokens, Max(0.0, at - before.ts))
  {
    StoredIsWellStored(cfg, Live(Some(before), server), at, server, cost);
    LevelOfStored(cfg, before, at, server);
  }

  function Refilled(cfg: Config, tokens: real, gone: real): real {
    Min(cfg.capacity as real, tokens + cfg.rate * gone)
  }

  lemma RefilledIs(cfg: Config, b: Bucket, now: real, server: real)
    requires cfg.Valid() && WellStored(cfg, b) && Covered(cfg, b, now, server)
    ensures Level(cfg, Live(Some(b), server), now) == Refilled(cfg, b.tokens, Max(0.0, now - b.ts))
  {
    LevelOfStored(cfg, b, now, server);
  }

  lemma RefilledTwice(cfg: Config, tokens: real, first: real, second: real)
    requires cfg.Valid() && second >= 0.0
    ensures Refilled(cfg, Refilled(cfg, tokens, first), second) == Refilled(cfg, tokens, first + second)
  {
    RefillTwice(cfg.capacity as real, tokens, first, second, first + second, cfg.rate);
  }

  /** Refilling for longer gives more, unless the bucket is full already. */
  lemma LongerRefill(cfg: Config, tokens: real, shorter: real, longer: real)
    requires cfg.Valid() && shorter <= longer
    ensures Refilled(cfg, tokens, shorter) == Refilled(cfg, tokens, longer)
            <==> shorter == longer || Refilled(cfg, tokens, shorter) == cfg.capacity as real
  {
    if shorter < longer {
      assert cfg.rate * (longer - shorter) > 0.0;
      RateDistributes(cfg.rate, shorter, longer - shorter);
    }
  }

  lemma StepsAddUp(ts: real, at: real, later: real)
    ensures 0.0 <= Max(0.0, later - at)
    ensures Max(0.0, later - ts) <= Max(0.0, at - ts) + Max(0.0, later - at)
    ensures ts <= at <= later ==> Max(0.0, later - ts) == Max(0.0, at - ts) + Max(0.0, later - at)
  {
  }

  /** After a refused hit the bucket is as if the hit had never come exactly when the clock's steps to the
      hit and on from it add up to the step without it, or the bucket is full anyway. */
  lemma DenialIsInvisible(cfg: Config, before: Bucket, at: real, server: real, cost: int, after: Bucket,
                          later: real, serverLater: real)
    requires cfg.Valid() && cost >= 0 && WellStored(cfg, before)
    requires RefusedInto(cfg, before, at, server, cost, after)
    requires Covered(cfg, before, at, server) && Covered(cfg, before, later, serverLater)
    requires Covered(cfg, after, later, serverLater)
    ensures Level(cfg, Live(Some(after), serverLater), later) == Level(cfg, Live(Some(before), serverLater), later)
            <==> || Max(0.0, at - before.ts) + Max(0.0, later - at) == Max(0.0, later - before.ts)
                 || Level(cfg, Live(Some(before), serverLater), later) == cfg.capacity as real
    ensures before.ts <= at <= later ==>
              Level(cfg, Live(Some(after), serverLater), later) == Level(cfg, Live(Some(before), serverLater), later)
  {
    hide RefusedInto, Level, Live, Max, WellStored, Refilled, Covered;
    RefusedFields(cfg, before, at, server, cost, after);
    RefilledIs(cfg, before, later, serverLater);
    RefilledIs(cfg, after, later, serverLater);
    var first, second := Max(0.0, at - before.ts), Max(0.0, later - at);
    StepsAddUp(before.ts, at, later);
    RefilledTwice(cfg, before.tokens, first, second);
    LongerRefill(cfg, before.tokens, Max(0.0, later - before.ts), first + second);
  }

  lemma EarnedGrows(cfg: Config, hits: seq<Hit>, m: nat)
    requires Run(cfg, hits) && 0 < m < |hits|
    ensures Earned(cfg, hits, m - 1) <= Earned(cfg, hits, m)
  {
    MulMonotone(0.0, Max(0.0, hits[m].at - hits[m - 1].at), cfg.rate);
  }

  /** While nothing is admitted the level only refills, whatever was refused meanwhile. */
  lemma {:induction false} LevelAfterDenials(cfg: Config, hits: seq<Hit>, n: nat, m: nat)
    requires Run(cfg, hits) && n <= m < |hits|
    requires forall k :: n <= k < m ==> !Admitted(cfg, hits, k)
    ensures LevelAt(cfg, hits, m)
         == Min(cfg.capacity as real, LevelAt(cfg, hits, n) + Earned(cfg, hits, m) - Earned(cfg, hits, n))
  {
    if n < m {
      LevelAfterDenials(cfg, hits, n, m - 1);
      LevelStep(cfg, hits, m);
      EarnedGrows(cfg, hits, m);
    } else {
      LevelBounds(cfg, hits, n);
    }
  }

  /** `wait` seconds is exactly how long a bucket at `level` needs to reach `cost`. */
  lemma WaitIsExact(cap: real, level: real, cost: real, rate: real, gone: real, gained: real)
    requires rate > 0.0 && level < cost && gained == rate * gone
    ensures Min(cap, level + gained) >= cost <==> cost <= cap && gone >= (cost - level) / rate
  {
    var wait := (cost - level) / rate;
    assert rate * wait == cost - level;
    if gone >= wait {
      MulMonotone(wait, gone, rate);
    } else {
      assert rate * (wait - gone) > 0.0;
    }
  }

  /** How long the client refused at hit `n` has to wait; the script's retry_after. */
  function Wait(cfg: Config, hits: seq<Hit>, n: nat): real
    requires cfg.Valid() && n < |hits|
  {
    (hits[n].cost as real - LevelAt(cfg, hits, n)) / cfg.rate
  }

  /** Retry-After is exact. A refused hit repeated later, with nothing admitted in between, is admitted
      if and only if it could ever be (cost <= C) and the clock went forward (cost - tokens)/r seconds. */
  lemma RetryAfterIsExact(cfg: Config, hits: seq<Hit>, n: nat, m: nat)
    requires Run(cfg, hits) && n < m < |hits| && hits[m].cost == hits[n].cost
    requires forall k :: n <= k < m ==> !Admitted(cfg, hits, k)
    ensures Admitted(cfg, hits, m) <==> hits[m].cost <= cfg.capacity && Elapsed(hits, n, m) >= Wait(cfg, hits, n)
  {
    hide Level, Stored, Earned, Spent, Elapsed;
    var gained := Earned(cfg, hits, m) - Earned(cfg, hits, n);
    EarnedIsRateTimesElapsed(cfg, hits, n, m);
    LevelAfterDenials(cfg, hits, n, m);
    assert !Admitted(cfg, hits, n);
    WaitIsExact(cfg.capacity as real, LevelAt(cfg, hits, n), hits[n].cost as real, cfg.rate,
                Elapsed(hits, n, m), gained);
  }

  /** The whole seconds the client is told are always enough, and one second fewer never is. */
  lemma RetryAfterSecondsAreTight(cfg: Config, hits: seq<Hit>, n: nat, m: nat)
    requires Run(cfg, hits) && n < m < |hits| && hits[m].cost == hits[n].cost <= cfg.capacity
    requires forall k :: n <= k < m ==> !Admitted(cfg, hits, k)
    ensures Elapsed(hits, n, m) >= Ceil(Wait(cfg, hits, n)) as real ==> Admitted(cfg, hits, m)
    ensures Elapsed(hits, n, m) <= Ceil(Wait(cfg, hits, n)) as real - 1.0 ==> !Admitted(cfg, hits, m)
  {
    RetryAfterIsExact(cfg, hits, n, m);
  }
}

/** `RolloutManager` of app/gateway/rollout.py on one replica: the keys in Redis, and the pair it caches. */
module Rollout {
  import opened Wrappers

  /** A route table, by its text. */
  type Config = string

  datatype Canary = Canary(version: string, weight: int, rolledBackAt: Option<real>, reason: Option<string>,
                           config: Config)

  datatype Stable = Stable(version: string, config: Config)

  datatype Tally = Tally(requests: nat, errors: nat)

  datatype Settings = Settings(minRequests: int, maxErrorRate: real, refresh: real)

  datatype Slot = STABLE | CANARY

  /** Which table served a request, and which version of it. */
  datatype Variant = Variant(name: Slot, version: string)

  /** `rollout:stable`, `rollout:canary` and `rollout:stats`. */
  datatype Keys = Keys(stable: Option<Stable>, canary: Option<Canary>, stats: map<string, Tally>)

  datatype Cached = Cached(stable: Option<Stable>, canary: Option<Canary>, fetchedAt: Option<real>)

  const EMPTY := Keys(None, None, map[])

  predicate Active(c: Canary) {
    c.weight > 0 && c.rolledBackAt.None?
  }

  function TallyOf(stats: map<string, Tally>, version: string): Tally {
    if version in stats then stats[version] else Tally(0, 0)
  }

  function Counted(stats: map<string, Tally>, version: string, ok: bool): map<string, Tally> {
    var t := TallyOf(stats, version);
    stats[version := Tally(t.requests + 1, if ok then t.errors else t.errors + 1)]
  }

  predicate Worse(t: Tally, s: Settings) {
    t.requests > 0 && t.requests >= s.minRequests && t.errors as real / t.requests as real > s.maxErrorRate
  }

  function RolledBack(c: Canary, reason: string, now: real): Canary {
    c.(weight := 0, rolledBackAt := Some(now), reason := Some(reason))
  }

  function Reweighted(c: Canary, weight: int): Canary {
    c.(weight := weight, rolledBackAt := if weight != 0 then None else c.rolledBackAt)
  }

  // ------------------------------------------------------------------ what the operations do to the keys

  datatype Event =
    | Record(variant: Variant, ok: bool, now: real)
    | Publish(config: Config, weight: int)
    | SetWeight(newWeight: int)
    | RollBack(why: string, at: real)
    | Promote
    | Discard

  const HIGH_ERROR_RATE := "error rate above what the canary is allowed"

  function Recorded(k: Keys, s: Settings, v: Variant, ok: bool, now: real): Keys {
    var stats := Counted(k.stats, v.version, ok);
    if v.name.CANARY? && !ok && k.canary.Some? && k.canary.value.version == v.version && Active(k.canary.value)
       && Worse(TallyOf(stats, v.version), s)
    then k.(stats := stats, canary := Some(RolledBack(k.canary.value, HIGH_ERROR_RATE, now)))
    else k.(stats := stats)
  }

  function Next(k: Keys, s: Settings, fingerprint: Config -> string, e: Event): Keys {
    match e
    case Record(v, ok, now) => Recorded(k, s, v, ok, now)
    case Publish(config, weight) =>
      k.(canary := Some(Canary(fingerprint(config), weight, None, None, config)),
         stats := k.stats - {fingerprint(config)})
    case SetWeight(weight) =>
      if k.canary.None? then k else k.(canary := Some(Reweighted(k.canary.value, weight)))
    case RollBack(why, at) =>
      if k.canary.None? then k else k.(canary := Some(RolledBack(k.canary.value, why, at)))
    case Promote =>
      if k.canary.None? then k
      else k.(stable := Some(Stable(k.canary.value.version, k.canary.value.config)), canary := None)
    case Discard => k.(canary := None)
  }

  /** Which table a request with the draw `draw` of `random()` gets. */
  function Selected(k: Keys, fallback: Stable, draw: real): (Config, Variant) {
    var stable := if k.stable.Some? then k.stable.value else fallback;
    if k.canary.Some? && Active(k.canary.value) && draw * 100.0 < k.canary.value.weight as real
    then (k.canary.value.config, Variant(CANARY, k.canary.value.version))
    else (stable.config, Variant(STABLE, stable.version))
  }

  // ------------------------------------------------------------------ the manager

  class RolloutManager {
    const settings: Settings
    const fingerprint: Config -> string
    const fallback: Stable
    var keys: Keys
    var cache: Cached

    constructor (settings: Settings, fingerprint: Config -> string, fallback: Config)
      ensures Valid() && keys == Keys(None, None, map[])
      ensures this.settings == settings && this.fingerprint == fingerprint
      ensures this.fallback == Stable(fingerprint(fallback), fallback)
    {
      this.settings, this.fingerprint, this.fallback := settings, fingerprint, Stable(fingerprint(fallback), fallback);
      keys, cache := Keys(None, None, map[]), Cached(None, None, None);
    }

    /** The replica that writes forgets what it has cached, so what it has cached is what is stored. */
    ghost predicate Valid()
      reads this
    {
      cache.fetchedAt.Some? ==> cache.stable == keys.stable && cache.canary == keys.canary
    }

    method Load(now: real) returns (c: Cached)
      requires Valid()
      modifies `cache
      ensures Valid() && c == cache && c.stable == keys.stable && c.canary == keys.canary
    {
      if cache.fetchedAt.Some? && now - cache.fetchedAt.value < settings.refresh {
        return cache;
      }
      cache := Cached(keys.stable, keys.canary, Some(now));
      c := cache;
    }

    method Select(now: real, draw: real) returns (config: Config, variant: Variant)
      requires Valid()
      modifies `cache
      ensures Valid() && (config, variant) == Selected(keys, fallback, draw)
    {
      var c := Load(now);
      var stable := if c.stable.Some? then c.stable.value else fallback;
      if c.canary.Some? && Active(c.canary.value) && draw * 100.0 < c.canary.value.weight as real {
        return c.canary.value.config, Variant(CANARY, c.canary.value.version);
      }
      return stable.config, Variant(STABLE, stable.version);
    }

    /** `record`. */
    method RecordOutcome(variant: Variant, ok: bool, now: real)
      requires Valid()
      modifies `keys, `cache
      ensures Valid() && keys == Next(old(keys), settings, fingerprint, Record(variant, ok, now))
    {
      keys := keys.(stats := Counted(keys.stats, variant.version, ok));
      if variant.name.CANARY? && !ok {
        MaybeRollBack(variant.version, now);
      }
    }

    method MaybeRollBack(version: string, now: real)
      requires Valid() && TallyOf(keys.stats, version).requests > 0
      modifies `keys, `cache
      ensures Valid()
      ensures keys == if old(keys).canary.Some? && old(keys).canary.value.version == version
                         && Active(old(keys).canary.value)
                         && Worse(TallyOf(old(keys).stats, version), settings)
                      then old(keys).(canary := Some(RolledBack(old(keys).canary.value, HIGH_ERROR_RATE, now)))
                      else old(keys)
    {
      var c := Load(now);
      if c.canary.None? || c.canary.value.version != version || !Active(c.canary.value) {
        return;
      }
      var t := TallyOf(keys.stats, version);
      if t.requests < settings.minRequests {
        return;
      }
      var rate := t.errors as real / t.requests as real;
      if rate <= settings.maxErrorRate {
        return;
      }
      RollBackNow(HIGH_ERROR_RATE, now);
    }

    /** `publish`, once the text has parsed. */
    method PublishCanary(config: Config, weight: int)
      requires Valid()
      modifies `keys, `cache
      ensures Valid() && keys == Next(old(keys), settings, fingerprint, Publish(config, weight))
    {
      WriteCanary(Canary(fingerprint(config), weight, None, None, config));
      keys := keys.(stats := keys.stats - {fingerprint(config)});
    }

    method ChangeWeight(weight: int, now: real)
      requires Valid()
      modifies `keys, `cache
      ensures Valid() && keys == Next(old(keys), settings, fingerprint, SetWeight(weight))
    {
      var c := Load(now);
      if c.canary.None? {
        return;
      }
      WriteCanary(Reweighted(c.canary.value, weight));
    }

    /** `roll_back`. */
    method RollBackNow(why: string, now: real)
      requires Valid()
      modifies `keys, `cache
      ensures Valid() && keys == Next(old(keys), settings, fingerprint, RollBack(why, now))
    {
      var c := Load(now);
      if c.canary.None? {
        return;
      }
      WriteCanary(RolledBack(c.canary.value, why, now));
    }

    method PromoteCanary(now: real) returns (promoted: Option<Stable>)
      requires Valid()
      modifies `keys, `cache
      ensures Valid() && keys == Next(old(keys), settings, fingerprint, Promote)
      ensures promoted == if old(keys).canary.None? then None else keys.stable
    {
      var c := Load(now);
      if c.canary.None? {
        return None;
      }
      var stable := Stable(c.canary.value.version, c.canary.value.config);
      keys := keys.(stable := Some(stable));
      keys := keys.(canary := None);
      Invalidate();
      promoted := Some(stable);
    }

    method DiscardCanary() returns (removed: bool)
      modifies `keys, `cache
      ensures Valid() && keys == Next(old(keys), settings, fingerprint, Discard) && removed == old(keys).canary.Some?
    {
      removed := keys.canary.Some?;
      keys := keys.(canary := None);
      Invalidate();
    }

    method WriteCanary(c: Canary)
      modifies `keys, `cache
      ensures Valid() && keys == old(keys).(canary := Some(c))
    {
      keys := keys.(canary := Some(c));
      Invalidate();
    }

    method Invalidate()
      modifies `cache
      ensures Valid() && cache.fetchedAt.None?
    {
      cache := cache.(fetchedAt := None);
    }
  }

  // ------------------------------------------------------------------ over whole histories

  /** The keys after a history of operations, from empty. */
  function After(events: seq<Event>, s: Settings, fingerprint: Config -> string, start: Keys): Keys {
    if events == [] then start
    else Next(After(events[..|events| - 1], s, fingerprint, start), s, fingerprint, events[|events| - 1])
  }

  predicate Publishes(e: Event, fingerprint: Config -> string, version: string) {
    e.Publish? && fingerprint(e.config) == version
  }

  predicate Records(e: Event, version: string, errorsOnly: bool) {
    e.Record? && e.variant.version == version && (errorsOnly ==> !e.ok)
  }

  /** Where the history of a version's present numbers starts: after its last publish. */
  function LastPublish(events: seq<Event>, fingerprint: Config -> string, version: string): (n: nat)
    ensures n <= |events|
    ensures n > 0 ==> Publishes(events[n - 1], fingerprint, version)
    ensures forall i :: n <= i < |events| ==> !Publishes(events[i], fingerprint, version)
  {
    if events == [] then 0
    else if Publishes(events[|events| - 1], fingerprint, version) then |events|
    else LastPublish(events[..|events| - 1], fingerprint, version)
  }

  function CountRecords(events: seq<Event>, version: string, errorsOnly: bool): nat {
    if events == [] then 0
    else CountRecords(events[..|events| - 1], version, errorsOnly)
         + if Records(events[|events| - 1], version, errorsOnly) then 1 else 0
  }

  lemma StatsStep(k: Keys, s: Settings, fingerprint: Config -> string, e: Event, version: string)
    ensures var t, t' := TallyOf(k.stats, version), TallyOf(Next(k, s, fingerprint, e).stats, version);
            t' == if Publishes(e, fingerprint, version) then Tally(0, 0)
                  else Tally(t.requests + (if Records(e, version, false) then 1 else 0),
                             t.errors + (if Records(e, version, true) then 1 else 0))
  {
  }

  /** The numbers of a version are exactly the outcomes recorded for it since it was last published,
      whatever else was published, reweighted, rolled back, promoted or discarded in between. */
  lemma {:induction false} StatsSinceLastPublish(events: seq<Event>, s: Settings, fingerprint: Config -> string,
                                                 version: string)
    ensures var since := events[LastPublish(events, fingerprint, version)..];
            TallyOf(After(events, s, fingerprint, EMPTY).stats, version)
            == Tally(CountRecords(since, version, false), CountRecords(since, version, true))
  {
    if events != [] {
      var front, last := events[..|events| - 1], events[|events| - 1];
      var k := After(front, s, fingerprint, EMPTY);
      StatsSinceLastPublish(front, s, fingerprint, version);
      StatsStep(k, s, fingerprint, last, version);
      var n := LastPublish(events, fingerprint, version);
      if n < |events| {
        assert events[n..][..|events| - 1 - n] == front[n..];
      }
    }
  }

  /** An error recorded for the canary rolls it back if and only if, with it, the canary has had enough
      requests and too many errors; nothing else recorded ever does. */
  lemma ErrorRollsBackExactly(k: Keys, s: Settings, v: Variant, ok: bool, now: real)
    requires k.canary.Some? && Active(k.canary.value)
    ensures var k' := Recorded(k, s, v, ok, now);
            && k'.canary.Some?
            && (!Active(k'.canary.value) <==>
                  v == Variant(CANARY, k.canary.value.version) && !ok && Worse(TallyOf(k'.stats, v.version), s))
            && (Active(k'.canary.value) ==> k'.canary == k.canary)
  {
  }

  // ------------------------------------------------------------------ what is served, from the history alone

  /** The keys after a history that starts from nothing. */
  function Since(events: seq<Event>, s: Settings, fingerprint: Config -> string): Keys {
    After(events, s, fingerprint, EMPTY)
  }

  /** The event puts a canary in place or takes it away. */
  predicate Places(e: Event) {
    e.Publish? || e.Promote? || e.Discard?
  }

  /** The event decides the weight, by hand. */
  predicate Steers(e: Event) {
    Places(e) || e.SetWeight? || e.RollBack?
  }

  function WeightOf(e: Event): int {
    match e
    case Publish(_, weight) => weight
    case SetWeight(weight) => weight
    case _ => 0
  }

  /** The canary published at `p` is still the canary. */
  ghost predicate InPlace(events: seq<Event>, p: nat) {
    p < |events| && events[p].Publish? && forall i :: p < i < |events| ==> !Places(events[i])
  }

  /** The last event that decided the weight by hand, and decided on more than 0. */
  ghost predicate LastWeighedAt(events: seq<Event>, r: nat) {
    r < |events| && WeightOf(events[r]) > 0 && forall i :: r < i < |events| ==> !Steers(events[i])
  }

  /** The outcomes recorded for the canary of `p`, from its publish up to and with event `i`. */
  function CountsAt(events: seq<Event>, fingerprint: Config -> string, p: nat, i: nat): Tally
    requires p <= i < |events| && events[p].Publish?
  {
    var own, version := events[p + 1..i + 1], fingerprint(events[p].config);
    Tally(CountRecords(own, version, false), CountRecords(own, version, true))
  }

  /** Enough requests to judge by, and more errors among them than the rate allows. */
  predicate TooManyErrors(t: Tally, s: Settings) {
    t.requests >= s.minRequests && t.errors as real > s.maxErrorRate * t.requests as real
  }

  lemma WorseIsTooMany(t: Tally, s: Settings)
    requires t.requests > 0
    ensures Worse(t, s) <==> TooManyErrors(t, s)
  {
    var rate, n := t.errors as real / t.requests as real, t.requests as real;
    assert rate * n == t.errors as real;
    if rate > s.maxErrorRate {
      assert (rate - s.maxErrorRate) * n > 0.0;
    } else {
      assert (s.maxErrorRate - rate) * n >= 0.0;
    }
  }

  /** Event `i` is an error of the canary of `p`, and one too many. */
  predicate PullsTheCord(events: seq<Event>, s: Settings, fingerprint: Config -> string, p: nat, i: nat)
    requires p <= i < |events| && events[p].Publish?
  {
    && events[i].Record? && !events[i].ok && events[i].variant == Variant(CANARY, fingerprint(events[p].config))
    && TooManyErrors(CountsAt(events, fingerprint, p, i), s)
  }

  /** The canary of `p` was last given a weight at `r`, more than 0, and no error since was one too many. */
  ghost predicate Serves(events: seq<Event>, s: Settings, fingerprint: Config -> string, p: nat, r: nat) {
    && InPlace(events, p) && p <= r < |events| && WeightOf(events[r]) > 0
    && (forall i :: r < i < |events| ==> !Steers(events[i]) && !PullsTheCord(events, s, fingerprint, p, i))
  }

  /** The canary in the keys is the one published at `p`. */
  ghost predicate IsCanaryOf(k: Keys, fingerprint: Config -> string, e: Event) {
    e.Publish? && k.canary.Some? && k.canary.value.version == fingerprint(e.config) && k.canary.value.config == e.config
  }

  lemma {:induction false} CanaryWasPublished(events: seq<Event>, s: Settings, fingerprint: Config -> string)
    returns (p: nat)
    requires Since(events, s, fingerprint).canary.Some?
    ensures InPlace(events, p) && IsCanaryOf(Since(events, s, fingerprint), fingerprint, events[p])
  {
    var last := |events| - 1;
    p := last;
    if !events[last].Publish? {
      p := CanaryWasPublished(events[..last], s, fingerprint);
    }
  }

  lemma {:induction false} PublishedIsCanary(events: seq<Event>, s: Settings, fingerprint: Config -> string, p: nat)
    requires InPlace(events, p)
    ensures IsCanaryOf(Since(events, s, fingerprint), fingerprint, events[p])
  {
    var last := |events| - 1;
    if p < last {
      PublishedIsCanary(events[..last], s, fingerprint, p);
    }
  }

  /** The canary's counters are the outcomes since its publish. */
  lemma CountersOfCanary(events: seq<Event>, s: Settings, fingerprint: Config -> string, p: nat)
    requires InPlace(events, p)
    ensures TallyOf(Since(events, s, fingerprint).stats, fingerprint(events[p].config))
            == CountsAt(events, fingerprint, p, |events| - 1)
  {
    var version := fingerprint(events[p].config);
    StatsSinceLastPublish(events, s, fingerprint, version);
    assert Publishes(events[p], fingerprint, version);
    assert LastPublish(events, fingerprint, version) == p + 1;
    assert events[p + 1..] == events[p + 1..|events|];
  }

  /** One recorded outcome more. */
  lemma RecordedOnTop(events: seq<Event>, s: Settings, fingerprint: Config -> string, p: nat)
    requires InPlace(events, p) && p < |events| - 1 && events[|events| - 1].Record?
    requires var front := Since(events[..|events| - 1], s, fingerprint);
             front.canary.Some? && Active(front.canary.value)
    ensures var front, k := Since(events[..|events| - 1], s, fingerprint), Since(events, s, fingerprint);
            && k.canary.Some?
            && (!Active(k.canary.value) <==> PullsTheCord(events, s, fingerprint, p, |events| - 1))
            && (Active(k.canary.value) ==> k.canary == front.canary)
  {
    var last := |events| - 1;
    hide Worse, TooManyErrors;
    var e, front := events[last], Since(events[..last], s, fingerprint);
    assert InPlace(events[..last], p) && events[..last][p] == events[p];
    PublishedIsCanary(events[..last], s, fingerprint, p);
    ErrorRollsBackExactly(front, s, e.variant, e.ok, e.now);
    CountersOfCanary(events, s, fingerprint, p);
    var t := TallyOf(Since(events, s, fingerprint).stats, e.variant.version);
    assert t.requests > 0;
    WorseIsTooMany(t, s);
  }

  /** What was no cord pulled in the beginning of a history is none in all of it. */
  lemma SameInFront(events: seq<Event>, s: Settings, fingerprint: Config -> string, p: nat, i: nat)
    requires p <= i < |events| - 1 && events[p].Publish?
    ensures var front := events[..|events| - 1];
            PullsTheCord(front, s, fingerprint, p, i) == PullsTheCord(events, s, fingerprint, p, i)
  {
    assert events[..|events| - 1][p + 1..i + 1] == events[p + 1..i + 1];
  }

  lemma ServesOn(events: seq<Event>, s: Settings, fingerprint: Config -> string, p: nat, r: nat)
    requires events != [] && r < |events| - 1
    ensures Serves(events, s, fingerprint, p, r) <==>
              && Serves(events[..|events| - 1], s, fingerprint, p, r) && !Steers(events[|events| - 1])
              && !PullsTheCord(events, s, fingerprint, p, |events| - 1)
  {
    var last := |events| - 1;
    var front := events[..last];
    if p < |front| && events[p].Publish? {
      forall i | p <= i < last
        ensures PullsTheCord(front, s, fingerprint, p, i) == PullsTheCord(events, s, fingerprint, p, i)
      {
        SameInFront(events, s, fingerprint, p, i);
      }
    }
  }

  lemma {:induction false} ActiveServes(events: seq<Event>, s: Settings, fingerprint: Config -> string)
    returns (p: nat, r: nat)
    requires var k := Since(events, s, fingerprint); k.canary.Some? && Active(k.canary.value)
    ensures Serves(events, s, fingerprint, p, r) && IsCanaryOf(Since(events, s, fingerprint), fingerprint, events[p])
    ensures Since(events, s, fingerprint).canary.value.weight == WeightOf(events[r])
  {
    var last := |events| - 1;
    p := CanaryWasPublished(events, s, fingerprint);
    r := last;
    if events[last].Record? {
      var q;
      q, r := ActiveServes(events[..last], s, fingerprint);
      assert p == q by {
        assert InPlace(events[..last], q) && InPlace(events, p);
      }
      RecordedOnTop(events, s, fingerprint, p);
      ServesOn(events, s, fingerprint, p, r);
    }
  }

  lemma {:induction false} ServingIsActive(events: seq<Event>, s: Settings, fingerprint: Config -> string, p: nat,
                                           r: nat)
    requires Serves(events, s, fingerprint, p, r)
    ensures var k := Since(events, s, fingerprint);
            && IsCanaryOf(k, fingerprint, events[p]) && Active(k.canary.value)
            && k.canary.value.weight == WeightOf(events[r])
  {
    var last := |events| - 1;
    PublishedIsCanary(events, s, fingerprint, p);
    if r < last {
      ServesOn(events, s, fingerprint, p, r);
      ServingIsActive(events[..last], s, fingerprint, p, r);
      RecordedOnTop(events, s, fingerprint, p);
    } else if p < last {
      assert InPlace(events[..last], p);
      PublishedIsCanary(events[..last], s, fingerprint, p);
    }
  }

  /** A promotion that took effect: the canary published at `p` was in place when `q` promoted it. */
  ghost predicate Promotes(events: seq<Event>, p: nat, q: nat) {
    q < |events| && events[q].Promote? && InPlace(events[..q], p)
  }

  /** It is the last one. */
  ghost predicate LastPromotion(events: seq<Event>, p: nat, q: nat) {
    Promotes(events, p, q) && forall p': nat, q': nat :: Promotes(events, p', q') ==> q' <= q
  }

  lemma PromotesInFront(events: seq<Event>, p: nat, q: nat)
    requires q < |events| - 1
    ensures Promotes(events[..|events| - 1], p, q) == Promotes(events, p, q)
  {
    assert events[..|events| - 1][..q] == events[..q];
  }

  /** The stable table is the canary that was last promoted, and the start-up table until one is. */
  lemma {:induction false} StableIsLastPromoted(events: seq<Event>, s: Settings, fingerprint: Config -> string)
    ensures match Since(events, s, fingerprint).stable
            case None => forall p: nat, q: nat :: !Promotes(events, p, q)
            case Some(stable) =>
              exists p: nat, q: nat :: LastPromotion(events, p, q) && events[p].Publish?
                             && stable == Stable(fingerprint(events[p].config), events[p].config)
  {
    if events != [] {
      var last := |events| - 1;
      var front, k := events[..last], Since(events[..last], s, fingerprint);
      forall p: nat, q: nat | q < last
        ensures Promotes(front, p, q) == Promotes(events, p, q)
      {
        PromotesInFront(events, p, q);
      }
      if events[last].Promote? && k.canary.Some? {
        var p := CanaryWasPublished(front, s, fingerprint);
        assert LastPromotion(events, p, last);
      } else {
        StableIsLastPromoted(front, s, fingerprint);
        forall p: nat | Promotes(events, p, last)
          ensures false
        {
          PublishedIsCanary(front, s, fingerprint, p);
        }
        if k.stable.Some? {
          var p: nat, q: nat :| LastPromotion(front, p, q) && front[p].Publish?
                      && k.stable.value == Stable(fingerprint(front[p].config), front[p].config);
          assert LastPromotion(events, p, q);
        }
      }
    }
  }

  /** The draw is under the weight the event gave. */
  predicate Draws(draw: real, e: Event) {
    draw * 100.0 < WeightOf(e) as real
  }

  /** Which requests the canary gets, from the history alone: a request gets its table if and only if it is
      in place, its last weight is more than the draw, and since then no error of its was one too many. */
  lemma CanaryServesExactly(events: seq<Event>, s: Settings, fingerprint: Config -> string, fallback: Stable,
                            draw: real)
    requires draw >= 0.0
    ensures Selected(Since(events, s, fingerprint), fallback, draw).1.name.CANARY?
            <==> exists p: nat, r: nat :: Serves(events, s, fingerprint, p, r) && Draws(draw, events[r])
    ensures forall p: nat, r: nat :: Serves(events, s, fingerprint, p, r) && Draws(draw, events[r]) ==>
              Selected(Since(events, s, fingerprint), fallback, draw)
              == (events[p].config, Variant(CANARY, fingerprint(events[p].config)))
  {
    var k := Since(events, s, fingerprint);
    if k.canary.Some? && Active(k.canary.value) {
      var p, r := ActiveServes(events, s, fingerprint);
    }
    forall p: nat, r: nat | Serves(events, s, fingerprint, p, r) && Draws(draw, events[r])
      ensures Selected(k, fallback, draw) == (events[p].config, Variant(CANARY, fingerprint(events[p].config)))
    {
      ServingIsActive(events, s, fingerprint, p, r);
    }
  }

  /** Every other request gets the table that was last promoted. */
  lemma PromotedServesAll(events: seq<Event>, s: Settings, fingerprint: Config -> string, fallback: Stable,
                          draw: real, p: nat, q: nat)
    requires draw >= 0.0 && LastPromotion(events, p, q)
    requires forall p': nat, r: nat :: Serves(events, s, fingerprint, p', r) ==> !Draws(draw, events[r])
    ensures Selected(Since(events, s, fingerprint), fallback, draw)
            == (events[p].config, Variant(STABLE, fingerprint(events[p].config)))
  {
    CanaryServesExactly(events, s, fingerprint, fallback, draw);
    StableIsLastPromoted(events, s, fingerprint);
    forall p' | LastPromotion(events, p', q)
      ensures p' == p
    {
      assert InPlace(events[..q], p') && InPlace(events[..q], p);
    }
  }

  /** And before anything was promoted, the start-up table. */
  lemma StartUpServesUntilThen(events: seq<Event>, s: Settings, fingerprint: Config -> string, fallback: Stable,
                               draw: real)
    requires draw >= 0.0 && forall p: nat, q: nat :: !Promotes(events, p, q)
    requires forall p: nat, r: nat :: Serves(events, s, fingerprint, p, r) ==> !Draws(draw, events[r])
    ensures Selected(Since(events, s, fingerprint), fallback, draw)
            == (fallback.config, Variant(STABLE, fallback.version))
  {
    CanaryServesExactly(events, s, fingerprint, fallback, draw);
    StableIsLastPromoted(events, s, fingerprint);
  }

  /** Event `i` is the last outcome recorded for the version. */
  ghost predicate LastOutcome(events: seq<Event>, version: string, i: nat) {
    && i < |events| && Records(events[i], version, false)
    && forall j :: i < j < |events| ==> !Records(events[j], version, false)
  }

  /** Whatever the history: while a canary is active and the last outcome of its version was an error of
      its own, recorded since it was given its weight (at `r`), it has had too few requests to be judged or
      the error rate its counters show is one it is allowed. */
  lemma ActiveMeansAllowed(events: seq<Event>, s: Settings, fingerprint: Config -> string, i: nat)
    returns (p: nat, r: nat)
    requires var k := Since(events, s, fingerprint);
             && k.canary.Some? && Active(k.canary.value)
             && LastOutcome(events, k.canary.value.version, i) && events[i].variant.name.CANARY? && !events[i].ok
    ensures InPlace(events, p) && LastWeighedAt(events, r) && p <= r
    ensures var t := TallyOf(Since(events, s, fingerprint).stats, Since(events, s, fingerprint).canary.value.version);
            r < i ==> t.requests > 0
                      && (t.requests < s.minRequests || t.errors as real / t.requests as real <= s.maxErrorRate)
  {
    hide CountRecords, After;
    p, r := ActiveServes(events, s, fingerprint);
    if r < i {
      CountersOfCanary(events, s, fingerprint, p);
      CountsStay(events, fingerprint, p, i);
      WorseIsTooMany(CountsAt(events, fingerprint, p, i), s);
    }
  }

  lemma CountsStay(events: seq<Event>, fingerprint: Config -> string, p: nat, i: nat)
    requires p < i < |events| && events[p].Publish? && LastOutcome(events, fingerprint(events[p].config), i)
    ensures CountsAt(events, fingerprint, p, |events| - 1) == CountsAt(events, fingerprint, p, i)
    ensures CountsAt(events, fingerprint, p, i).requests > 0
  {
    var version := fingerprint(events[p].config);
    NoneRecorded(events, version, p + 1, i + 1, false);
    NoneRecorded(events, version, p + 1, i + 1, true);
    assert events[p + 1..|events|] == events[p + 1..];
    assert events[p + 1..i + 1][i - p - 1] == events[i];
  }

  lemma {:induction false} NoneRecorded(events: seq<Event>, version: string, from: nat, upto: nat, errorsOnly: bool)
    requires from <= upto <= |events| && forall j :: upto <= j < |events| ==> !Records(events[j], version, false)
    ensures CountRecords(events[from..], version, errorsOnly) == CountRecords(events[from..upto], version, errorsOnly)
  {
    if upto < |events| {
      var front := events[..|events| - 1];
      NoneRecorded(front, version, from, upto, errorsOnly);
      assert events[from..][..|events| - from - 1] == front[from..] && front[from..upto] == events[from..upto];
    } else {
      assert events[from..] == events[from..upto];
    }
  }

  /** Event `i` rolled the canary of `p` back, by hand or for its errors, and this is what it wrote. */
  ghost predicate RollsBackTo(events: seq<Event>, s: Settings, fingerprint: Config -> string, p: nat, i: nat,
                              c: Canary)
    requires p < i < |events| && events[p].Publish?
  {
    match events[i]
    case RollBack(why, at) => c.rolledBackAt == Some(at) && c.reason == Some(why)
    case Record(_, _, now) =>
      PullsTheCord(events, s, fingerprint, p, i) && c.rolledBackAt == Some(now) && c.reason == Some(HIGH_ERROR_RATE)
    case _ => false
  }

  /** A canary that is marked as rolled back has no weight, says when and why, and is so for a reason: the
      last roll-back by hand, or the error that was one too many; nothing has revived it since. */
  lemma {:induction false} RolledBackForAReason(events: seq<Event>, s: Settings, fingerprint: Config -> string)
    returns (p: nat, i: nat)
    requires var k := Since(events, s, fingerprint); k.canary.Some? && k.canary.value.rolledBackAt.Some?
    ensures InPlace(events, p) && IsCanaryOf(Since(events, s, fingerprint), fingerprint, events[p])
    ensures Since(events, s, fingerprint).canary.value.weight == 0
    ensures p < i < |events| && RollsBackTo(events, s, fingerprint, p, i, Since(events, s, fingerprint).canary.value)
    ensures forall j :: i < j < |events| ==> !events[j].RollBack? && !Revives(events[j])
  {
    var last := |events| - 1;
    var front, e := Since(events[..last], s, fingerprint), events[last];
    p := CanaryWasPublished(events, s, fingerprint);
    i := last;
    assert p < last && InPlace(events[..last], p);
    PublishedIsCanary(events[..last], s, fingerprint, p);
    if e.Record? && Active(front.canary.value) {
      RecordedOnTop(events, s, fingerprint, p);
    } else if !e.RollBack? {
      var q;
      q, i := RolledBackForAReason(events[..last], s, fingerprint);
      assert q == p;
      StillRollsBack(events, s, fingerprint, p, i, front.canary.value);
    }
  }

  lemma StillRollsBack(events: seq<Event>, s: Settings, fingerprint: Config -> string, p: nat, i: nat, c: Canary)
    requires events != [] && p < i < |events| - 1 && events[p].Publish?
    requires RollsBackTo(events[..|events| - 1], s, fingerprint, p, i, c)
    ensures RollsBackTo(events, s, fingerprint, p, i, c)
  {
    SameInFront(events, s, fingerprint, p, i);
  }

  ghost predicate Dormant(k: Keys) {
    k.canary.Some? ==> !Active(k.canary.value)
  }

  predicate Revives(e: Event) {
    e.Publish? || (e.SetWeight? && e.newWeight != 0)
  }

  /** A canary that is not active gets no request, whatever is drawn, until something is published or a
      weight other than 0 is set: counting, rolling back, promoting and discarding never revive it. */
  lemma {:induction false} DormantUntilRevived(start: Keys, events: seq<Event>, s: Settings,
                                               fingerprint: Config -> string, fallback: Stable, draw: real)
    requires Dormant(start) && forall e <- events :: !Revives(e)
    ensures var k := After(events, s, fingerprint, start);
            Dormant(k) && Selected(k, fallback, draw).1.name == STABLE
  {
    if events != [] {
      var last := |events| - 1;
      DormantUntilRevived(start, events[..last], s, fingerprint, fallback, draw);
      assert events[last] in events;
    }
  }
}

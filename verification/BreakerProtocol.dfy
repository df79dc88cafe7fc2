/** The cluster-wide breaker of one deployment as a protocol: any number of replicas, each with any
    number of calls in progress, interleaved command by command (app/gateway/breaker_cluster.py).

    Redis answers every command; a call that was begun is never abandoned. */
module BreakerProtocol {
  import opened Wrappers
  import opened CircuitBreakers
  import opened BreakerCluster

  /** What a call in progress has to do next. The number is the reply INCR gave it. */
  datatype Todo =
    | Count                              // record_failure: INCR
    | Expire(reply: nat)                 // record_failure: EXPIRE
    | SetOpenKey(pooled: Option<nat>)    // _open: SET; None when the local breaker tripped by itself
    | DelKeys(pooled: Option<nat>)       // _open: DEL
    | AdoptOpen(reply: nat)              // record_failure: adopt what the pooled count decided
    | DelAll                             // record_success: DEL
    | ReadOpen                           // sync: GET OPEN
    | ReadFails(open: bool)              // sync: GET FAILS
    | Resolve(open: bool, fails: Option<nat>)
    | Claim                              // _claim_probe: SET NX

  datatype Task = Task(replica: nat, todo: Todo)

  datatype Replica = Replica(breaker: Breaker, syncedAt: Option<real>)

  /** `reached`, `published`, `won` and `ended` only count: INCR replies that reached the threshold,
      SET OPENs that answered one, probe keys set and probe keys gone. */
  datatype Cluster = Cluster(now: real, keys: Keys, replicas: map<nat, Replica>, tasks: map<nat, Task>,
                             reached: nat, published: nat, won: nat, ended: nat)

  datatype Action =
    | Tick(to: real)
    | BeginFailure(replica: nat, task: nat)
    | BeginSuccess(replica: nat, task: nat)
    | BeginSync(replica: nat, task: nat)
    | Arrive(replica: nat, prepared: real)
    | Command(task: nat)

  ghost predicate Enabled(cfg: Config, c: Cluster, a: Action) {
    match a
    case Tick(to) => c.now <= to
    case Command(t) => t in c.tasks && c.tasks[t].replica in c.replicas
    case Arrive(r, p) =>
      // the request prepared at `p`: it refreshed then, or the last refresh was recent
      r in c.replicas && p <= c.now && c.replicas[r].syncedAt.Some?
      && p - c.replicas[r].syncedAt.value < cfg.refresh
    case _ => a.replica in c.replicas && a.task !in c.tasks
  }

  function WithBreaker(c: Cluster, r: nat, b: Breaker): Cluster
    requires r in c.replicas
  {
    c.(replicas := c.replicas[r := c.replicas[r].(breaker := b)])
  }

  function WithTask(c: Cluster, t: nat, task: Task): Cluster {
    c.(tasks := c.tasks[t := task])
  }

  function Done(c: Cluster, t: nat): Cluster {
    c.(tasks := c.tasks - {t})
  }

  /** Setting the keys, with the probe key's comings and goings counted. */
  function WithKeys(c: Cluster, k: Keys): Cluster {
    c.(keys := k,
       won := c.won + Flag(c.keys.probe.None? && k.probe.Some?),
       ended := c.ended + Flag(c.keys.probe.Some? && k.probe.None?))
  }

  function Run(cfg: Config, c: Cluster, t: nat): Cluster
    requires t in c.tasks && c.tasks[t].replica in c.replicas
  {
    var r := c.tasks[t].replica;
    var b := c.replicas[r].breaker;
    match c.tasks[t].todo
    case Count =>
      var k := Incr(c.keys);
      WithTask(WithKeys(c, k), t, Task(r, Expire(FailCount(k))))
        .(reached := c.reached + Flag(FailCount(k) >= cfg.limits.threshold))
    case Expire(n) =>
      var c' := WithKeys(c, ExpireFails(cfg, c.keys, c.now));
      if n >= cfg.limits.threshold then WithTask(c', t, Task(r, SetOpenKey(Some(n)))) else Done(c', t)
    case SetOpenKey(n) =>
      WithTask(WithKeys(c, SetOpen(cfg, c.keys, c.now)), t, Task(r, DelKeys(n)))
        .(published := c.published + Flag(n.Some?))
    case DelKeys(n) =>
      var c' := WithKeys(c, DelFailsAndProbe(c.keys));
      if n.Some? then WithTask(c', t, Task(r, AdoptOpen(n.value))) else Done(c', t)
    case AdoptOpen(n) =>
      Done(WithBreaker(c, r, Adopted(cfg.limits, b, OPEN, n, c.now)), t)
    case DelAll => Done(WithKeys(c, NO_KEYS), t)
    case ReadOpen => WithTask(c, t, Task(r, ReadFails(c.keys.open.Some?)))
    case ReadFails(open) => WithTask(c, t, Task(r, Resolve(open, FailsRead(c.keys))))
    case Resolve(open, fails) =>
      var o := Observed(cfg.limits, b, c.now);
      if open then Done(WithBreaker(c, r, Adopted(cfg.limits, o, OPEN, cfg.limits.threshold, c.now)), t)
      else if o.state.OPEN? then WithTask(WithBreaker(c, r, o), t, Task(r, Claim))
      else if fails.Some? then Done(WithBreaker(c, r, Adopted(cfg.limits, o, o.state, fails.value, c.now)), t)
      else Done(WithBreaker(c, r, o), t)
    case Claim =>
      var c' := Done(WithKeys(c, ClaimProbe(cfg, c.keys, c.now)), t);
      if c.keys.probe.None? then WithBreaker(c', r, Adopted(cfg.limits, b, HALF_OPEN, 0, c.now)) else c'
  }

  function Next(cfg: Config, c: Cluster, a: Action): Cluster
    requires Enabled(cfg, c, a)
  {
    match a
    case Tick(to) => WithKeys(c, Live(c.keys, to)).(now := to)
    case BeginFailure(r, t) =>
      var b := c.replicas[r].breaker;
      WithTask(WithBreaker(c, r, Failed(cfg.limits, b, c.now)), t,
               Task(r, if Trips(cfg.limits, b, c.now) then SetOpenKey(None) else Count))
    case BeginSuccess(r, t) =>
      WithTask(WithBreaker(c, r, Succeeded(c.replicas[r].breaker)), t, Task(r, DelAll))
    case BeginSync(r, t) =>
      var rep := c.replicas[r];
      if rep.syncedAt.Some? && c.now - rep.syncedAt.value < cfg.refresh then c
      else WithTask(c, t, Task(r, ReadOpen)).(replicas := c.replicas[r := rep.(syncedAt := Some(c.now))])
    case Arrive(r, _) => WithBreaker(c, r, Asked(cfg.limits, c.replicas[r].breaker, c.now))
    case Command(t) => Run(cfg, c, t)
  }

  ghost predicate Start(c: Cluster) {
    && c.keys == NO_KEYS && c.tasks == map[]
    && c.reached == c.published == c.won == c.ended == 0
    && forall r <- c.replicas :: c.replicas[r].breaker == FRESH
  }

  /** `trace` is an execution that takes the steps `actions`. */
  ghost predicate Execution(cfg: Config, trace: seq<Cluster>, actions: seq<Action>) {
    && |trace| == |actions| + 1
    && forall i :: 0 <= i < |actions| ==> StepAt(cfg, trace, actions, i)
  }

  ghost predicate StepAt(cfg: Config, trace: seq<Cluster>, actions: seq<Action>, i: nat)
    requires i < |actions| && i + 1 < |trace|
  {
    Enabled(cfg, trace[i], actions[i]) && trace[i + 1] == Next(cfg, trace[i], actions[i])
  }

  // ------------------------------------------------------------------ pooled failures

  /** The call holds an INCR reply that reached the threshold and has not made its SET OPEN. */
  predicate Owes(cfg: Config, task: Task) {
    || (task.todo.Expire? && task.todo.reply >= cfg.limits.threshold)
    || (task.todo.SetOpenKey? && task.todo.pooled.Some?)
  }

  /** The call was told `n` by INCR and has `_open` writes still to make. */
  predicate Holds(task: Task, n: nat) {
    || task.todo == Expire(n) || task.todo == SetOpenKey(Some(n)) || task.todo == DelKeys(Some(n))
  }

  function Owing(cfg: Config, c: Cluster): set<nat> {
    set t | t in c.tasks && Owes(cfg, c.tasks[t])
  }

  /** Whoever brought the count to the threshold or beyond still has to clear it. */
  ghost predicate BurstIsHeld(cfg: Config, c: Cluster) {
    FailCount(c.keys) >= cfg.limits.threshold ==> exists t :: t in c.tasks && Holds(c.tasks[t], FailCount(c.keys))
  }

  ghost predicate Pooled(cfg: Config, c: Cluster) {
    && BurstIsHeld(cfg, c)
    && c.reached == c.published + |Owing(cfg, c)|
    && c.won == c.ended + Flag(c.keys.probe.Some?)
  }

  ghost predicate SameElsewhere(a: map<nat, Task>, b: map<nat, Task>, t: nat) {
    forall u :: u != t ==> (u in a <==> u in b) && (u in a ==> a[u] == b[u])
  }

  lemma SizesDifferByOne(a: set<nat>, b: set<nat>, t: nat)
    requires forall u :: u != t ==> (u in a <==> u in b)
    ensures |b| + Flag(t in a) == |a| + Flag(t in b)
  {
    if (t in a) == (t in b) {
      assert a == b;
    } else if t in a {
      assert a == b + {t};
    } else {
      assert b == a + {t};
    }
  }

  lemma OwingAfter(cfg: Config, c: Cluster, c': Cluster, t: nat)
    requires SameElsewhere(c.tasks, c'.tasks, t)
    ensures |Owing(cfg, c')| + Flag(t in Owing(cfg, c)) == |Owing(cfg, c)| + Flag(t in Owing(cfg, c'))
  {
    SizesDifferByOne(Owing(cfg, c), Owing(cfg, c'), t);
  }

  lemma OneTaskMoves(cfg: Config, c: Cluster, t: nat)
    requires Enabled(cfg, c, Command(t))
    ensures SameElsewhere(c.tasks, Run(cfg, c, t).tasks, t)
  {
    hide Adopted, Observed, ClaimProbe, SetOpen, Incr, ExpireFails, DelFailsAndProbe, FailCount, FailsRead;
  }

  lemma OwedBalance(cfg: Config, c: Cluster, t: nat)
    requires Enabled(cfg, c, Command(t))
    ensures var c' := Run(cfg, c, t);
            c'.reached + c.published + Flag(Owes(cfg, c.tasks[t]))
            == c.reached + c'.published + Flag(t in c'.tasks && Owes(cfg, c'.tasks[t]))
  {
    hide Adopted, Observed, ClaimProbe, SetOpen, Incr, ExpireFails, DelFailsAndProbe, FailCount, FailsRead;
  }

  lemma OwedByCommand(cfg: Config, c: Cluster, t: nat)
    requires Enabled(cfg, c, Command(t)) && c.reached == c.published + |Owing(cfg, c)|
    ensures var c' := Run(cfg, c, t); c'.reached == c'.published + |Owing(cfg, c')|
  {
    hide Run;
    OwedBalance(cfg, c, t);
    OneTaskMoves(cfg, c, t);
    OwingAfter(cfg, c, Run(cfg, c, t), t);
  }

  lemma HeldByCommand(cfg: Config, c: Cluster, t: nat)
    requires cfg.Valid() && Enabled(cfg, c, Command(t)) && BurstIsHeld(cfg, c)
    ensures BurstIsHeld(cfg, Run(cfg, c, t))
  {
    var c' := Run(cfg, c, t);
    if FailCount(c'.keys) >= cfg.limits.threshold {
      if c.tasks[t].todo.Count? {
        assert Holds(c'.tasks[t], FailCount(c'.keys));
      } else if FailCount(c.keys) >= cfg.limits.threshold {
        var u :| u in c.tasks && Holds(c.tasks[u], FailCount(c.keys));
        OneTaskMoves(cfg, c, t);
        assert u in c'.tasks && Holds(c'.tasks[u], FailCount(c'.keys));
      }
    }
  }

  lemma PooledByCommand(cfg: Config, c: Cluster, t: nat)
    requires cfg.Valid() && Pooled(cfg, c) && Enabled(cfg, c, Command(t))
    ensures Pooled(cfg, Run(cfg, c, t))
  {
    hide BurstIsHeld, Owing;
    OwedByCommand(cfg, c, t);
    HeldByCommand(cfg, c, t);
  }

  lemma PooledByStep(cfg: Config, c: Cluster, a: Action)
    requires cfg.Valid() && Pooled(cfg, c) && Enabled(cfg, c, a)
    ensures Pooled(cfg, Next(cfg, c, a))
  {
    var c' := Next(cfg, c, a);
    match a
    case Command(t) => PooledByCommand(cfg, c, t);
    case Tick(_) =>
      assert Owing(cfg, c') == Owing(cfg, c);
      if FailCount(c'.keys) >= cfg.limits.threshold {
        assert FailCount(c'.keys) == FailCount(c.keys);
      }
    case Arrive(_, _) => assert Owing(cfg, c') == Owing(cfg, c);
    case _ =>
      assert SameElsewhere(c.tasks, c'.tasks, a.task);
      OwingAfter(cfg, c, c', a.task);
      if FailCount(c.keys) >= cfg.limits.threshold {
        var u :| u in c.tasks && Holds(c.tasks[u], FailCount(c.keys));
        assert u in c'.tasks && Holds(c'.tasks[u], FailCount(c'.keys));
      }
  }

  /** Pooled failures under every interleaving: a FAILS count at or over the threshold is the INCR
      reply of a call that still has its `_open` writes to make; every count that got there is
      answered by one SET OPEN, made or owed; every probe key set was won by one replica. */
  lemma {:induction false} PooledAlways(cfg: Config, trace: seq<Cluster>, actions: seq<Action>, i: nat)
    requires cfg.Valid() && Execution(cfg, trace, actions) && Start(trace[0]) && i < |trace|
    ensures Pooled(cfg, trace[i])
  {
    if i == 0 {
      assert Owing(cfg, trace[0]) == {};
    } else {
      PooledAlways(cfg, trace, actions, i - 1);
      assert StepAt(cfg, trace, actions, i - 1);
      PooledByStep(cfg, trace[i - 1], actions[i - 1]);
    }
  }

  /** So whenever no call is in progress the count is under the threshold, and every burst that
      reached it had its circuit opened. */
  lemma QuietMeansUnderThreshold(cfg: Config, trace: seq<Cluster>, actions: seq<Action>, i: nat)
    requires cfg.Valid() && Execution(cfg, trace, actions) && Start(trace[0]) && i < |trace|
    requires trace[i].tasks == map[]
    ensures FailCount(trace[i].keys) < cfg.limits.threshold
    ensures trace[i].published == trace[i].reached
  {
    PooledAlways(cfg, trace, actions, i);
    assert Owing(cfg, trace[i]) == {};
  }

  // ------------------------------------------------------------------ leaving OPEN

  ghost predicate WinsProbe(c: Cluster, a: Action) {
    a.Command? && a.task in c.tasks && c.tasks[a.task].todo.Claim? && c.keys.probe.None?
  }

  /** The two ways out of OPEN other than a replica's own timer. */
  ghost predicate Frees(c: Cluster, a: Action, r: nat) {
    || (WinsProbe(c, a) && c.tasks[a.task].replica == r)
    || (a.BeginSuccess? && a.replica == r)
  }

  /** The PROBE key goes, by expiry or DEL. */
  ghost predicate ProbeEnds(cfg: Config, c: Cluster, a: Action)
    requires Enabled(cfg, c, a)
  {
    c.keys.probe.Some? && Next(cfg, c, a).keys.probe.None?
  }

  /** A SET NX that finds no key moves its replica to HALF_OPEN with the probe free; one that finds a key
      changes no replica. */
  lemma OnlyTheWinnerProbes(cfg: Config, c: Cluster, t: nat)
    requires Enabled(cfg, c, Command(t)) && c.tasks[t].todo.Claim?
    ensures var c', r := Next(cfg, c, Command(t)), c.tasks[t].replica;
            && c'.keys.probe.Some?
            && (forall q <- c.replicas :: q != r ==> c'.replicas[q] == c.replicas[q])
            && if WinsProbe(c, Command(t))
               then c'.replicas[r].breaker.state.HALF_OPEN? && !c'.replicas[r].breaker.probing
               else c'.replicas == c.replicas
    ensures c.replicas[c.tasks[t].replica].breaker.state.OPEN? ==>
              (WinsProbe(c, Command(t))
               <==> !Next(cfg, c, Command(t)).replicas[c.tasks[t].replica].breaker.state.OPEN?)
  {
  }

  lemma {:induction false} KeyEndsInBetween(cfg: Config, trace: seq<Cluster>, actions: seq<Action>, i: nat, j: nat)
    returns (k: nat)
    requires Execution(cfg, trace, actions) && i < j < |trace|
    requires trace[i].keys.probe.Some? && trace[j].keys.probe.None?
    ensures i <= k < j && StepAt(cfg, trace, actions, k) && ProbeEnds(cfg, trace[k], actions[k])
  {
    k := j - 1;
    assert StepAt(cfg, trace, actions, k);
    if trace[k].keys.probe.None? {
      k := KeyEndsInBetween(cfg, trace, actions, i, k);
    }
  }

  /** One winner per probe key: between two steps at which a replica wins PROBE, the first one's key ends. */
  lemma OneWinnerPerProbeKey(cfg: Config, trace: seq<Cluster>, actions: seq<Action>, i: nat, j: nat) returns (k: nat)
    requires Execution(cfg, trace, actions) && i < j < |actions|
    requires WinsProbe(trace[i], actions[i]) && WinsProbe(trace[j], actions[j])
    ensures i < k < j && StepAt(cfg, trace, actions, k) && ProbeEnds(cfg, trace[k], actions[k])
  {
    assert StepAt(cfg, trace, actions, i);
    OnlyTheWinnerProbes(cfg, trace[i], actions[i].task);
    k := KeyEndsInBetween(cfg, trace, actions, i + 1, j);
  }

  /** A replica's own timer takes it out of OPEN: when a request asks it, or a sync that read no OPEN key
      looks at it, a cooldown or more after it was stamped. */
  ghost predicate TimerRunsOut(cfg: Config, c: Cluster, a: Action, r: nat) {
    && r in c.replicas && c.now - c.replicas[r].breaker.openedAt >= cfg.limits.cooldown
    && match a
       case Arrive(q, _) => q == r
       case Command(t) => t in c.tasks && c.tasks[t].replica == r && c.tasks[t].todo.Resolve? && !c.tasks[t].todo.open
       case _ => false
  }

  /** Exactly how a replica leaves OPEN: it wins PROBE, it records a success, or its own timer runs out. */
  lemma LeavesOpenExactly(cfg: Config, c: Cluster, a: Action, r: nat)
    requires Enabled(cfg, c, a) && r in c.replicas && c.replicas[r].breaker.state.OPEN?
    ensures r in Next(cfg, c, a).replicas
    ensures !Next(cfg, c, a).replicas[r].breaker.state.OPEN? <==> Frees(c, a, r) || TimerRunsOut(cfg, c, a, r)
  {
  }

  /** Replica `r` is OPEN and its timer was started at `since` or later. */
  ghost predicate OpenSince(c: Cluster, r: nat, since: real) {
    && r in c.replicas
    && c.replicas[r].breaker.state.OPEN?
    && since <= c.replicas[r].breaker.openedAt <= c.now
  }

  lemma StaysOpenByStep(cfg: Config, c: Cluster, a: Action, r: nat, since: real)
    requires Enabled(cfg, c, a) && OpenSince(c, r, since) && c.now - since < cfg.limits.cooldown
    requires !Frees(c, a, r)
    ensures OpenSince(Next(cfg, c, a), r, since)
  {
  }

  lemma {:induction false} TimeMovesOn(cfg: Config, trace: seq<Cluster>, actions: seq<Action>, i: nat, j: nat)
    requires Execution(cfg, trace, actions) && i <= j < |trace|
    ensures trace[i].now <= trace[j].now
  {
    if i < j {
      TimeMovesOn(cfg, trace, actions, i, j - 1);
      assert StepAt(cfg, trace, actions, j - 1);
    }
  }

  lemma {:induction false} StaysOpen(cfg: Config, trace: seq<Cluster>, actions: seq<Action>, i: nat, j: nat,
                                     r: nat, since: real)
    requires Execution(cfg, trace, actions) && i <= j < |trace|
    requires OpenSince(trace[i], r, since) && trace[j].now - since < cfg.limits.cooldown
    requires forall k :: i <= k < j ==> !Frees(trace[k], actions[k], r)
    ensures OpenSince(trace[j], r, since)
  {
    if i < j {
      TimeMovesOn(cfg, trace, actions, j - 1, j);
      StaysOpen(cfg, trace, actions, i, j - 1, r, since);
      assert StepAt(cfg, trace, actions, j - 1);
      StaysOpenByStep(cfg, trace[j - 1], actions[j - 1], r, since);
    }
  }

  /** A replica whose refresh saw OPEN (step `i`) admits nothing until a later refresh, a probe it
      wins or a success it records: neither failures, nor other replicas, nor keys expiring let a
      request through. The request prepared at `p` may take until `cooldown - refresh` later to
      reach the deployment; past that the replica's own timer can run out first. */
  lemma NothingAdmittedAfterRefreshSawOpen(cfg: Config, trace: seq<Cluster>, actions: seq<Action>,
                                           i: nat, j: nat, r: nat)
    requires Execution(cfg, trace, actions) && i < j < |actions|
    requires actions[i].Command? && StepAt(cfg, trace, actions, i)
    requires var task := trace[i].tasks[actions[i].task]; task.replica == r && task.todo.Resolve? && task.todo.open
    requires forall k :: i < k < j ==> !Frees(trace[k], actions[k], r)
    requires actions[j].Arrive? && actions[j].replica == r && StepAt(cfg, trace, actions, j)
    requires trace[j].replicas[r].syncedAt.value <= trace[i].now
    requires trace[j].now - actions[j].prepared + cfg.refresh <= cfg.limits.cooldown
    ensures !Admits(cfg.limits, trace[j].replicas[r].breaker, trace[j].now)
  {
    assert OpenSince(trace[i + 1], r, trace[i].now);
    StaysOpen(cfg, trace, actions, i + 1, j, r, trace[i].now);
  }

  function NotOpen(c: Cluster): set<nat> {
    set r | r in c.replicas && !c.replicas[r].breaker.state.OPEN?
  }

  /** Every OPEN timer was started at `since` or later. */
  ghost predicate TimersSince(c: Cluster, since: real) {
    forall r <- c.replicas :: c.replicas[r].breaker.state.OPEN? ==> OpenSince(c, r, since)
  }

  lemma ReplicasByStep(cfg: Config, c: Cluster, a: Action)
    requires Enabled(cfg, c, a)
    ensures Next(cfg, c, a).replicas.Keys == c.replicas.Keys
  {
  }

  lemma TimerByStep(cfg: Config, c: Cluster, a: Action, r: nat, since: real)
    requires Enabled(cfg, c, a) && since <= c.now && r in c.replicas
    requires c.replicas[r].breaker.state.OPEN? ==> OpenSince(c, r, since)
    ensures var c' := Next(cfg, c, a);
            r in c'.replicas && (c'.replicas[r].breaker.state.OPEN? ==> OpenSince(c', r, since))
  {
    hide ClaimProbe, SetOpen, Incr, ExpireFails, DelFailsAndProbe, FailCount, FailsRead, Live;
  }

  lemma TimersByStep(cfg: Config, c: Cluster, a: Action, since: real)
    requires Enabled(cfg, c, a) && TimersSince(c, since) && since <= c.now
    ensures TimersSince(Next(cfg, c, a), since)
  {
    ReplicasByStep(cfg, c, a);
    hide Next, Enabled, OpenSince;
    forall r | r in c.replicas
      ensures Next(cfg, c, a).replicas[r].breaker.state.OPEN? ==> OpenSince(Next(cfg, c, a), r, since)
    {
      TimerByStep(cfg, c, a, r, since);
    }
  }

  lemma WonByStep(cfg: Config, c: Cluster, a: Action)
    requires Enabled(cfg, c, a)
    ensures Next(cfg, c, a).won == c.won + Flag(WinsProbe(c, a))
  {
  }

  lemma OnlyTheFreedLeave(cfg: Config, c: Cluster, a: Action, r: nat, since: real)
    requires Enabled(cfg, c, a) && TimersSince(c, since) && since <= c.now && c.now - since < cfg.limits.cooldown
    requires !Frees(c, a, r) && r in NotOpen(Next(cfg, c, a))
    ensures r in NotOpen(c)
  {
    if r !in NotOpen(c) && r in c.replicas {
      StaysOpenByStep(cfg, c, a, r, since);
    }
  }

  lemma OneMoreNotOpen(cfg: Config, c: Cluster, a: Action, since: real)
    requires Enabled(cfg, c, a) && TimersSince(c, since) && since <= c.now && c.now - since < cfg.limits.cooldown
    requires !a.BeginSuccess?
    ensures |NotOpen(Next(cfg, c, a))| <= |NotOpen(c)| + Flag(WinsProbe(c, a))
  {
    var before, after := NotOpen(c), NotOpen(Next(cfg, c, a));
    forall r | r in after && !Frees(c, a, r)
      ensures r in before
    {
      OnlyTheFreedLeave(cfg, c, a, r, since);
    }
    hide Next, Enabled, TimersSince, NotOpen;
    if WinsProbe(c, a) {
      NoMoreThanOneMore(after, before, c.tasks[a.task].replica);
    } else {
      SubsetIsSmaller(after, before);
    }
  }

  lemma {:induction false} SubsetIsSmaller(a: set<nat>, b: set<nat>)
    requires a <= b
    ensures |a| <= |b|
  {
    if a != {} {
      var x :| x in a;
      SubsetIsSmaller(a - {x}, b - {x});
    }
  }

  lemma NoMoreThanOneMore(a: set<nat>, b: set<nat>, x: nat)
    requires a <= b + {x}
    ensures |a| <= |b| + 1
  {
    SubsetIsSmaller(a, b + {x});
  }

  lemma {:induction false} NotOpenAreWinners(cfg: Config, trace: seq<Cluster>, actions: seq<Action>,
                                             i: nat, j: nat, since: real)
    requires Execution(cfg, trace, actions) && i <= j < |trace|
    requires since <= trace[i].now && trace[j].now - since < cfg.limits.cooldown
    requires TimersSince(trace[i], since) && NotOpen(trace[i]) == {}
    requires forall k :: i <= k < j ==> !actions[k].BeginSuccess?
    ensures TimersSince(trace[j], since)
    ensures |NotOpen(trace[j])| <= trace[j].won - trace[i].won
  {
    if i < j {
      TimeMovesOn(cfg, trace, actions, i, j - 1);
      TimeMovesOn(cfg, trace, actions, j - 1, j);
      NotOpenAreWinners(cfg, trace, actions, i, j - 1, since);
      assert StepAt(cfg, trace, actions, j - 1);
      TimersByStep(cfg, trace[j - 1], actions[j - 1], since);
      WonByStep(cfg, trace[j - 1], actions[j - 1]);
      OneMoreNotOpen(cfg, trace[j - 1], actions[j - 1], since);
    }
  }

  /** With every timer started at `since` or later and less than a cooldown ago, from a state where all
      replicas are OPEN and until a success is recorded, at most as many have left OPEN as probe keys came
      to an end, plus the one that holds the present key: one, while no probe key ends. */
  lemma OneReplicaProbesPerKey(cfg: Config, trace: seq<Cluster>, actions: seq<Action>, i: nat, j: nat, since: real)
    requires cfg.Valid() && Execution(cfg, trace, actions) && Start(trace[0]) && i <= j < |trace|
    requires since <= trace[i].now && trace[j].now - since < cfg.limits.cooldown
    requires TimersSince(trace[i], since) && NotOpen(trace[i]) == {} && trace[i].keys.probe.None?
    requires forall k :: i <= k < j ==> !actions[k].BeginSuccess?
    ensures |NotOpen(trace[j])| <= trace[j].ended - trace[i].ended + Flag(trace[j].keys.probe.Some?)
    ensures trace[j].ended == trace[i].ended ==> |NotOpen(trace[j])| <= 1
  {
    PooledAlways(cfg, trace, actions, i);
    PooledAlways(cfg, trace, actions, j);
    NotOpenAreWinners(cfg, trace, actions, i, j, since);
  }

  /** Nothing lets a second replica out at this step: no success, no probe key that ends, no OPEN replica's
      timer. */
  ghost predicate Orderly(cfg: Config, c: Cluster, a: Action)
    requires Enabled(cfg, c, a)
  {
    && !a.BeginSuccess? && !ProbeEnds(cfg, c, a)
    && forall r <- c.replicas :: c.replicas[r].breaker.state.OPEN? ==> !TimerRunsOut(cfg, c, a, r)
  }

  lemma OrderlyStep(cfg: Config, c: Cluster, a: Action)
    requires Enabled(cfg, c, a) && Orderly(cfg, c, a) && |NotOpen(c)| <= Flag(c.keys.probe.Some?)
    ensures |NotOpen(Next(cfg, c, a))| <= Flag(Next(cfg, c, a).keys.probe.Some?)
  {
    var before, after := NotOpen(c), NotOpen(Next(cfg, c, a));
    forall r | r in after && !Frees(c, a, r)
      ensures r in before
    {
      ReplicasByStep(cfg, c, a);
      if r !in before {
        LeavesOpenExactly(cfg, c, a, r);
      }
    }
    if WinsProbe(c, a) {
      OnlyTheWinnerProbes(cfg, c, a.task);
      NoMoreThanOneMore(after, before, c.tasks[a.task].replica);
    } else {
      SubsetIsSmaller(after, before);
    }
  }

  /** When the cooldown ends one replica probes and the rest wait, whatever the timers say, unless a
      probe key ends unanswered or a replica's own timer runs out: those are the only two ways for a second
      one to leave OPEN before a success. OverlappingProbes and ProbeKeyRunsOut show one each. */
  lemma {:induction false} OneReplicaProbes(cfg: Config, trace: seq<Cluster>, actions: seq<Action>, i: nat, j: nat)
    requires Execution(cfg, trace, actions) && i <= j < |trace| && NotOpen(trace[i]) == {}
    requires forall k :: i <= k < j ==> StepAt(cfg, trace, actions, k) && Orderly(cfg, trace[k], actions[k])
    ensures |NotOpen(trace[j])| <= Flag(trace[j].keys.probe.Some?)
  {
    if i < j {
      OneReplicaProbes(cfg, trace, actions, i, j - 1);
      OrderlyStep(cfg, trace[j - 1], actions[j - 1]);
    }
  }

  // ------------------------------------------------------------------ how long the keys live

  /** A call makes its SET OPEN. */
  predicate SetsOpen(c: Cluster, a: Action) {
    a.Command? && a.task in c.tasks && c.tasks[a.task].todo.SetOpenKey?
  }

  /** A success's DEL, the only one that names OPEN; PROBE goes with `_open`'s too. */
  predicate DropsOpen(c: Cluster, a: Action) {
    a.Command? && a.task in c.tasks && c.tasks[a.task].todo.DelAll?
  }

  predicate DropsProbe(c: Cluster, a: Action) {
    a.Command? && a.task in c.tasks && (c.tasks[a.task].todo.DelAll? || c.tasks[a.task].todo.DelKeys?)
  }

  /** What is left at `now` of a key that lives until `until`. */
  function Alive(until: Option<real>, now: real): Option<real> {
    if until.Some? && now < until.value then until else None
  }

  ghost predicate KeysAlive(c: Cluster) {
    Alive(c.keys.open, c.now) == c.keys.open && Alive(c.keys.probe, c.now) == c.keys.probe
  }

  lemma OpenByCommand(cfg: Config, c: Cluster, t: nat)
    requires Enabled(cfg, c, Command(t))
    ensures var c', a := Run(cfg, c, t), Command(t);
            && c'.now == c.now
            && c'.keys.open == if SetsOpen(c, a) then Some(c.now + cfg.OpenTtl() as real)
                               else if DropsOpen(c, a) then None else c.keys.open
  {
    hide Adopted, Observed, FailCount, FailsRead, AtLeastOne;
  }

  lemma OpenByStep(cfg: Config, c: Cluster, a: Action, ttl: int)
    requires Enabled(cfg, c, a) && KeysAlive(c) && WholeSeconds(cfg.limits.cooldown, ttl)
    ensures var c' := Next(cfg, c, a);
            && c.now <= c'.now
            && c'.keys.open == if SetsOpen(c, a) then Some(c'.now + ttl as real)
                               else if DropsOpen(c, a) then None else Alive(c.keys.open, c'.now)
  {
    hide Run, AtLeastOne, WholeSeconds;
    AtLeastOneIs(cfg.limits.cooldown, ttl);
    if a.Command? {
      OpenByCommand(cfg, c, a.task);
    }
  }

  lemma ProbeByCommand(cfg: Config, c: Cluster, t: nat)
    requires Enabled(cfg, c, Command(t))
    ensures var c', a := Run(cfg, c, t), Command(t);
            && c'.now == c.now
            && c'.keys.probe == if WinsProbe(c, a) then Some(c.now + cfg.ProbeTtl() as real)
                                else if DropsProbe(c, a) then None else c.keys.probe
  {
    hide Adopted, Observed, FailCount, FailsRead, AtLeastOne;
  }

  lemma ProbeByStep(cfg: Config, c: Cluster, a: Action, ttl: int)
    requires Enabled(cfg, c, a) && KeysAlive(c) && WholeSeconds(cfg.probeSeconds, ttl)
    ensures var c' := Next(cfg, c, a);
            && c.now <= c'.now
            && c'.keys.probe == if WinsProbe(c, a) then Some(c'.now + ttl as real)
                                else if DropsProbe(c, a) then None else Alive(c.keys.probe, c'.now)
  {
    hide Run, AtLeastOne, WholeSeconds;
    AtLeastOneIs(cfg.probeSeconds, ttl);
    if a.Command? {
      ProbeByCommand(cfg, c, a.task);
    }
  }

  lemma StepKeepsAlive(cfg: Config, c: Cluster, a: Action)
    requires Enabled(cfg, c, a) && KeysAlive(c)
    ensures KeysAlive(Next(cfg, c, a))
  {
    hide Next, Enabled;
    OpenByStep(cfg, c, a, cfg.OpenTtl());
    ProbeByStep(cfg, c, a, cfg.ProbeTtl());
  }

  lemma {:induction false} KeysStayAlive(cfg: Config, trace: seq<Cluster>, actions: seq<Action>, n: nat)
    requires Execution(cfg, trace, actions) && Start(trace[0]) && n < |trace|
    ensures KeysAlive(trace[n])
  {
    if n > 0 {
      KeysStayAlive(cfg, trace, actions, n - 1);
      assert StepAt(cfg, trace, actions, n - 1);
      StepKeepsAlive(cfg, trace[n - 1], actions[n - 1]);
    }
  }

  /** Step `i` set OPEN, nothing has deleted it since, and its seconds have not passed at state `n`. */
  ghost predicate OpenSetAt(trace: seq<Cluster>, actions: seq<Action>, i: nat, n: nat, ttl: int)
    requires |trace| == |actions| + 1
  {
    && i < n < |trace| && SetsOpen(trace[i], actions[i]) && trace[n].now < trace[i].now + ttl as real
    && forall k :: i < k < n ==> !DropsOpen(trace[k], actions[k])
  }

  lemma {:induction false} OpenWasSet(cfg: Config, trace: seq<Cluster>, actions: seq<Action>, n: nat, ttl: int)
    returns (i: nat)
    requires Execution(cfg, trace, actions) && Start(trace[0]) && n < |trace|
    requires WholeSeconds(cfg.limits.cooldown, ttl) && trace[n].keys.open.Some?
    ensures OpenSetAt(trace, actions, i, n, ttl) && trace[n].keys.open == Some(trace[i].now + ttl as real)
  {
    hide Next, Enabled, SetsOpen, DropsOpen;
    assert n > 0;
    i := n - 1;
    assert StepAt(cfg, trace, actions, n - 1);
    KeysStayAlive(cfg, trace, actions, n - 1);
    OpenByStep(cfg, trace[n - 1], actions[n - 1], ttl);
    SettingTakesNoTime(cfg, trace[n - 1], actions[n - 1]);
    if !SetsOpen(trace[n - 1], actions[n - 1]) {
      i := OpenWasSet(cfg, trace, actions, n - 1, ttl);
    }
  }

  lemma SettingTakesNoTime(cfg: Config, c: Cluster, a: Action)
    requires Enabled(cfg, c, a)
    ensures SetsOpen(c, a) || WinsProbe(c, a) ==> Next(cfg, c, a).now == c.now
  {
    hide Adopted, Observed, Incr, FailCount, FailsRead, Trips, Failed, Asked;
  }

  lemma {:induction false} OpenStaysSet(cfg: Config, trace: seq<Cluster>, actions: seq<Action>, i: nat, n: nat,
                                        ttl: int)
    requires Execution(cfg, trace, actions) && Start(trace[0])
    requires WholeSeconds(cfg.limits.cooldown, ttl) && OpenSetAt(trace, actions, i, n, ttl)
    ensures trace[n].keys.open.Some? && trace[i].now + ttl as real <= trace[n].keys.open.value
  {
    hide Next, Enabled, SetsOpen, DropsOpen;
    assert StepAt(cfg, trace, actions, n - 1);
    KeysStayAlive(cfg, trace, actions, n - 1);
    OpenByStep(cfg, trace[n - 1], actions[n - 1], ttl);
    TimeMovesOn(cfg, trace, actions, i, n - 1);
    if i < n - 1 {
      OpenStaysSet(cfg, trace, actions, i, n - 1, ttl);
    }
  }

  /** The OPEN key is the cooldown: it is there exactly from a SET OPEN on, for the whole seconds of the
      cooldown, unless a success deletes it first. */
  lemma OpenKeyExactly(cfg: Config, trace: seq<Cluster>, actions: seq<Action>, n: nat, ttl: int)
    requires Execution(cfg, trace, actions) && Start(trace[0]) && n < |trace| && WholeSeconds(cfg.limits.cooldown, ttl)
    ensures trace[n].keys.open.Some? <==> exists i: nat :: OpenSetAt(trace, actions, i, n, ttl)
  {
    if trace[n].keys.open.Some? {
      var i := OpenWasSet(cfg, trace, actions, n, ttl);
    }
    if i: nat :| OpenSetAt(trace, actions, i, n, ttl) {
      OpenStaysSet(cfg, trace, actions, i, n, ttl);
    }
  }

  ghost predicate ProbeWonAt(trace: seq<Cluster>, actions: seq<Action>, i: nat, n: nat, ttl: int)
    requires |trace| == |actions| + 1
  {
    && i < n < |trace| && WinsProbe(trace[i], actions[i]) && trace[n].now < trace[i].now + ttl as real
    && forall k :: i < k < n ==> !DropsProbe(trace[k], actions[k])
  }

  lemma {:induction false} ProbeWasWon(cfg: Config, trace: seq<Cluster>, actions: seq<Action>, n: nat, ttl: int)
    returns (i: nat)
    requires Execution(cfg, trace, actions) && Start(trace[0]) && n < |trace|
    requires WholeSeconds(cfg.probeSeconds, ttl) && trace[n].keys.probe.Some?
    ensures ProbeWonAt(trace, actions, i, n, ttl) && trace[n].keys.probe == Some(trace[i].now + ttl as real)
  {
    hide Next, Enabled, WinsProbe, DropsProbe;
    assert n > 0;
    i := n - 1;
    assert StepAt(cfg, trace, actions, n - 1);
    KeysStayAlive(cfg, trace, actions, n - 1);
    ProbeByStep(cfg, trace[n - 1], actions[n - 1], ttl);
    SettingTakesNoTime(cfg, trace[n - 1], actions[n - 1]);
    if !WinsProbe(trace[n - 1], actions[n - 1]) {
      i := ProbeWasWon(cfg, trace, actions, n - 1, ttl);
    }
  }

  lemma {:induction false} ProbeStaysWon(cfg: Config, trace: seq<Cluster>, actions: seq<Action>, i: nat, n: nat,
                                         ttl: int)
    requires Execution(cfg, trace, actions) && Start(trace[0])
    requires WholeSeconds(cfg.probeSeconds, ttl) && ProbeWonAt(trace, actions, i, n, ttl)
    ensures trace[n].keys.probe.Some? && trace[i].now + ttl as real <= trace[n].keys.probe.value
  {
    hide Next, Enabled, WinsProbe, DropsProbe;
    assert StepAt(cfg, trace, actions, n - 1);
    KeysStayAlive(cfg, trace, actions, n - 1);
    ProbeByStep(cfg, trace[n - 1], actions[n - 1], ttl);
    TimeMovesOn(cfg, trace, actions, i, n - 1);
    if i < n - 1 {
      ProbeStaysWon(cfg, trace, actions, i, n - 1, ttl);
    }
  }

  /** The right to probe is held exactly from the win on, for the whole seconds a probe may take, unless a
      success or a newly opened circuit ends it first. */
  lemma ProbeKeyExactly(cfg: Config, trace: seq<Cluster>, actions: seq<Action>, n: nat, ttl: int)
    requires Execution(cfg, trace, actions) && Start(trace[0]) && n < |trace| && WholeSeconds(cfg.probeSeconds, ttl)
    ensures trace[n].keys.probe.Some? <==> exists i: nat :: ProbeWonAt(trace, actions, i, n, ttl)
  {
    if trace[n].keys.probe.Some? {
      var i := ProbeWasWon(cfg, trace, actions, n, ttl);
    }
    if i: nat :| ProbeWonAt(trace, actions, i, n, ttl) {
      ProbeStaysWon(cfg, trace, actions, i, n, ttl);
    }
  }

  // ------------------------------------------------------------------ a second probe by the same replica

  ghost predicate Probing(c: Cluster, r: nat) {
    r in c.replicas && c.replicas[r].breaker.state.HALF_OPEN? && c.replicas[r].breaker.probing
  }

  /** The step of a sync at which a half-open replica takes its own state over again, with the pooled count:
      it read no OPEN key and some FAILS. */
  ghost predicate TakesOver(c: Cluster, a: Action, r: nat) {
    && a.Command? && a.task in c.tasks && c.tasks[a.task].replica == r
    && c.tasks[a.task].todo.Resolve? && !c.tasks[a.task].todo.open && c.tasks[a.task].todo.fails.Some?
  }

  /** Exactly when a replica with a probe in flight would let another request through: after it records a
      success, wins PROBE anew, or takes its own state over from the cluster, which frees the probe. */
  lemma SecondProbeExactly(cfg: Config, c: Cluster, a: Action, r: nat)
    requires Enabled(cfg, c, a) && Probing(c, r) && cfg.limits.cooldown > 0.0
    ensures r in Next(cfg, c, a).replicas
    ensures Admits(cfg.limits, Next(cfg, c, a).replicas[r].breaker, Next(cfg, c, a).now)
            <==> Frees(c, a, r) || TakesOver(c, a, r)
  {
    if a.Command? {
      CommandAtProbing(cfg, c, a.task, r);
      hide Run;
    }
  }

  lemma CommandAtProbing(cfg: Config, c: Cluster, t: nat, r: nat)
    requires Enabled(cfg, c, Command(t)) && Probing(c, r) && cfg.limits.cooldown > 0.0
    ensures r in Run(cfg, c, t).replicas
    ensures Admits(cfg.limits, Run(cfg, c, t).replicas[r].breaker, Run(cfg, c, t).now)
            <==> Frees(c, Command(t), r) || TakesOver(c, Command(t), r)
  {
    hide ClaimProbe, SetOpen, Incr, ExpireFails, DelFailsAndProbe, FailCount, FailsRead;
  }

  // ------------------------------------------------------------------ calls that run alone

  function Left(todo: Todo): nat {
    match todo
    case Count => 5
    case Expire(_) => 4
    case SetOpenKey(_) => 3
    case DelKeys(_) => 2
    case ReadOpen => 4
    case ReadFails(_) => 3
    case Resolve(_, _) => 2
    case _ => 1
  }

  /** The call carried to its end with nothing in between. */
  function RunOut(cfg: Config, c: Cluster, t: nat): Cluster
    requires t in c.tasks ==> c.tasks[t].replica in c.replicas
    decreases if t in c.tasks then Left(c.tasks[t].todo) else 0
  {
    if t in c.tasks then RunOut(cfg, Run(cfg, c, t), t) else c
  }

  /** Undisturbed, the protocol's calls do exactly what the object's methods do in one go. */
  lemma UndisturbedFailure(cfg: Config, c: Cluster, r: nat, t: nat)
    requires r in c.replicas && t !in c.tasks
    ensures var c' := RunOut(cfg, Next(cfg, c, BeginFailure(r, t)), t);
            var b := c.replicas[r].breaker;
            && c'.keys == FailureKeys(cfg, c.keys, Trips(cfg.limits, b, c.now), c.now)
            && c'.replicas == c.replicas[r := c.replicas[r].(breaker := FailureBreaker(cfg, c.keys, b, c.now))]
            && c'.tasks == c.tasks && c'.now == c.now
  {
    var c1 := Next(cfg, c, BeginFailure(r, t));
    var c2 := Run(cfg, c1, t);
    var c3 := Run(cfg, c2, t);
    assert RunOut(cfg, c1, t) == RunOut(cfg, c2, t) == RunOut(cfg, c3, t);
    if c1.tasks[t].todo.SetOpenKey? {
      assert c3.tasks == c.tasks;
    } else if t in c3.tasks {
      var c4 := Run(cfg, c3, t);
      var c5 := Run(cfg, c4, t);
      var c6 := Run(cfg, c5, t);
      assert RunOut(cfg, c3, t) == RunOut(cfg, c4, t) == RunOut(cfg, c5, t) == RunOut(cfg, c6, t);
      assert c6.tasks == c.tasks;
    } else {
      assert c3.tasks == c.tasks;
    }
  }

  lemma UndisturbedSync(cfg: Config, c: Cluster, r: nat, t: nat)
    requires r in c.replicas && t !in c.tasks
    requires var rep := c.replicas[r]; rep.syncedAt.Some? ==> c.now - rep.syncedAt.value >= cfg.refresh
    ensures var c' := RunOut(cfg, Next(cfg, c, BeginSync(r, t)), t);
            var b := c.replicas[r].breaker;
            && c'.keys == SyncedKeys(cfg, c.keys, c.keys, b, c.now)
            && c'.replicas == c.replicas[r := Replica(SyncedBreaker(cfg, c.keys, c.keys, b, c.now), Some(c.now))]
            && c'.tasks == c.tasks && c'.now == c.now
  {
    var c1 := Next(cfg, c, BeginSync(r, t));
    var c2 := Run(cfg, c1, t);
    var c3 := Run(cfg, c2, t);
    var c4 := Run(cfg, c3, t);
    assert RunOut(cfg, c1, t) == RunOut(cfg, c2, t) == RunOut(cfg, c3, t) == RunOut(cfg, c4, t);
    if t in c4.tasks {
      var c5 := Run(cfg, c4, t);
      assert RunOut(cfg, c4, t) == RunOut(cfg, c5, t);
      assert c5.tasks == c.tasks;
    } else {
      assert c4.tasks == c.tasks;
    }
  }

  // ------------------------------------------------------------------ two probes at once

  /** One more step at the end of an execution. */
  lemma Go(cfg: Config, trace: seq<Cluster>, actions: seq<Action>, a: Action)
    returns (trace': seq<Cluster>, actions': seq<Action>)
    requires Execution(cfg, trace, actions) && Enabled(cfg, Last(trace), a)
    ensures Execution(cfg, trace', actions') && trace'[0] == trace[0] && Last(trace') == Next(cfg, Last(trace), a)
    ensures trace <= trace' && actions' == actions + [a]
  {
    trace', actions' := trace + [Next(cfg, Last(trace), a)], actions + [a];
    forall i | 0 <= i < |actions'|
      ensures StepAt(cfg, trace', actions', i)
    {
      if i < |actions| {
        assert StepAt(cfg, trace, actions, i);
      }
    }
  }

  /** A call may run with nothing in between. */
  lemma {:induction false} GoUndisturbed(cfg: Config, trace: seq<Cluster>, actions: seq<Action>, t: nat)
    returns (trace': seq<Cluster>, actions': seq<Action>)
    requires Execution(cfg, trace, actions)
    requires t in Last(trace).tasks ==> Last(trace).tasks[t].replica in Last(trace).replicas
    ensures Execution(cfg, trace', actions') && trace'[0] == trace[0] && Last(trace') == RunOut(cfg, Last(trace), t)
    ensures trace <= trace' && actions <= actions'
    ensures forall k :: |actions| <= k < |actions'| ==> actions'[k] == Command(t)
    decreases if t in Last(trace).tasks then Left(Last(trace).tasks[t].todo) else 0
  {
    trace', actions' := trace, actions;
    if t in Last(trace).tasks {
      trace', actions' := Go(cfg, trace, actions, Command(t));
      trace', actions' := GoUndisturbed(cfg, trace', actions', t);
    }
  }

  /** The breakers of replicas 1 and 2 in a cluster with no call in progress. */
  ghost predicate Pair(c: Cluster, now: real, keys: Keys, one: Replica, two: Replica) {
    && c.now == now && c.keys == keys && c.tasks == map[]
    && 1 in c.replicas && 2 in c.replicas && c.replicas[1] == one && c.replicas[2] == two
  }

  const USUAL := Config(Limits(1, 30.0), 60.0, 1.0, 5.0)
  const LEARNT_AT_29 := Replica(Breaker(OPEN, 1, 29.0, false), Some(29.0))

  lemma OneOpensTwoLearns() returns (t: seq<Cluster>, a: seq<Action>)
    ensures Execution(USUAL, t, a) && Start(t[0])
    ensures Pair(Last(t), 29.0, Keys(None, Some(30.0), None), Replica(Breaker(OPEN, 1, 0.0, false), None), LEARNT_AT_29)
    ensures Last(t).replicas.Keys == {1, 2}
  {
    var idle := Replica(FRESH, None);
    t, a := [Cluster(0.0, NO_KEYS, map[1 := idle, 2 := idle], map[], 0, 0, 0, 0)], [];
    UndisturbedFailure(USUAL, Last(t), 1, 0);
    t, a := Go(USUAL, t, a, BeginFailure(1, 0));
    t, a := GoUndisturbed(USUAL, t, a, 0);
    t, a := Go(USUAL, t, a, Tick(29.0));
    UndisturbedSync(USUAL, Last(t), 2, 0);
    t, a := Go(USUAL, t, a, BeginSync(2, 0));
    t, a := GoUndisturbed(USUAL, t, a, 0);
  }

  lemma OneProbesUnclaimed(t0: seq<Cluster>, a0: seq<Action>) returns (t: seq<Cluster>, a: seq<Action>)
    requires Execution(USUAL, t0, a0)
    requires Pair(Last(t0), 29.0, Keys(None, Some(30.0), None), Replica(Breaker(OPEN, 1, 0.0, false), None),
                  LEARNT_AT_29)
    ensures Execution(USUAL, t, a) && t[0] == t0[0]
    ensures Pair(Last(t), 30.0, NO_KEYS, Replica(Breaker(HALF_OPEN, 1, 0.0, true), Some(30.0)), LEARNT_AT_29)
  {
    t, a := Go(USUAL, t0, a0, Tick(30.0));
    UndisturbedSync(USUAL, Last(t), 1, 0);
    t, a := Go(USUAL, t, a, BeginSync(1, 0));
    t, a := GoUndisturbed(USUAL, t, a, 0);
    t, a := Go(USUAL, t, a, Arrive(1, 30.0));
  }

  /** Two replicas probe at once when a timer runs out. Replica 1 opens the circuit at 0, replica 2 learns
      of it at 29; at 30 the key expires, replica 1 leaves OPEN on its own timer without claiming PROBE,
      replica 2 wins PROBE, and both send a request. */
  lemma OverlappingProbes() returns (t: seq<Cluster>, a: seq<Action>)
    ensures Execution(USUAL, t, a) && Start(t[0]) && Probing(Last(t), 1) && Probing(Last(t), 2)
  {
    t, a := OneOpensTwoLearns();
    t, a := OneProbesUnclaimed(t, a);
    UndisturbedSync(USUAL, Last(t), 2, 0);
    t, a := Go(USUAL, t, a, BeginSync(2, 0));
    t, a := GoUndisturbed(USUAL, t, a, 0);
    t, a := Go(USUAL, t, a, Arrive(2, 30.0));
  }

  /** The state at 29 with both replicas stamped then. */
  lemma BothLearn() returns (t: seq<Cluster>, a: seq<Action>)
    ensures Execution(USUAL, t, a) && Start(t[0])
    ensures Pair(Last(t), 29.0, Keys(None, Some(30.0), None), LEARNT_AT_29, LEARNT_AT_29)
    ensures Last(t).replicas.Keys == {1, 2}
  {
    t, a := OneOpensTwoLearns();
    UndisturbedSync(USUAL, Last(t), 1, 0);
    t, a := Go(USUAL, t, a, BeginSync(1, 0));
    t, a := GoUndisturbed(USUAL, t, a, 0);
  }

  /** Replica `r` finds the OPEN key gone, wins PROBE and sends its probe. */
  lemma WinsAndProbes(t0: seq<Cluster>, a0: seq<Action>, r: nat) returns (t: seq<Cluster>, a: seq<Action>)
    requires Execution(USUAL, t0, a0) && Last(t0).keys == NO_KEYS && Last(t0).tasks == map[]
    requires r in Last(t0).replicas && Last(t0).replicas[r] == LEARNT_AT_29 && 30.0 <= Last(t0).now < 59.0
    ensures Execution(USUAL, t, a) && t0 <= t && Probing(Last(t), r) && Last(t).now == Last(t0).now
    ensures Last(t).keys == Keys(None, None, Some(Last(t0).now + 5.0)) && Last(t).tasks == map[]
    ensures Last(t).replicas.Keys == Last(t0).replicas.Keys
    ensures forall q <- Last(t0).replicas :: q != r ==> Last(t).replicas[q] == Last(t0).replicas[q]
    ensures a0 <= a && forall k :: |a0| <= k < |a| ==> !a[k].BeginSuccess?
  {
    UndisturbedSync(USUAL, Last(t0), r, 0);
    t, a := Go(USUAL, t0, a0, BeginSync(r, 0));
    t, a := GoUndisturbed(USUAL, t, a, 0);
    t, a := Go(USUAL, t, a, Arrive(r, Last(t0).now));
  }

  /** Two replicas probe at once when a probe key ends before the probe is answered, although every timer
      was stamped six seconds ago: PROBE lives five seconds, a request may take longer. */
  lemma ProbeKeyRunsOut() returns (t: seq<Cluster>, a: seq<Action>, i: nat)
    ensures Execution(USUAL, t, a) && Start(t[0]) && i < |t|
    ensures TimersSince(t[i], 29.0) && t[i].now == 29.0 && Last(t).now == 35.0
    ensures NotOpen(t[i]) == {} && t[i].keys.probe.None? && forall k :: i <= k < |a| ==> !a[k].BeginSuccess?
    ensures Probing(Last(t), 1) && Probing(Last(t), 2)
  {
    t, a := BothLearn();
    i := |t| - 1;
    t, a := Go(USUAL, t, a, Tick(30.0));
    t, a := WinsAndProbes(t, a, 1);
    t, a := Go(USUAL, t, a, Tick(35.0));
    t, a := WinsAndProbes(t, a, 2);
  }

  // ------------------------------------------------------------------ two probes of one replica

  const PAIRED := Config(Limits(2, 30.0), 60.0, 1.0, 5.0)

  lemma OneFailureCounted() returns (t: seq<Cluster>, a: seq<Action>)
    ensures Execution(PAIRED, t, a) && Start(t[0])
    ensures Pair(Last(t), 0.0, Keys(Some(Counter(1, Some(60.0))), None, None),
                 Replica(Breaker(CLOSED, 1, 0.0, false), None), Replica(FRESH, None))
  {
    var idle := Replica(FRESH, None);
    t, a := [Cluster(0.0, NO_KEYS, map[1 := idle, 2 := idle], map[], 0, 0, 0, 0)], [];
    UndisturbedFailure(PAIRED, Last(t), 1, 0);
    t, a := Go(PAIRED, t, a, BeginFailure(1, 0));
    t, a := GoUndisturbed(PAIRED, t, a, 0);
  }

  /** Replica 1 opens the circuit with its second failure, at 0. */
  lemma TwoFailuresOpen(t0: seq<Cluster>, a0: seq<Action>) returns (t: seq<Cluster>, a: seq<Action>)
    requires Execution(PAIRED, t0, a0)
    requires Pair(Last(t0), 0.0, Keys(Some(Counter(1, Some(60.0))), None, None),
                  Replica(Breaker(CLOSED, 1, 0.0, false), None), Replica(FRESH, None))
    ensures Execution(PAIRED, t, a) && t[0] == t0[0]
    ensures Pair(Last(t), 0.0, Keys(None, Some(30.0), None), Replica(Breaker(OPEN, 2, 0.0, false), None),
                 Replica(FRESH, None))
  {
    UndisturbedFailure(PAIRED, Last(t0), 1, 0);
    t, a := Go(PAIRED, t0, a0, BeginFailure(1, 0));
    t, a := GoUndisturbed(PAIRED, t, a, 0);
  }

  /** Its refresh at 29 stamps it anew. */
  lemma StampedAt29(t0: seq<Cluster>, a0: seq<Action>) returns (t: seq<Cluster>, a: seq<Action>)
    requires Execution(PAIRED, t0, a0)
    requires Pair(Last(t0), 0.0, Keys(None, Some(30.0), None), Replica(Breaker(OPEN, 2, 0.0, false), None),
                  Replica(FRESH, None))
    ensures Execution(PAIRED, t, a) && t[0] == t0[0]
    ensures Pair(Last(t), 29.0, Keys(None, Some(30.0), None), Replica(Breaker(OPEN, 2, 29.0, false), Some(29.0)),
                 Replica(FRESH, None))
  {
    t, a := Go(PAIRED, t0, a0, Tick(29.0));
    UndisturbedSync(PAIRED, Last(t), 1, 0);
    t, a := Go(PAIRED, t, a, BeginSync(1, 0));
    t, a := GoUndisturbed(PAIRED, t, a, 0);
  }

  /** At 30 the OPEN key is gone; replica 1 wins PROBE and probes. */
  lemma ProbesAt30(t0: seq<Cluster>, a0: seq<Action>) returns (t: seq<Cluster>, a: seq<Action>)
    requires Execution(PAIRED, t0, a0)
    requires Pair(Last(t0), 29.0, Keys(None, Some(30.0), None), Replica(Breaker(OPEN, 2, 29.0, false), Some(29.0)),
                  Replica(FRESH, None))
    ensures Execution(PAIRED, t, a) && t[0] == t0[0]
    ensures Pair(Last(t), 30.0, Keys(None, None, Some(35.0)), Replica(Breaker(HALF_OPEN, 0, 0.0, true), Some(30.0)),
                 Replica(FRESH, None))
  {
    t, a := Go(PAIRED, t0, a0, Tick(30.0));
    UndisturbedSync(PAIRED, Last(t), 1, 0);
    t, a := Go(PAIRED, t, a, BeginSync(1, 0));
    t, a := GoUndisturbed(PAIRED, t, a, 0);
    t, a := Go(PAIRED, t, a, Arrive(1, 30.0));
  }

  /** A request that replica 2 sent before fails and is counted. */
  lemma AFailureIsCounted(t0: seq<Cluster>, a0: seq<Action>) returns (t: seq<Cluster>, a: seq<Action>)
    requires Execution(PAIRED, t0, a0)
    requires Pair(Last(t0), 30.0, Keys(None, None, Some(35.0)), Replica(Breaker(HALF_OPEN, 0, 0.0, true), Some(30.0)),
                  Replica(FRESH, None))
    ensures Execution(PAIRED, t, a) && t[0] == t0[0]
    ensures Pair(Last(t), 30.0, Keys(Some(Counter(1, Some(90.0))), None, Some(35.0)),
                 Replica(Breaker(HALF_OPEN, 0, 0.0, true), Some(30.0)), Replica(Breaker(CLOSED, 1, 0.0, false), None))
  {
    UndisturbedFailure(PAIRED, Last(t0), 2, 0);
    t, a := Go(PAIRED, t0, a0, BeginFailure(2, 0));
    t, a := GoUndisturbed(PAIRED, t, a, 0);
  }

  /** One replica sends two probes under one PROBE key: it probes at 30 and holds the key until 35, a failure
      elsewhere is counted, and its refresh at 31 takes HALF_OPEN over again and frees the probe. */
  lemma OneReplicaProbesTwice() returns (t: seq<Cluster>, a: seq<Action>, i: nat)
    ensures Execution(PAIRED, t, a) && Start(t[0]) && i < |t|
    ensures Probing(t[i], 1) && t[i].now == 30.0 && t[i].keys.probe == Some(35.0)
    ensures Last(t).now == 31.0 && Last(t).keys.probe == Some(35.0) && 1 in Last(t).replicas
    ensures forall k :: i <= k < |a| ==> !a[k].BeginSuccess? && !a[k].BeginFailure?
    ensures Admits(PAIRED.limits, Last(t).replicas[1].breaker, Last(t).now)
  {
    t, a := OneFailureCounted();
    t, a := TwoFailuresOpen(t, a);
    t, a := StampedAt29(t, a);
    t, a := ProbesAt30(t, a);
    t, a := AFailureIsCounted(t, a);
    i := |t| - 1;
    t, a := Go(PAIRED, t, a, Tick(31.0));
    UndisturbedSync(PAIRED, Last(t), 1, 0);
    t, a := Go(PAIRED, t, a, BeginSync(1, 0));
    t, a := GoUndisturbed(PAIRED, t, a, 0);
  }
}

/** The per-replica circuit breaker of app/gateway/circuit_breaker.py.

    `Breaker` is the value of the object's fields; `CircuitBreaker` is the object itself, whose
    methods are proved against the functions on that value. Each clock reading is an argument. */
module CircuitBreakers {

  datatype BreakerState = CLOSED | OPEN | HALF_OPEN

  /** The constructor's arguments, which never change. */
  datatype Limits = Limits(threshold: nat, cooldown: real) {
    predicate Valid() {
      threshold >= 1
    }
  }

  datatype Breaker = Breaker(state: BreakerState, failures: nat, openedAt: real, probing: bool)

  const FRESH := Breaker(CLOSED, 0, 0.0, false)

  /** The `state` getter: reading the state may end a cooldown. */
  function Observed(k: Limits, b: Breaker, now: real): Breaker {
    if b.state.OPEN? && now - b.openedAt >= k.cooldown then b.(state := HALF_OPEN, probing := false) else b
  }

  predicate Admits(k: Limits, b: Breaker, now: real) {
    var o := Observed(k, b, now);
    o.state.CLOSED? || (o.state.HALF_OPEN? && !o.probing)
  }

  function Asked(k: Limits, b: Breaker, now: real): Breaker {
    var o := Observed(k, b, now);
    if o.state.HALF_OPEN? then o.(probing := true) else o
  }

  function Adopted(k: Limits, b: Breaker, state: BreakerState, failures: nat, now: real): Breaker {
    match state
    case CLOSED => b.(state := CLOSED, failures := failures)
    case OPEN => Breaker(OPEN, failures, now, false)
    case HALF_OPEN => Breaker(HALF_OPEN, failures, now - k.cooldown, false)
  }

  function Succeeded(b: Breaker): Breaker {
    b.(state := CLOSED, failures := 0, probing := false)
  }

  predicate Trips(k: Limits, b: Breaker, now: real) {
    var o := Observed(k, b, now);
    o.state.HALF_OPEN? || (o.state.CLOSED? && b.failures + 1 >= k.threshold)
  }

  function Failed(k: Limits, b: Breaker, now: real): Breaker {
    if Trips(k, b, now) then Breaker(OPEN, b.failures + 1, now, false)
    else Observed(k, b, now).(failures := b.failures + 1)
  }

  class CircuitBreaker {
    const limits: Limits
    var state: BreakerState
    var failures: nat
    var openedAt: real
    var probing: bool

    constructor (limits: Limits)
      requires limits.Valid()
      ensures this.limits == limits && Value() == FRESH
    {
      this.limits := limits;
      state, failures, openedAt, probing := CLOSED, 0, 0.0, false;
    }

    function Value(): Breaker
      reads this
    {
      Breaker(state, failures, openedAt, probing)
    }

    method State(now: real) returns (s: BreakerState)
      modifies this
      ensures Value() == Observed(limits, old(Value()), now) && s == state
    {
      if state.OPEN? && now - openedAt >= limits.cooldown {
        state := HALF_OPEN;
        probing := false;
      }
      s := state;
    }

    method AllowRequest(now: real) returns (admitted: bool)
      modifies this
      ensures admitted == Admits(limits, old(Value()), now)
      ensures Value() == Asked(limits, old(Value()), now)
    {
      var s := State(now);
      if s.CLOSED? {
        return true;
      }
      if s.HALF_OPEN? && !probing {
        probing := true;
        return true;
      }
      return false;
    }

    method Adopt(newState: BreakerState, consecutiveFailures: nat, now: real)
      modifies this
      ensures Value() == Adopted(limits, old(Value()), newState, consecutiveFailures, now)
    {
      state := newState;
      failures := consecutiveFailures;
      if newState.OPEN? {
        openedAt := now;
        probing := false;
      } else if newState.HALF_OPEN? {
        openedAt := now - limits.cooldown;
        probing := false;
      }
    }

    method RecordSuccess()
      modifies this
      ensures Value() == Succeeded(old(Value()))
    {
      state, failures, probing := CLOSED, 0, false;
    }

    method RecordFailure(now: real) returns (tripped: bool)
      modifies this
      ensures tripped == Trips(limits, old(Value()), now)
      ensures Value() == Failed(limits, old(Value()), now)
    {
      failures := failures + 1;
      var s := State(now);
      if s.HALF_OPEN? || (state.CLOSED? && failures >= limits.threshold) {
        state := OPEN;
        openedAt := now;
        probing := false;
        return true;
      }
      return false;
    }
  }

  // ------------------------------------------------------------------ whole histories

  /** What can happen to a breaker; `Adoption` is the state a cluster pushes into it. */
  datatype Event =
    | Ask(at: real)
    | Success(at: real)
    | Failure(at: real)
    | Read(at: real)
    | Adoption(at: real, pushed: BreakerState, pooled: nat)

  function Step(k: Limits, b: Breaker, e: Event): Breaker {
    match e
    case Ask(t) => Asked(k, b, t)
    case Success(_) => Succeeded(b)
    case Failure(t) => Failed(k, b, t)
    case Read(t) => Observed(k, b, t)
    case Adoption(t, state, failures) => Adopted(k, b, state, failures, t)
  }

  function After(k: Limits, events: seq<Event>): Breaker {
    if events == [] then FRESH else Step(k, After(k, Front(events)), Last(events))
  }

  function Front<T>(s: seq<T>): seq<T>
    requires s != []
  {
    s[..|s| - 1]
  }

  function Last<T>(s: seq<T>): T
    requires s != []
  {
    s[|s| - 1]
  }

  ghost predicate InOrder(events: seq<Event>) {
    forall i, j :: 0 <= i <= j < |events| ==> events[i].at <= events[j].at
  }

  /** The history alone, with no notion of a state: failures since the last success, or since the count was
      taken over ... */
  function FailuresInARow(events: seq<Event>): nat {
    if events == [] then 0
    else match Last(events)
      case Success(_) => 0
      case Failure(_) => FailuresInARow(Front(events)) + 1
      case Adoption(_, _, pooled) => pooled
      case _ => FailuresInARow(Front(events))
  }

  /** ... whether the circuit was closed again since it last tripped or was taken over as not closed ... */
  predicate Tripped(k: Limits, events: seq<Event>) {
    events != [] &&
    match Last(events)
    case Success(_) => false
    case Failure(_) => Tripped(k, Front(events)) || FailuresInARow(events) >= k.threshold
    case Adoption(_, pushed, _) => !pushed.CLOSED?
    case _ => Tripped(k, Front(events))
  }

  /** ... when it last opened: at the failure that completed the row, again at every failure that came a
      full cooldown after the last opening, and when OPEN was taken over (HALF_OPEN counts as opened a
      cooldown before) ... */
  function LastOpening(k: Limits, events: seq<Event>): real
    decreases |events|, 0
  {
    if events == [] then 0.0
    else
      match Last(events)
      case Failure(t) => if Reopens(k, Front(events), t) then t else LastOpening(k, Front(events))
      case Adoption(t, OPEN, _) => t
      case Adoption(t, HALF_OPEN, _) => t - k.cooldown
      case _ => LastOpening(k, Front(events))
  }

  predicate Reopens(k: Limits, before: seq<Event>, t: real)
    decreases |before|, 1
  {
    if Tripped(k, before) then t - LastOpening(k, before) >= k.cooldown
    else FailuresInARow(before) + 1 >= k.threshold
  }

  /** ... and whether a probe was asked for since then, once the cooldown was over. */
  function ProbeTaken(k: Limits, events: seq<Event>): bool {
    if events == [] then false
    else
      var before := Front(events);
      match Last(events)
      case Success(_) => false
      case Failure(t) => !Reopens(k, before, t) && ProbeTaken(k, before)
      case Ask(t) =>
        ProbeTaken(k, before) || (Tripped(k, before) && t - LastOpening(k, before) >= k.cooldown)
      case Read(_) => ProbeTaken(k, before)
      case Adoption(_, pushed, _) => pushed.CLOSED? && ProbeTaken(k, before)
  }

  /** What the object is when the history says these things. */
  ghost predicate Reflects(k: Limits, b: Breaker, events: seq<Event>) {
    && b.failures == FailuresInARow(events)
    && (b.state.CLOSED? <==> !Tripped(k, events))
    && (!b.state.CLOSED? ==> b.openedAt == LastOpening(k, events))
    && (b.state.HALF_OPEN? ==> events != [] && Last(events).at - b.openedAt >= k.cooldown)
    && b.probing == ProbeTaken(k, events)
    && (b.probing ==> !b.state.OPEN?)
  }

  lemma StepReflects(k: Limits, b: Breaker, events: seq<Event>, e: Event)
    requires Reflects(k, b, events) && (events != [] ==> Last(events).at <= e.at)
    ensures Reflects(k, Step(k, b, e), events + [e])
  {
    assert Front(events + [e]) == events && Last(events + [e]) == e;
  }

  /** The whole object is a function of that history. */
  lemma {:induction false} StateFromHistory(k: Limits, events: seq<Event>)
    requires InOrder(events)
    ensures Reflects(k, After(k, events), events)
  {
    if events != [] {
      var front, last := Front(events), Last(events);
      StateFromHistory(k, front);
      assert front != [] ==> Last(front).at <= last.at;
      StepReflects(k, After(k, front), front, last);
      assert events == front + [last];
    }
  }

  /** While nothing is taken over the circuit is closed exactly when fewer than `threshold` failures came
      in a row, and a probe in flight means it is half-open. */
  lemma {:induction false} ClosedIffFewFailures(k: Limits, events: seq<Event>)
    requires k.Valid() && InOrder(events) && forall e <- events :: !e.Adoption?
    ensures Tripped(k, events) <==> FailuresInARow(events) >= k.threshold
    ensures After(k, events).state.CLOSED? <==> FailuresInARow(events) < k.threshold
    ensures ProbeTaken(k, events) ==> After(k, events).state.HALF_OPEN?
  {
    StateFromHistory(k, events);
    if events != [] {
      ClosedIffFewFailures(k, Front(events));
      StateFromHistory(k, Front(events));
      assert Last(events) in events;
    }
  }

  /** So the breaker admits a request if and only if it is not tripped, or the cooldown since the last
      opening is over and no probe was taken since. */
  lemma AdmitsExactly(k: Limits, events: seq<Event>, now: real)
    requires InOrder(events + [Ask(now)])
    ensures Admits(k, After(k, events), now)
       <==> !Tripped(k, events) || (now - LastOpening(k, events) >= k.cooldown && !ProbeTaken(k, events))
  {
    var all := events + [Ask(now)];
    assert forall i :: 0 <= i < |events| ==> events[i] == all[i];
    StateFromHistory(k, events);
    if events != [] {
      assert Last(events) == all[|events| - 1] && all[|events|] == Ask(now);
      assert Last(events).at <= now;
    }
  }

  /** One admission per half-open spell: after a probe was let through, however long nothing is heard of
      it, no request is admitted again until a success or a failure is recorded or a state is taken over. */
  lemma {:induction false} UnansweredProbeBlocks(k: Limits, b: Breaker, events: seq<Event>)
    requires b.state.HALF_OPEN? && b.probing
    requires forall e :: e in events ==> e.Ask? || e.Read?
    ensures Replayed(k, b, events) == b
    ensures forall now :: !Admits(k, Replayed(k, b, events), now)
  {
    if events != [] {
      UnansweredProbeBlocks(k, b, Front(events));
    }
  }

  function Replayed(k: Limits, b: Breaker, events: seq<Event>): Breaker {
    if events == [] then b else Step(k, Replayed(k, b, Front(events)), Last(events))
  }
}

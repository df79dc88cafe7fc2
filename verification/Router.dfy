/** The fallback chain of app/gateway/router.py: `complete`, `open_stream` and their retry loops.

    Everything outside the router — clock readings, provider replies, what other replicas make of a
    failure — is an infinite tape of ticks read left to right, one tick per interaction. A statement
    for every tape is a statement for every behaviour of the outside world. */
module Router {
  import opened Wrappers
  import opened CircuitBreakers

  datatype Usage = Usage(promptTokens: nat, completionTokens: nat)

  datatype Pricing = Pricing(inputPerMtok: real, outputPerMtok: real)

  datatype Deployment = Deployment(name: string, provider: string, model: string, maxRetries: nat,
                                   pricing: Option<Pricing>)

  datatype Response = Response(content: string, usage: Usage, model: string, finishReason: string)

  /** How a provider call can end. `Rejected` is a ProviderError that is not retryable; `Ended` is a
      stream that stops before its first token. */
  datatype Reply = Answer(response: Response) | TimedOut | Unavailable | Rejected | Crashed | Ended

  datatype Outcome = OkAnswer | Error | Timeout | SkippedCircuitOpen | ClientError | StreamInterrupted

  datatype Attempt = Attempt(deployment: string, outcome: Outcome)

  /** One interaction. `pooled` is what the shared failure count says after this replica's failure:
      Some(n) when the cluster's n failures reach the threshold (app/gateway/breaker_cluster.py:137-145),
      always None without a cluster. */
  datatype Tick = Tick(now: real, reply: string -> Reply, pooled: Option<nat>)

  type Tape = nat -> Tick

  ghost predicate Forward(w: Tape) {
    forall i: nat, j: nat :: i <= j ==> w(i).now <= w(j).now
  }

  ghost predicate NoCluster(w: Tape) {
    forall i: nat :: w(i).pooled == None
  }

  /** `complete` counts an answer as a success at once; `open_stream` leaves that to the relay. */
  datatype Mode = Whole | Streamed

  /** A provider call that ended, and when. */
  datatype Call = Call(deployment: string, at: real)

  /** The router's state while it walks a chain: every breaker, the place on the tape, the attempts
      logged for this request, and (history) the provider calls made so far. */
  datatype Walk = Walk(breakers: map<string, Breaker>, pos: nat, log: seq<Attempt>, calls: seq<Call>)

  datatype Verdict =
    | Served(deployment: Deployment, response: Response)
    | Refused
    | Unregistered
    | MovedOn

  datatype Result =
    | Routed(deployment: Deployment, response: Response, attempts: seq<Attempt>, cost: real)
    | UnknownModel
    | ClientRequestError(attempts: seq<Attempt>)
    | AllProvidersFailed(attempts: seq<Attempt>)

  function BreakerOf(breakers: map<string, Breaker>, name: string): Breaker {
    if name in breakers then breakers[name] else FRESH
  }

  predicate Fails(r: Reply) {
    !r.Answer? && !r.Rejected?
  }

  function FailureOutcome(r: Reply): Outcome {
    if r.TimedOut? then Timeout else Error
  }

  /** `_failed`: the local breaker counts it, then the pooled count may open the circuit. */
  function FailedShared(k: Limits, b: Breaker, tick: Tick): Breaker {
    var local := Failed(k, b, tick.now);
    if !Trips(k, b, tick.now) && tick.pooled.Some? then Adopted(k, local, OPEN, tick.pooled.value, tick.now)
    else local
  }

  function Noted(s: Walk, name: string, b: Breaker, outcome: Outcome, now: real): Walk {
    Walk(s.breakers[name := b], s.pos + 1, s.log + [Attempt(name, outcome)], s.calls + [Call(name, now)])
  }

  /** One failed call and the reading of the breaker's state that follows it. */
  function AfterFailure(k: Limits, w: Tape, dep: Deployment, s: Walk): Walk {
    var b := FailedShared(k, BreakerOf(s.breakers, dep.name), w(s.pos));
    var noted := Noted(s, dep.name, b, FailureOutcome(w(s.pos).reply(dep.name)), w(s.pos).now);
    noted.(breakers := s.breakers[dep.name := Observed(k, b, w(s.pos + 1).now)], pos := s.pos + 2)
  }

  /** The retry loop with `left` retries after this call. */
  function Tries(k: Limits, mode: Mode, w: Tape, dep: Deployment, left: nat, s: Walk): (Walk, Verdict)
    decreases left
  {
    var b := BreakerOf(s.breakers, dep.name);
    match w(s.pos).reply(dep.name)
    case Answer(r) =>
      (Noted(s, dep.name, if mode.Whole? then Succeeded(b) else b, OkAnswer, w(s.pos).now), Served(dep, r))
    case Rejected =>
      (Noted(s, dep.name, Succeeded(b), ClientError, w(s.pos).now), Refused)
    case _ =>
      var next := AfterFailure(k, w, dep, s);
      if left == 0 || !next.breakers[dep.name].state.CLOSED? then (next, MovedOn)
      else Tries(k, mode, w, dep, left - 1, next)
  }

  function Visit(k: Limits, providers: set<string>, mode: Mode, w: Tape, dep: Deployment, s: Walk): (Walk, Verdict) {
    var b := BreakerOf(s.breakers, dep.name);
    var asked := s.(breakers := s.breakers[dep.name := Asked(k, b, w(s.pos).now)], pos := s.pos + 1);
    if !Admits(k, b, w(s.pos).now) then
      (asked.(log := s.log + [Attempt(dep.name, SkippedCircuitOpen)]), MovedOn)
    else if dep.provider !in providers then (asked, Unregistered)
    else Tries(k, mode, w, dep, dep.maxRetries, asked)
  }

  function Chain(k: Limits, providers: set<string>, mode: Mode, w: Tape, chain: seq<Deployment>, s: Walk)
    : (Walk, Verdict)
  {
    if chain == [] then (s, MovedOn)
    else
      var (s', v) := Visit(k, providers, mode, w, chain[0], s);
      if v.MovedOn? then Chain(k, providers, mode, w, chain[1..], s') else (s', v)
  }

  function ComputeCost(dep: Deployment, usage: Usage, listPrice: (string, Usage) -> real): real {
    match dep.pricing
    case Some(p) =>
      (usage.promptTokens as real * p.inputPerMtok + usage.completionTokens as real * p.outputPerMtok) / 1000000.0
    case None => listPrice(dep.model, usage)
  }

  class LLMRouter {
    const limits: Limits
    const providers: set<string>
    const routes: map<string, seq<Deployment>>
    const listPrice: (string, Usage) -> real
    var breakers: map<string, CircuitBreaker>

    ghost predicate Valid()
      reads this, breakers.Values
    {
      && limits.Valid()
      && (forall n <- breakers :: breakers[n].limits == limits)
      && (forall m <- breakers, n <- breakers :: m != n ==> breakers[m] != breakers[n])
    }

    ghost function Values(): map<string, Breaker>
      reads this, breakers.Values
    {
      map n | n in breakers :: breakers[n].Value()
    }

    constructor (limits: Limits, providers: set<string>, routes: map<string, seq<Deployment>>,
                 listPrice: (string, Usage) -> real)
      requires limits.Valid()
      ensures Valid() && Values() == map[] && breakers == map[]
    {
      this.limits, this.providers, this.routes, this.listPrice := limits, providers, routes, listPrice;
      breakers := map[];
    }

    /** `_breaker`: a deployment gets its breaker on first use. */
    method Breaker(name: string) returns (b: CircuitBreaker)
      requires Valid()
      modifies this
      ensures Valid() && name in breakers && b == breakers[name] && b.limits == limits
      ensures breakers == old(breakers)[name := b]
      ensures Values() == old(Values())[name := BreakerOf(old(Values()), name)]
      ensures fresh(breakers.Values - old(breakers.Values))
    {
      if name !in breakers {
        var created := new CircuitBreaker(limits);
        breakers := breakers[name := created];
      }
      b := breakers[name];
    }

    /** `_breaker` followed by `allow_request`. */
    method Admit(name: string, now: real) returns (b: CircuitBreaker, admitted: bool)
      requires Valid()
      modifies this, breakers.Values
      ensures Valid() && name in breakers && b == breakers[name]
      ensures fresh(breakers.Values - old(breakers.Values))
      ensures admitted == Admits(limits, BreakerOf(old(Values()), name), now)
      ensures Values() == old(Values())[name := Asked(limits, BreakerOf(old(Values()), name), now)]
    {
      hide Admits, Asked;
      b := Breaker(name);
      assert Values()[name] == b.Value();
      admitted := b.AllowRequest(now);
    }

    /** `_succeeded`. */
    method Success(name: string, breaker: CircuitBreaker)
      requires Valid() && name in breakers && breakers[name] == breaker
      modifies breaker
      ensures Valid() && Values() == old(Values())[name := Succeeded(old(Values())[name])]
    {
      breaker.RecordSuccess();
    }

    /** `_failed`: the breaker's own count, then what the other replicas know. */
    method Failed(w: Tape, pos: nat, breaker: CircuitBreaker)
      requires limits.Valid() && breaker.limits == limits
      modifies breaker
      ensures breaker.Value() == FailedShared(limits, old(breaker.Value()), w(pos))
    {
      var tripped := breaker.RecordFailure(w(pos).now);
      if !tripped && w(pos).pooled.Some? {
        breaker.Adopt(OPEN, w(pos).pooled.value, w(pos).now);
      }
    }

    /** `_failed`, then the reading of the state that decides whether to go on. */
    method Failure(w: Tape, pos: nat, name: string, breaker: CircuitBreaker) returns (state: BreakerState)
      requires Valid() && name in breakers && breakers[name] == breaker
      modifies breaker
      ensures Valid() && state == Values()[name].state
      ensures Values() == old(Values())[name := Observed(limits, FailedShared(limits, old(Values())[name], w(pos)),
                                                         w(pos + 1).now)]
    {
      hide FailedShared, Observed;
      Failed(w, pos, breaker);
      state := breaker.State(w(pos + 1).now);
    }

    /** `_call_with_retries` (Whole) and `_open_with_retries` (Streamed): one deployment's turn. */
    method CallWithRetries(mode: Mode, w: Tape, pos: nat, dep: Deployment, breaker: CircuitBreaker,
                           log: seq<Attempt>, ghost calls: seq<Call>)
      returns (verdict: Verdict, pos': nat, log': seq<Attempt>, ghost calls': seq<Call>)
      requires Valid() && dep.name in breakers && breakers[dep.name] == breaker
      modifies breaker
      ensures Valid()
      ensures dep.provider !in providers ==>
                verdict == Unregistered && pos' == pos && log' == log && calls' == calls && Values() == old(Values())
      ensures dep.provider in providers ==>
                (Walk(Values(), pos', log', calls'), verdict)
                == Tries(limits, mode, w, dep, dep.maxRetries, Walk(old(Values()), pos, log, calls))
    {
      hide Valid, Succeeded, FailedShared, Observed;
      pos', log', calls' := pos, log, calls;
      if dep.provider !in providers {
        return Unregistered, pos', log', calls';
      }
      ghost var s := Walk(Values(), pos, log, calls);
      ghost var whole := Tries(limits, mode, w, dep, dep.maxRetries, s);
      var retry := 0;
      while true
        invariant 0 <= retry <= dep.maxRetries && Valid()
        invariant s == Walk(Values(), pos', log', calls') && dep.name in s.breakers
        invariant whole == Tries(limits, mode, w, dep, dep.maxRetries - retry, s)
        decreases dep.maxRetries - retry
      {
        var reply, now := w(pos').reply(dep.name), w(pos').now;
        calls' := calls' + [Call(dep.name, now)];
        if reply.Answer? {
          if mode.Whole? {
            Success(dep.name, breaker);
          }
          log' := log' + [Attempt(dep.name, OkAnswer)];
          assert Values() == s.breakers[dep.name := if mode.Whole? then Succeeded(s.breakers[dep.name])
                                                    else s.breakers[dep.name]];
          return Served(dep, reply.response), pos' + 1, log', calls';
        }
        if reply.Rejected? {
          Success(dep.name, breaker);
          log' := log' + [Attempt(dep.name, ClientError)];
          assert Values() == s.breakers[dep.name := Succeeded(s.breakers[dep.name])];
          return Refused, pos' + 1, log', calls';
        }
        log' := log' + [Attempt(dep.name, FailureOutcome(reply))];
        var state := Failure(w, pos', dep.name, breaker);
        pos' := pos' + 2;
        s := AfterFailure(limits, w, dep, s);
        if !state.CLOSED? || retry == dep.maxRetries {
          return MovedOn, pos', log', calls';
        }
        retry := retry + 1;
      }
    }

    /** The walk `complete` and `open_stream` share. */
    method WalkChain(mode: Mode, w: Tape, pos: nat, chain: seq<Deployment>, ghost calls: seq<Call>)
      returns (verdict: Verdict, pos': nat, attempts: seq<Attempt>, ghost calls': seq<Call>)
      requires Valid()
      modifies this, breakers.Values
      ensures Valid() && fresh(breakers.Values - old(breakers.Values))
      ensures (Walk(Values(), pos', attempts, calls'), verdict)
           == Chain(limits, providers, mode, w, chain, Walk(old(Values()), pos, [], calls))
    {
      pos', attempts, calls', verdict := pos, [], calls, MovedOn;
      ghost var start := Walk(Values(), pos, [], calls);
      var position := 0;
      while position < |chain|
        invariant 0 <= position <= |chain| && Valid() && fresh(breakers.Values - old(breakers.Values))
        invariant verdict == MovedOn
        invariant Chain(limits, providers, mode, w, chain, start)
               == Chain(limits, providers, mode, w, chain[position..], Walk(Values(), pos', attempts, calls'))
      {
        verdict, pos', attempts, calls' := VisitOne(mode, w, pos', chain[position], attempts, calls');
        if !verdict.MovedOn? {
          return;
        }
        position := position + 1;
      }
    }

    /** One turn of the walk: skip a deployment whose circuit is open, call it otherwise. */
    method VisitOne(mode: Mode, w: Tape, pos: nat, dep: Deployment, log: seq<Attempt>, ghost calls: seq<Call>)
      returns (verdict: Verdict, pos': nat, log': seq<Attempt>, ghost calls': seq<Call>)
      requires Valid()
      modifies this, breakers.Values
      ensures Valid() && fresh(breakers.Values - old(breakers.Values))
      ensures (Walk(Values(), pos', log', calls'), verdict)
           == Visit(limits, providers, mode, w, dep, Walk(old(Values()), pos, log, calls))
    {
      var breaker, admitted := Admit(dep.name, w(pos).now);
      if admitted {
        verdict, pos', log', calls' := CallWithRetries(mode, w, pos + 1, dep, breaker, log, calls);
      } else {
        verdict, pos', log', calls' := MovedOn, pos + 1, log + [Attempt(dep.name, SkippedCircuitOpen)], calls;
      }
    }

    /** `complete`. */
    method Complete(model: string, w: Tape, pos: nat, ghost calls: seq<Call>)
      returns (result: Result, pos': nat, ghost calls': seq<Call>)
      requires Valid()
      modifies this, breakers.Values
      ensures Valid() && fresh(breakers.Values - old(breakers.Values))
      ensures model !in routes ==> result == UnknownModel && Values() == old(Values()) && pos' == pos
      ensures model in routes ==>
                var (s, v) := Chain(limits, providers, Whole, w, routes[model], Walk(old(Values()), pos, [], calls));
                && Values() == s.breakers && pos' == s.pos && calls' == s.calls
                && result == match v
                             case Served(d, r) => Routed(d, r, s.log, ComputeCost(d, r.usage, listPrice))
                             case Refused => ClientRequestError(s.log)
                             case Unregistered => UnknownModel
                             case MovedOn => AllProvidersFailed(s.log)
    {
      calls' := calls;
      if model !in routes {
        return UnknownModel, pos, calls';
      }
      var verdict, attempts;
      verdict, pos', attempts, calls' := WalkChain(Whole, w, pos, routes[model], calls);
      match verdict
      case Served(d, r) => result := Routed(d, r, attempts, ComputeCost(d, r.usage, listPrice));
      case Refused => result := ClientRequestError(attempts);
      case Unregistered => result := UnknownModel;
      case MovedOn => result := AllProvidersFailed(attempts);
    }
  }
}

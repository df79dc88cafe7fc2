/** What the router promises over whole requests and whole sequences of requests. */
module RouterProperties {
  import opened Wrappers
  import opened BreakerCluster
  import opened CircuitBreakers
  import opened Router

  // ------------------------------------------------------------------ the attempt log

  datatype Ending = Skipped | Exhausted | Answered | ClientFault | NotCalled

  predicate IsFailure(o: Outcome) {
    o.Error? || o.Timeout?
  }

  /** What one deployment's turn may leave in the log. */
  ghost predicate IsBlock(dep: Deployment, block: seq<Attempt>, e: Ending) {
    && (forall a <- block :: a.deployment == dep.name)
    && match e
       case Skipped => |block| == 1 && block[0].outcome == SkippedCircuitOpen
       case NotCalled => block == []
       case Exhausted => 1 <= |block| <= dep.maxRetries + 1 && forall a <- block :: IsFailure(a.outcome)
       case _ =>
         && 1 <= |block| <= dep.maxRetries + 1
         && Last(block).outcome == (if e.Answered? then OkAnswer else ClientError)
         && forall a <- Front(block) :: IsFailure(a.outcome)
  }

  function Flatten<T>(blocks: seq<seq<T>>): seq<T> {
    if blocks == [] then [] else blocks[0] + Flatten(blocks[1..])
  }

  /** The deployments a log says were called, call by call. */
  function CalledIn(log: seq<Attempt>): seq<string> {
    if log == [] then [] else CalledBy(log[0]) + CalledIn(log[1..])
  }

  function CalledBy(a: Attempt): seq<string> {
    if a.outcome.SkippedCircuitOpen? then [] else [a.deployment]
  }

  function Names(calls: seq<Call>): seq<string> {
    seq(|calls|, i requires 0 <= i < |calls| => calls[i].deployment)
  }

  lemma Associative<T>(a: seq<T>, b: seq<T>, c: seq<T>)
    ensures a + b + c == a + (b + c)
  {
  }

  lemma {:induction false} CalledInConcat(a: seq<Attempt>, b: seq<Attempt>)
    ensures CalledIn(a + b) == CalledIn(a) + CalledIn(b)
  {
    hide CalledBy;
    if a == [] {
      assert a + b == b;
    } else {
      CalledInConcat(a[1..], b);
      assert (a + b)[1..] == a[1..] + b && (a + b)[0] == a[0];
      assert CalledIn(a + b) == CalledBy(a[0]) + (CalledIn(a[1..]) + CalledIn(b));
      Associative(CalledBy(a[0]), CalledIn(a[1..]), CalledIn(b));
    }
  }

  ghost predicate Extends(s: Walk, s': Walk, block: seq<Attempt>) {
    && s'.log == s.log + block
    && Names(s'.calls) == Names(s.calls) + CalledIn(block)
  }

  lemma ExtendsTwice(s: Walk, mid: Walk, s': Walk, a: seq<Attempt>, b: seq<Attempt>)
    requires Extends(s, mid, a) && Extends(mid, s', b)
    ensures Extends(s, s', a + b)
  {
    hide CalledIn, Names;
    CalledInConcat(a, b);
    Associative(s.log, a, b);
    Associative(Names(s.calls), CalledIn(a), CalledIn(b));
  }

  lemma ExtendsByOne(s: Walk, s': Walk, a: Attempt, now: real)
    requires !a.outcome.SkippedCircuitOpen?
    requires s'.log == s.log + [a] && s'.calls == s.calls + [Call(a.deployment, now)]
    ensures Extends(s, s', [a])
  {
    assert CalledIn([a]) == [a.deployment];
  }

  function EndingOf(v: Verdict): Ending {
    match v
    case Served(_, _) => Answered
    case Refused => ClientFault
    case Unregistered => NotCalled
    case MovedOn => Exhausted
  }

  lemma OneEntryIsABlock(dep: Deployment, a: Attempt, v: Verdict)
    requires a.deployment == dep.name && !v.Unregistered?
    requires match v
             case Served(_, _) => a.outcome == OkAnswer
             case Refused => a.outcome == ClientError
             case _ => IsFailure(a.outcome)
    ensures IsBlock(dep, [a], EndingOf(v))
  {
  }

  lemma FailureLengthensBlock(dep: Deployment, a: Attempt, rest: seq<Attempt>, e: Ending)
    requires a.deployment == dep.name && IsFailure(a.outcome) && !e.Skipped? && !e.NotCalled?
    requires IsBlock(dep, rest, e) && |rest| <= dep.maxRetries
    ensures IsBlock(dep, [a] + rest, e)
  {
    assert e.Exhausted? || Front([a] + rest) == [a] + Front(rest);
  }

  lemma {:induction false} TriesLogOneBlock(k: Limits, mode: Mode, w: Tape, dep: Deployment, left: nat, s: Walk)
    returns (block: seq<Attempt>)
    requires left <= dep.maxRetries
    ensures var (s', v) := Tries(k, mode, w, dep, left, s);
            && Extends(s, s', block) && |block| <= left + 1
            && !v.Unregistered? && IsBlock(dep, block, EndingOf(v))
            && (v.Served? ==> v.deployment == dep)
    decreases left
  {
    hide IsBlock, Extends, CalledIn;
    var (s', v) := Tries(k, mode, w, dep, left, s);
    var reply := w(s.pos).reply(dep.name);
    var first := Attempt(dep.name, if reply.Answer? then OkAnswer else if reply.Rejected? then ClientError
                                   else FailureOutcome(reply));
    block := [first];
    if Fails(reply) {
      var next := AfterFailure(k, w, dep, s);
      ExtendsByOne(s, next, first, w(s.pos).now);
      if left > 0 && next.breakers[dep.name].state.CLOSED? {
        var rest := TriesLogOneBlock(k, mode, w, dep, left - 1, next);
        ExtendsTwice(s, next, s', [first], rest);
        FailureLengthensBlock(dep, first, rest, EndingOf(v));
        block := [first] + rest;
      } else {
        OneEntryIsABlock(dep, first, v);
      }
    } else {
      ExtendsByOne(s, s', first, w(s.pos).now);
      OneEntryIsABlock(dep, first, v);
    }
  }

  lemma VisitLogsOneBlock(k: Limits, providers: set<string>, mode: Mode, w: Tape, dep: Deployment, s: Walk)
    returns (block: seq<Attempt>, e: Ending)
    ensures var (s', v) := Visit(k, providers, mode, w, dep, s);
            && Extends(s, s', block) && IsBlock(dep, block, e)
            && e == (if !Admits(k, BreakerOf(s.breakers, dep.name), w(s.pos).now) then Skipped else EndingOf(v))
            && (v.Served? ==> v.deployment == dep)
            && (e.Skipped? ==> v.MovedOn?)
            && (v.Unregistered? ==> dep.provider !in providers)
  {
    hide Admits, Asked, Tries, BreakerOf;
    var b := BreakerOf(s.breakers, dep.name);
    if !Admits(k, b, w(s.pos).now) {
      block, e := [Attempt(dep.name, SkippedCircuitOpen)], Skipped;
      assert CalledIn(block) == [];
    } else if dep.provider !in providers {
      block, e := [], NotCalled;
    } else {
      var asked := s.(breakers := s.breakers[dep.name := Asked(k, b, w(s.pos).now)], pos := s.pos + 1);
      block := TriesLogOneBlock(k, mode, w, dep, dep.maxRetries, asked);
      e := EndingOf(Tries(k, mode, w, dep, dep.maxRetries, asked).1);
    }
  }

  /** How a log of `blocks` relates to the chain and to what the walk came back with: a skip or an
      exhausted turn is followed by the next deployment's block, any other block is the last, and
      a walk that moved on from every deployment has a block for every deployment. */
  ghost predicate FollowsChain(chain: seq<Deployment>, blocks: seq<seq<Attempt>>, endings: seq<Ending>, v: Verdict) {
    && |blocks| == |endings|
    && if blocks == [] then chain == [] && v.MovedOn?
       else
         && chain != [] && IsBlock(chain[0], blocks[0], endings[0])
         && if endings[0].Skipped? || endings[0].Exhausted? then
              FollowsChain(chain[1..], blocks[1..], endings[1..], v)
            else
              && |blocks| == 1 && !v.MovedOn? && endings[0] == EndingOf(v)
              && (v.Served? ==> v.deployment == chain[0])
  }

  /** The attempt log, exactly: one block per visited deployment, in chain order; the walk stops at
      the first block that is neither a skip nor exhausted, and only then; the provider calls made
      are the logged ones and no others, so nothing after the serving deployment is called. */
  lemma {:induction false} ChainLogsOneBlockEach(k: Limits, providers: set<string>, mode: Mode, w: Tape,
                                                 chain: seq<Deployment>, s: Walk)
    returns (blocks: seq<seq<Attempt>>, endings: seq<Ending>)
    ensures var (s', v) := Chain(k, providers, mode, w, chain, s);
            && Extends(s, s', Flatten(blocks)) && FollowsChain(chain, blocks, endings, v)
            && (v.Unregistered? ==> exists d <- chain :: d.provider !in providers)
  {
    if chain == [] {
      blocks, endings := [], [];
      assert Names(s.calls) + CalledIn([]) == Names(s.calls);
    } else {
      var block, e := VisitLogsOneBlock(k, providers, mode, w, chain[0], s);
      var (next, v) := Visit(k, providers, mode, w, chain[0], s);
      if v.MovedOn? {
        var more, rest := ChainLogsOneBlockEach(k, providers, mode, w, chain[1..], next);
        var (s', v') := Chain(k, providers, mode, w, chain[1..], next);
        blocks, endings := [block] + more, [e] + rest;
        assert blocks[1..] == more && endings[1..] == rest;
        ExtendsTwice(s, next, s', block, Flatten(more));
        if v'.Unregistered? {
          var d :| d in chain[1..] && d.provider !in providers;
          assert d in chain;
        }
      } else {
        blocks, endings := [block], [e];
        assert Flatten(blocks) == block + Flatten(blocks[1..]) == block;
      }
    }
  }

  // ------------------------------------------------------------------ what a turn leaves in the breaker

  /** The log says of a call what the provider replied. */
  predicate Logs(o: Outcome, r: Reply) {
    match o
    case OkAnswer => r.Answer?
    case ClientError => r.Rejected?
    case Timeout => r.TimedOut?
    case Error => r.Unavailable? || r.Crashed? || r.Ended?
    case _ => false
  }

  /** The breaker after `n` failed calls in a row, the first of them at `pos` on the tape: each is counted,
      and the state is read after it. */
  function LeftByFailures(k: Limits, w: Tape, pos: nat, n: nat, b: Breaker): Breaker {
    if n == 0 then b
    else
      var before, last := LeftByFailures(k, w, pos, n - 1, b), pos + 2 * (n - 1);
      Observed(k, FailedShared(k, before, w(last)), w(last + 1).now)
  }

  /** As after a success: closed, nothing counted, no probe in flight. */
  predicate Cleared(b: Breaker) {
    b.state.CLOSED? && b.failures == 0 && !b.probing
  }

  /** Entry `j` of the block logs the turn's call `j`. */
  predicate Logged(w: Tape, pos: nat, name: string, block: seq<Attempt>, j: nat)
    requires j < |block|
  {
    block[j].deployment == name && Logs(block[j].outcome, w(pos + 2 * j).reply(name))
  }

  /** Call `j` is a retry: the one before it failed and left the circuit closed. */
  predicate Retried(k: Limits, w: Tape, pos: nat, b: Breaker, block: seq<Attempt>, j: nat)
    requires 0 < j < |block|
  {
    IsFailure(block[j - 1].outcome) && LeftByFailures(k, w, pos, j, b).state.CLOSED?
  }

  /** What a turn with up to `left` retries makes of the breaker `b`, told from the block it logs. */
  ghost predicate Turn(k: Limits, mode: Mode, w: Tape, pos: nat, name: string, left: nat, b: Breaker, b': Breaker,
                       block: seq<Attempt>, e: Ending) {
    && 1 <= |block| <= left + 1
    && (forall j :: 0 <= j < |block| ==> Logged(w, pos, name, block, j))
    && (forall j :: 0 < j < |block| ==> Retried(k, w, pos, b, block, j))
    && match e
       case ClientFault => Last(block).outcome.ClientError? && Cleared(b')
       case Answered =>
         Last(block).outcome.OkAnswer?
         && (if mode.Whole? then Cleared(b') else b' == LeftByFailures(k, w, pos, |block| - 1, b))
       case Exhausted =>
         && IsFailure(Last(block).outcome) && b' == LeftByFailures(k, w, pos, |block|, b)
         && (|block| == left + 1 || !b'.state.CLOSED?)
       case _ => false
  }

  lemma {:induction false} LeftFromFront(k: Limits, w: Tape, pos: nat, n: nat, b: Breaker)
    ensures LeftByFailures(k, w, pos + 2, n, LeftByFailures(k, w, pos, 1, b)) == LeftByFailures(k, w, pos, n + 1, b)
  {
    hide FailedShared, Observed;
    if n > 0 {
      LeftFromFront(k, w, pos, n - 1, b);
      assert pos + 2 + 2 * (n - 1) == pos + 2 * n;
    }
  }

  lemma TurnGoesOn(k: Limits, mode: Mode, w: Tape, pos: nat, name: string, left: nat, b: Breaker, b': Breaker,
                   a: Attempt, rest: seq<Attempt>, e: Ending)
    requires a.deployment == name && IsFailure(a.outcome) && Logs(a.outcome, w(pos).reply(name))
    requires LeftByFailures(k, w, pos, 1, b).state.CLOSED?
    requires Turn(k, mode, w, pos + 2, name, left, LeftByFailures(k, w, pos, 1, b), b', rest, e)
    ensures Turn(k, mode, w, pos, name, left + 1, b, b', [a] + rest, e)
  {
    hide LeftByFailures, Logs, IsFailure, Cleared;
    var block, b1 := [a] + rest, LeftByFailures(k, w, pos, 1, b);
    LeftFromFront(k, w, pos, |rest|, b);
    LeftFromFront(k, w, pos, |rest| - 1, b);
    forall j | 0 <= j < |block|
      ensures Logged(w, pos, name, block, j)
    {
      assert j > 0 ==> Logged(w, pos + 2, name, rest, j - 1) && pos + 2 * j == pos + 2 + 2 * (j - 1);
    }
    forall j | 0 < j < |block|
      ensures Retried(k, w, pos, b, block, j)
    {
      if j > 1 {
        LeftFromFront(k, w, pos, j - 1, b);
        assert Retried(k, w, pos + 2, b1, rest, j - 1);
      }
    }
    assert Last(block) == Last(rest);
  }

  /** What a deployment's turn leaves in its breaker, exactly, from the block it logs: a client error clears
      it, and so does a whole answer, whatever state it was in; the first token of a stream leaves what the
      failures before it left, and so does a turn that is exhausted, which it is only when no retry is left
      or the circuit is no longer closed. No other breaker changes. */
  lemma {:induction false} TurnLeaves(k: Limits, mode: Mode, w: Tape, dep: Deployment, left: nat, s: Walk)
    returns (block: seq<Attempt>)
    ensures var (s', v) := Tries(k, mode, w, dep, left, s);
            && s'.log == s.log + block && !v.Unregistered?
            && Turn(k, mode, w, s.pos, dep.name, left, BreakerOf(s.breakers, dep.name),
                    BreakerOf(s'.breakers, dep.name), block, EndingOf(v))
            && s'.breakers == s.breakers[dep.name := BreakerOf(s'.breakers, dep.name)]
    decreases left
  {
    hide Turn, LeftByFailures, Logs;
    var (s', v) := Tries(k, mode, w, dep, left, s);
    var b, reply := BreakerOf(s.breakers, dep.name), w(s.pos).reply(dep.name);
    if Fails(reply) {
      var next, first := AfterFailure(k, w, dep, s), Attempt(dep.name, FailureOutcome(reply));
      OneFailure(k, mode, w, dep, left, s);
      block := [first];
      if left > 0 && next.breakers[dep.name].state.CLOSED? {
        var rest := TurnLeaves(k, mode, w, dep, left - 1, next);
        TurnGoesOn(k, mode, w, s.pos, dep.name, left - 1, b, BreakerOf(s'.breakers, dep.name), first, rest,
                   EndingOf(v));
        assert s.log + [first] + rest == s.log + ([first] + rest);
        block := [first] + rest;
      }
    } else {
      block := [Attempt(dep.name, if reply.Answer? then OkAnswer else ClientError)];
      OneDecision(k, mode, w, dep, left, s);
    }
  }

  lemma OneFailure(k: Limits, mode: Mode, w: Tape, dep: Deployment, left: nat, s: Walk)
    requires Fails(w(s.pos).reply(dep.name))
    ensures var b, next := BreakerOf(s.breakers, dep.name), AfterFailure(k, w, dep, s);
            var a := Attempt(dep.name, FailureOutcome(w(s.pos).reply(dep.name)));
            && next.log == s.log + [a] && next.pos == s.pos + 2
            && IsFailure(a.outcome) && Logs(a.outcome, w(s.pos).reply(dep.name))
            && next.breakers == s.breakers[dep.name := LeftByFailures(k, w, s.pos, 1, b)]
            && (left == 0 || !LeftByFailures(k, w, s.pos, 1, b).state.CLOSED? ==>
                  Turn(k, mode, w, s.pos, dep.name, left, b, LeftByFailures(k, w, s.pos, 1, b), [a], Exhausted))
  {
    hide Observed, FailedShared;
    assert LeftByFailures(k, w, s.pos, 0, BreakerOf(s.breakers, dep.name)) == BreakerOf(s.breakers, dep.name);
  }

  lemma OneDecision(k: Limits, mode: Mode, w: Tape, dep: Deployment, left: nat, s: Walk)
    requires !Fails(w(s.pos).reply(dep.name))
    ensures var (s', v) := Tries(k, mode, w, dep, left, s);
            var a := Attempt(dep.name, if w(s.pos).reply(dep.name).Answer? then OkAnswer else ClientError);
            && s'.log == s.log + [a] && !v.Unregistered?
            && Turn(k, mode, w, s.pos, dep.name, left, BreakerOf(s.breakers, dep.name),
                    BreakerOf(s'.breakers, dep.name), [a], EndingOf(v))
            && s'.breakers == s.breakers[dep.name := BreakerOf(s'.breakers, dep.name)]
  {
  }

  /** A deployment that is let through has a turn with all of its retries, a moment after it was asked. */
  lemma VisitIsATurn(k: Limits, providers: set<string>, mode: Mode, w: Tape, dep: Deployment, s: Walk)
    returns (block: seq<Attempt>)
    requires Admits(k, BreakerOf(s.breakers, dep.name), w(s.pos).now) && dep.provider in providers
    ensures var (s', v) := Visit(k, providers, mode, w, dep, s);
            && s'.log == s.log + block && !v.Unregistered? && (v.Served? ==> v.deployment == dep)
            && Turn(k, mode, w, s.pos + 1, dep.name, dep.maxRetries,
                    Asked(k, BreakerOf(s.breakers, dep.name), w(s.pos).now), BreakerOf(s'.breakers, dep.name), block,
                    EndingOf(v))
            && s'.breakers == s.breakers[dep.name := BreakerOf(s'.breakers, dep.name)]
  {
    hide Tries, Asked, Admits, Turn;
    var b := Asked(k, BreakerOf(s.breakers, dep.name), w(s.pos).now);
    var asked := s.(breakers := s.breakers[dep.name := b], pos := s.pos + 1);
    block := TurnLeaves(k, mode, w, dep, dep.maxRetries, asked);
    var _, _ := VisitLogsOneBlock(k, providers, mode, w, dep, s);
  }

  /** The visit at which a walk down a chain is decided, and the walk before it. */
  lemma {:induction false} DecidedAtOneVisit(k: Limits, providers: set<string>, mode: Mode, w: Tape,
                                             chain: seq<Deployment>, s: Walk)
    returns (i: nat, before: Walk)
    requires !Chain(k, providers, mode, w, chain, s).1.MovedOn?
    ensures i < |chain| && Chain(k, providers, mode, w, chain[..i], s) == (before, MovedOn)
    ensures Chain(k, providers, mode, w, chain, s) == Visit(k, providers, mode, w, chain[i], before)
  {
    hide Visit;
    var (next, v) := Visit(k, providers, mode, w, chain[0], s);
    if v.MovedOn? {
      i, before := DecidedAtOneVisit(k, providers, mode, w, chain[1..], next);
      assert chain[..i + 1][1..] == chain[1..][..i];
      i := i + 1;
    } else {
      i, before := 0, s;
    }
  }

  /** What a request leaves in the breaker of the deployment that decides it: cleared, if it answered in whole
      or refused the request as the client's fault; what the failures before its first token left, if it
      opened a stream. */
  lemma RequestLeaves(k: Limits, providers: set<string>, mode: Mode, w: Tape, chain: seq<Deployment>, s: Walk)
    returns (i: nat, before: Walk, block: seq<Attempt>)
    requires var v := Chain(k, providers, mode, w, chain, s).1; v.Served? || v.Refused?
    ensures i < |chain| && Chain(k, providers, mode, w, chain[..i], s) == (before, MovedOn)
    ensures var (s', v) := Chain(k, providers, mode, w, chain, s);
            var b' := BreakerOf(s'.breakers, chain[i].name);
            && s'.log == before.log + block && block != []
            && (v.Served? ==> v.deployment == chain[i] && Last(block).outcome.OkAnswer?)
            && (v.Refused? ==> Last(block).outcome.ClientError?)
            && (if v.Refused? || mode.Whole? then Cleared(b')
                else
                  b' == LeftByFailures(k, w, before.pos + 1, |block| - 1,
                                       Asked(k, BreakerOf(before.breakers, chain[i].name), w(before.pos).now)))
            && s'.breakers == before.breakers[chain[i].name := b']
  {
    hide Chain, Tries, Asked, LeftByFailures, Cleared;
    i, before := DecidedAtOneVisit(k, providers, mode, w, chain, s);
    block := VisitIsATurn(k, providers, mode, w, chain[i], before);
  }

  /** With the shared breaker behind it a failed call leaves what `record_failure` leaves, if the tape says of
      the pooled count what Redis says. */
  lemma FailedSharedIsTheClusters(cfg: Config, keys: Keys, b: Breaker, tick: Tick)
    requires var n := FailCount(keys) + 1;
             tick.pooled == if n >= cfg.limits.threshold then Some(n) else None
    ensures FailedShared(cfg.limits, b, tick) == FailureBreaker(cfg, keys, b, tick.now)
  {
  }

  // ------------------------------------------------------------------ what an answer costs

  /** A priced deployment charges the input price for a million prompt tokens, the output price for a million
      completion tokens, and nothing but the sum of its parts for any usage; any other deployment charges
      what the price list says. */
  lemma CostIsPerMillion(dep: Deployment, listPrice: (string, Usage) -> real, u: Usage, more: Usage)
    ensures dep.pricing.Some? ==>
              && ComputeCost(dep, Usage(1000000, 0), listPrice) == dep.pricing.value.inputPerMtok
              && ComputeCost(dep, Usage(0, 1000000), listPrice) == dep.pricing.value.outputPerMtok
              && ComputeCost(dep, Usage(u.promptTokens + more.promptTokens,
                                        u.completionTokens + more.completionTokens), listPrice)
                 == ComputeCost(dep, u, listPrice) + ComputeCost(dep, more, listPrice)
    ensures dep.pricing.None? ==> ComputeCost(dep, u, listPrice) == listPrice(dep.model, u)
  {
    if dep.pricing.Some? {
      var p := dep.pricing.value;
      TokensAdd(u.promptTokens, more.promptTokens, p.inputPerMtok);
      TokensAdd(u.completionTokens, more.completionTokens, p.outputPerMtok);
    }
  }

  lemma TokensAdd(a: nat, b: nat, price: real)
    ensures (a + b) as real * price == a as real * price + b as real * price
  {
    assert (a + b) as real == a as real + b as real;
  }

  // ------------------------------------------------------------------ how often a failing deployment is called

  /** A deployment whose circuit is CLOSED and that keeps failing gets exactly
      min(max_retries + 1, threshold - consecutive failures) calls in one visit. */
  lemma {:induction false} ClosedVisitCalls(k: Limits, mode: Mode, w: Tape, dep: Deployment, left: nat, s: Walk)
    requires NoCluster(w) && (forall i: nat :: Fails(w(i).reply(dep.name)))
    requires var b := BreakerOf(s.breakers, dep.name); b.state.CLOSED? && b.failures < k.threshold
    ensures var (s', v) := Tries(k, mode, w, dep, left, s);
            var room := k.threshold - BreakerOf(s.breakers, dep.name).failures;
            && v.MovedOn?
            && |s'.calls| == |s.calls| + (if left + 1 <= room then left + 1 else room)
            && (BreakerOf(s'.breakers, dep.name).state.CLOSED? <==> left + 1 < room)
    decreases left
  {
    var next := AfterFailure(k, w, dep, s);
    assert w(s.pos).pooled == None && Fails(w(s.pos).reply(dep.name));
    if left > 0 && next.breakers[dep.name].state.CLOSED? {
      ClosedVisitCalls(k, mode, w, dep, left - 1, next);
    }
  }

  /** One request: which route's chain, whole or streamed. */
  datatype Request = Request(mode: Mode, chain: seq<Deployment>)

  /** Requests served one after the other; the log starts anew with each. */
  function Serve(k: Limits, providers: set<string>, w: Tape, requests: seq<Request>, s: Walk): Walk {
    if requests == [] then s
    else
      var r := requests[0];
      Serve(k, providers, w, requests[1..], Chain(k, providers, r.mode, w, r.chain, s.(log := [])).0)
  }

  /** When the calls of deployment `d` ended. */
  function TimesOf(d: string, calls: seq<Call>): seq<real> {
    if calls == [] then []
    else TimesOf(d, Front(calls)) + (if Last(calls).deployment == d then [Last(calls).at] else [])
  }

  lemma TimesOfOneMore(d: string, calls: seq<Call>, c: Call)
    ensures TimesOf(d, calls + [c]) == TimesOf(d, calls) + (if c.deployment == d then [c.at] else [])
  {
    assert Front(calls + [c]) == calls;
  }

  /** From the opening on, every call comes a full cooldown after the one before it. */
  ghost predicate Spaced(k: Limits, times: seq<real>) {
    forall j :: 0 <= j < |times| && j >= k.threshold ==> SpacedAt(k, times, j)
  }

  ghost predicate SpacedAt(k: Limits, times: seq<real>, j: nat)
    requires j < |times|
  {
    j > 0 ==> times[j] - times[j - 1] >= k.cooldown
  }

  /** A breaker that, by `now`, has seen nothing but the failed calls at `times`. */
  ghost predicate OnlyFailures(k: Limits, b: Breaker, times: seq<real>, now: real) {
    && Spaced(k, times)
    && (b.state.HALF_OPEN? ==> now - b.openedAt >= k.cooldown)
    && if b.state.CLOSED? then b.failures == |times| < k.threshold
       else |times| >= k.threshold && times != [] && b.openedAt == Last(times)
  }

  ghost predicate Untouched(d: string, s: Walk, s': Walk) {
    BreakerOf(s'.breakers, d) == BreakerOf(s.breakers, d) && TimesOf(d, s'.calls) == TimesOf(d, s.calls)
  }

  lemma OtherFailure(k: Limits, w: Tape, dep: Deployment, s: Walk, d: string)
    requires dep.name != d
    ensures Untouched(d, s, AfterFailure(k, w, dep, s))
  {
    TimesOfOneMore(d, s.calls, Call(dep.name, w(s.pos).now));
  }

  lemma {:induction false} OtherTries(k: Limits, mode: Mode, w: Tape, dep: Deployment, left: nat, s: Walk, d: string)
    requires dep.name != d
    ensures Untouched(d, s, Tries(k, mode, w, dep, left, s).0)
    decreases left
  {
    hide FailedShared, Observed, TimesOf;
    if Fails(w(s.pos).reply(dep.name)) {
      OtherFailure(k, w, dep, s, d);
      var next := AfterFailure(k, w, dep, s);
      if left > 0 && next.breakers[dep.name].state.CLOSED? {
        OtherTries(k, mode, w, dep, left - 1, next, d);
      }
    } else {
      TimesOfOneMore(d, s.calls, Call(dep.name, w(s.pos).now));
    }
  }

  ghost predicate NeverAnswers(w: Tape, d: string) {
    forall i: nat :: Fails(w(i).reply(d))
  }

  /** The deployment `d` after a walk, given only its failures. */
  ghost predicate OnlyFailuresIn(k: Limits, w: Tape, d: string, s: Walk) {
    OnlyFailures(k, BreakerOf(s.breakers, d), TimesOf(d, s.calls), w(s.pos).now)
  }

  lemma OneMoreFailure(k: Limits, w: Tape, dep: Deployment, s: Walk)
    requires k.Valid() && NoCluster(w) && Forward(w)
    requires OnlyFailuresIn(k, w, dep.name, s) && !BreakerOf(s.breakers, dep.name).state.OPEN?
    ensures OnlyFailuresIn(k, w, dep.name, AfterFailure(k, w, dep, s))
  {
    var times, times' := TimesOf(dep.name, s.calls), TimesOf(dep.name, AfterFailure(k, w, dep, s).calls);
    TimesOfOneMore(dep.name, s.calls, Call(dep.name, w(s.pos).now));
    assert times' == times + [w(s.pos).now];
    assert w(s.pos).pooled == None;
    assert w(s.pos).now <= w(s.pos + 1).now <= w(s.pos + 2).now;
    forall j | 0 <= j < |times'| && j >= k.threshold
      ensures SpacedAt(k, times', j)
    {
      if j < |times| {
        assert SpacedAt(k, times, j);
      }
    }
  }

  lemma {:induction false} FailingTries(k: Limits, mode: Mode, w: Tape, dep: Deployment, left: nat, s: Walk)
    requires k.Valid() && NoCluster(w) && Forward(w) && NeverAnswers(w, dep.name)
    requires OnlyFailuresIn(k, w, dep.name, s) && !BreakerOf(s.breakers, dep.name).state.OPEN?
    ensures OnlyFailuresIn(k, w, dep.name, Tries(k, mode, w, dep, left, s).0)
    decreases left
  {
    hide OnlyFailuresIn;
    var next := AfterFailure(k, w, dep, s);
    assert Fails(w(s.pos).reply(dep.name));
    OneMoreFailure(k, w, dep, s);
    if left > 0 && next.breakers[dep.name].state.CLOSED? {
      FailingTries(k, mode, w, dep, left - 1, next);
    }
  }

  lemma {:induction false} TapeMovesOn(k: Limits, mode: Mode, w: Tape, dep: Deployment, left: nat, s: Walk)
    ensures Tries(k, mode, w, dep, left, s).0.pos >= s.pos
    decreases left
  {
    var next := AfterFailure(k, w, dep, s);
    if left > 0 && next.breakers[dep.name].state.CLOSED? {
      TapeMovesOn(k, mode, w, dep, left - 1, next);
    }
  }

  lemma AskingKeepsFailures(k: Limits, w: Tape, name: string, s: Walk, d: string)
    requires Forward(w) && OnlyFailuresIn(k, w, d, s)
    ensures var b := BreakerOf(s.breakers, name);
            var asked := s.(breakers := s.breakers[name := Asked(k, b, w(s.pos).now)], pos := s.pos + 1);
            OnlyFailuresIn(k, w, d, asked) && (Admits(k, b, w(s.pos).now) ==> !asked.breakers[name].state.OPEN?)
  {
    assert w(s.pos).now <= w(s.pos + 1).now;
  }

  lemma LaterStillFailures(k: Limits, w: Tape, d: string, s: Walk, s': Walk)
    requires Forward(w) && OnlyFailuresIn(k, w, d, s) && Untouched(d, s, s') && s'.pos >= s.pos
    ensures OnlyFailuresIn(k, w, d, s')
  {
    assert w(s.pos).now <= w(s'.pos).now;
  }

  lemma FailingVisit(k: Limits, providers: set<string>, mode: Mode, w: Tape, dep: Deployment, s: Walk, d: string)
    requires k.Valid() && NoCluster(w) && Forward(w) && NeverAnswers(w, d)
    requires OnlyFailuresIn(k, w, d, s)
    ensures OnlyFailuresIn(k, w, d, Visit(k, providers, mode, w, dep, s).0)
  {
    hide OnlyFailures, Asked, Admits;
    var b := BreakerOf(s.breakers, dep.name);
    var asked := s.(breakers := s.breakers[dep.name := Asked(k, b, w(s.pos).now)], pos := s.pos + 1);
    AskingKeepsFailures(k, w, dep.name, s, d);
    if Admits(k, b, w(s.pos).now) && dep.provider in providers {
      if dep.name == d {
        FailingTries(k, mode, w, dep, dep.maxRetries, asked);
      } else {
        OtherTries(k, mode, w, dep, dep.maxRetries, asked, d);
        TapeMovesOn(k, mode, w, dep, dep.maxRetries, asked);
        LaterStillFailures(k, w, d, asked, Tries(k, mode, w, dep, dep.maxRetries, asked).0);
      }
    }
  }

  lemma {:induction false} FailingChain(k: Limits, providers: set<string>, mode: Mode, w: Tape,
                                        chain: seq<Deployment>, s: Walk, d: string)
    requires k.Valid() && NoCluster(w) && Forward(w) && NeverAnswers(w, d)
    requires OnlyFailuresIn(k, w, d, s)
    ensures OnlyFailuresIn(k, w, d, Chain(k, providers, mode, w, chain, s).0)
  {
    if chain != [] {
      FailingVisit(k, providers, mode, w, chain[0], s, d);
      FailingChain(k, providers, mode, w, chain[1..], Visit(k, providers, mode, w, chain[0], s).0, d);
    }
  }

  lemma {:induction false} FailingRequests(k: Limits, providers: set<string>, w: Tape,
                                           requests: seq<Request>, s: Walk, d: string)
    requires k.Valid() && NoCluster(w) && Forward(w) && NeverAnswers(w, d)
    requires OnlyFailuresIn(k, w, d, s)
    ensures OnlyFailuresIn(k, w, d, Serve(k, providers, w, requests, s))
  {
    if requests != [] {
      var r := requests[0];
      FailingChain(k, providers, r.mode, w, r.chain, s.(log := []), d);
      FailingRequests(k, providers, w, requests[1..], Chain(k, providers, r.mode, w, r.chain, s.(log := [])).0, d);
    }
  }

  lemma {:induction false} SpacedTotal(k: Limits, times: seq<real>, j: nat)
    requires k.Valid() && Spaced(k, times) && k.threshold - 1 <= j < |times|
    ensures times[j] - times[k.threshold - 1] >= (j + 1 - k.threshold) as real * k.cooldown
  {
    if j >= k.threshold {
      SpacedTotal(k, times, j - 1);
      assert SpacedAt(k, times, j);
      var n := (j - k.threshold) as real;
      assert (n + 1.0) * k.cooldown == n * k.cooldown + k.cooldown;
    }
  }

  lemma SpacedAreFew(k: Limits, times: seq<real>, now: real)
    requires k.Valid() && k.cooldown > 0.0 && Spaced(k, times) && |times| > k.threshold && now >= Last(times)
    ensures |times| <= k.threshold + ((now - times[k.threshold - 1]) / k.cooldown).Floor
  {
    SpacedTotal(k, times, |times| - 1);
    AtMostFloor(|times| - k.threshold, now - times[k.threshold - 1], k.cooldown);
  }

  /** A dead deployment is cheap. Over any sequence of sequential requests, routes and retries in
      which deployment `d` never answers, and up to any moment `now` at or after its last call, it
      was called at most threshold + floor((now - first opening) / cooldown) times; the first
      opening is the call that completed the row of `threshold` failures. */
  lemma DeadDeploymentIsCheap(k: Limits, providers: set<string>, w: Tape, requests: seq<Request>, d: string, now: real)
    requires k.Valid() && k.cooldown > 0.0 && NoCluster(w) && Forward(w) && NeverAnswers(w, d)
    ensures var times := TimesOf(d, Serve(k, providers, w, requests, Walk(map[], 0, [], [])).calls);
            |times| > k.threshold && now >= Last(times)
            ==> |times| <= k.threshold + ((now - times[k.threshold - 1]) / k.cooldown).Floor
  {
    var s' := Serve(k, providers, w, requests, Walk(map[], 0, [], []));
    FailingRequests(k, providers, w, requests, Walk(map[], 0, [], []), d);
    var times := TimesOf(d, s'.calls);
    if |times| > k.threshold && now >= Last(times) {
      SpacedAreFew(k, times, now);
    }
  }

  lemma AtMostFloor(n: nat, span: real, unit: real)
    requires unit > 0.0 && span >= n as real * unit
    ensures n <= (span / unit).Floor
  {
    var q := span / unit;
    assert q * unit == span;
    if q < n as real {
      NegativeTimesPositive(q - n as real, unit);
    }
  }

  lemma NegativeTimesPositive(a: real, b: real)
    requires a < 0.0 < b
    ensures a * b < 0.0
  {
  }

  // ------------------------------------------------------------------ a probe that is never answered

  ghost predicate ProbePending(s: Walk, d: string) {
    var b := BreakerOf(s.breakers, d);
    b.state.HALF_OPEN? && b.probing
  }

  lemma {:induction false} ProbePendingChain(k: Limits, providers: set<string>, mode: Mode, w: Tape,
                                             chain: seq<Deployment>, s: Walk, d: string)
    requires ProbePending(s, d)
    ensures Untouched(d, s, Chain(k, providers, mode, w, chain, s).0)
  {
    if chain != [] {
      var dep := chain[0];
      var b := BreakerOf(s.breakers, dep.name);
      var asked := s.(breakers := s.breakers[dep.name := Asked(k, b, w(s.pos).now)], pos := s.pos + 1);
      var next := Visit(k, providers, mode, w, dep, s).0;
      if dep.name != d && Admits(k, b, w(s.pos).now) && dep.provider in providers {
        OtherTries(k, mode, w, dep, dep.maxRetries, asked, d);
      }
      assert Untouched(d, s, next);
      ProbePendingChain(k, providers, mode, w, chain[1..], next, d);
    }
  }

  /** What the code does when a probe gets no verdict (a stream abandoned by its client, a request
      cancelled): without a cluster the deployment is never called again, by any later sequence of
      requests, however much time passes. */
  lemma {:induction false} UnansweredProbeWedges(k: Limits, providers: set<string>, w: Tape,
                                                 requests: seq<Request>, s: Walk, d: string)
    requires ProbePending(s, d)
    ensures Untouched(d, s, Serve(k, providers, w, requests, s))
  {
    if requests != [] {
      var r := requests[0];
      ProbePendingChain(k, providers, r.mode, w, r.chain, s.(log := []), d);
      UnansweredProbeWedges(k, providers, w, requests[1..],
                            Chain(k, providers, r.mode, w, r.chain, s.(log := [])).0, d);
    }
  }

  /** And how it comes about: the probe of a half-open circuit is answered by a stream's first
      token, which settles nothing. */
  lemma StreamedProbeIsPending(k: Limits, providers: set<string>, w: Tape, dep: Deployment, s: Walk)
    requires dep.provider in providers && w(s.pos + 1).reply(dep.name).Answer?
    requires var b := Observed(k, BreakerOf(s.breakers, dep.name), w(s.pos).now); b.state.HALF_OPEN? && !b.probing
    ensures var (s', v) := Visit(k, providers, Streamed, w, dep, s); v.Served? && ProbePending(s', dep.name)
    ensures var (s', v) := Visit(k, providers, Whole, w, dep, s);
            v.Served? && BreakerOf(s'.breakers, dep.name).state.CLOSED?
  {
  }
}

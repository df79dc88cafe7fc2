/** `InferenceGate` of app/core/concurrency.py as a protocol: any number of callers of `run`, interleaved
    wherever they await, over asyncio's semaphore, whose waiters are woken in order and hold their slot
    from then on, before they have resumed. No caller is cancelled from outside. */
module InferenceGate {

  /** A caller with a wait budget acquires in a task of its own (`wait_for`): it is `starting` until that
      task begins, and has `acquired` when that is through and the caller has not noticed yet. */
  datatype Gate = Gate(free: nat, starting: set<nat>, queue: seq<nat>, granted: set<nat>, acquired: set<nat>,
                       running: set<nat>, budgeted: set<nat>, waiting: int)

  datatype Limits = Limits(maxConcurrency: nat, maxQueue: nat)

  datatype Event =
    | Enter(caller: nat, budget: bool)   // `run` is called, with or without max_wait
    | Begin(caller: nat)                 // the acquiring task of a caller with a budget starts
    | Resume(caller: nat)                // a woken `acquire` goes on
    | Proceed(caller: nat)               // a caller with a budget sees that it has acquired
    | TimeOut(caller: nat)
    | Leave(caller: nat)                 // `fn` returned or raised: the slot is released

  function Opened(k: Limits): Gate {
    Gate(k.maxConcurrency, {}, [], {}, {}, {}, {}, 0)
  }

  /** `Semaphore.locked`: no slot free, or somebody in line, woken or not. */
  predicate Locked(g: Gate) {
    g.free == 0 || g.queue != [] || g.granted != {}
  }

  predicate Sheds(k: Limits, g: Gate) {
    Locked(g) && g.waiting >= k.maxQueue
  }

  predicate Inside(g: Gate, c: nat) {
    c in g.starting || c in g.queue || c in g.granted || c in g.acquired || c in g.running
  }

  predicate Enabled(g: Gate, e: Event) {
    match e
    case Enter(c, _) => !Inside(g, c)
    case Begin(c) => c in g.starting
    case Resume(c) => c in g.granted
    case Proceed(c) => c in g.acquired
    case TimeOut(c) => c in g.budgeted && (c in g.starting || c in g.queue || c in g.granted)
    case Leave(c) => c in g.running
  }

  /** `_wake_up_next`: the first in line is given a slot. */
  function Woken(g: Gate): Gate
    requires g.queue != [] ==> g.free > 0
  {
    if g.queue == [] then g
    else g.(free := g.free - 1, queue := g.queue[1..], granted := g.granted + {g.queue[0]})
  }

  /** `Semaphore.release`. */
  function Released(g: Gate): Gate {
    Woken(g.(free := g.free + 1))
  }

  function Without(queue: seq<nat>, c: nat): (r: seq<nat>)
    ensures forall x :: x in r <==> x in queue && x != c
  {
    if queue == [] then [] else (if queue[0] == c then [] else [queue[0]]) + Without(queue[1..], c)
  }

  function Next(k: Limits, g: Gate, e: Event): Gate
    requires Enabled(g, e)
  {
    match e
    case Enter(c, budget) =>
      if Sheds(k, g) then g
      else if budget then
        g.(starting := g.starting + {c}, budgeted := g.budgeted + {c}, waiting := g.waiting + 1)
      else if Locked(g) then
        g.(queue := g.queue + [c], budgeted := g.budgeted - {c}, waiting := g.waiting + 1)
      else g.(free := g.free - 1, running := g.running + {c}, budgeted := g.budgeted - {c})
    case Begin(c) =>
      var g' := g.(starting := g.starting - {c});
      if Locked(g) then g'.(queue := g.queue + [c]) else g'.(free := g.free - 1, acquired := g.acquired + {c})
    case Resume(c) =>
      var g1 := g.(granted := g.granted - {c});
      var g2 := if c in g.budgeted then g1.(acquired := g.acquired + {c}) else Entered(g1, c);
      if g.free > 0 then Woken(g2) else g2
    case Proceed(c) => Entered(g.(acquired := g.acquired - {c}), c)
    case TimeOut(c) =>
      var g' := g.(waiting := g.waiting - 1);
      if c in g.starting then g'.(starting := g.starting - {c})
      else if c in g.queue then g'.(queue := Without(g.queue, c))
      else Released(g'.(granted := g.granted - {c}))
    case Leave(c) => Released(g.(running := g.running - {c}))
  }

  /** The caller has its slot: it no longer waits, and `fn` runs. */
  function Entered(g: Gate, c: nat): Gate {
    g.(running := g.running + {c}, waiting := g.waiting - 1)
  }

  // ------------------------------------------------------------------ what every step keeps

  ghost predicate NoRepeats(queue: seq<nat>) {
    forall i, j :: 0 <= i < j < |queue| ==> queue[i] != queue[j]
  }

  /** A caller is in one place. */
  ghost predicate Apart(g: Gate) {
    && NoRepeats(g.queue)
    && (forall c <- g.queue :: c !in g.starting && c !in g.granted && c !in g.acquired && c !in g.running)
    && g.starting !! g.granted !! g.acquired !! g.running
  }

  /** Every slot is free, or held by a caller that was woken, has acquired, or runs; and the count of
      waiting callers is the callers that entered and do not run yet. */
  ghost predicate Conserved(k: Limits, g: Gate) {
    && g.free + |g.granted| + |g.acquired| + |g.running| == k.maxConcurrency
    && g.waiting == |g.starting| + |g.queue| + |g.granted| + |g.acquired|
  }

  /** Nobody waits for a slot that is free unless somebody woken is about to go on and wake the next. */
  ghost predicate NoLostWakeup(g: Gate) {
    g.free > 0 && g.queue != [] ==> g.granted != {}
  }

  ghost predicate Ok(k: Limits, g: Gate) {
    Apart(g) && Conserved(k, g) && NoLostWakeup(g)
  }

  lemma TailHasNoRepeats(queue: seq<nat>)
    requires NoRepeats(queue) && queue != []
    ensures NoRepeats(queue[1..]) && queue[0] !in queue[1..]
  {
    var rest := queue[1..];
    assert forall i, j :: 0 <= i < j < |rest| ==> rest[i] == queue[i + 1] && rest[j] == queue[j + 1];
  }

  lemma NoRepeatsInFront(x: nat, queue: seq<nat>)
    requires NoRepeats(queue) && x !in queue
    ensures NoRepeats([x] + queue)
  {
    assert forall j :: 0 <= j < |queue| ==> queue[j] in queue;
  }

  lemma {:induction false} WithoutCounts(queue: seq<nat>, c: nat)
    requires NoRepeats(queue)
    ensures NoRepeats(Without(queue, c))
    ensures |Without(queue, c)| == |queue| - if c in queue then 1 else 0
  {
    if queue == [] {
      assert NoRepeats([]);
    } else {
      hide NoRepeats;
      TailHasNoRepeats(queue);
      WithoutCounts(queue[1..], c);
      NoRepeatsInFront(queue[0], Without(queue[1..], c));
      assert [] + Without(queue[1..], c) == Without(queue[1..], c);
    }
  }

  lemma WokenOk(k: Limits, g: Gate)
    requires Apart(g) && Conserved(k, g) && (g.queue != [] ==> g.free > 0)
    ensures Ok(k, Woken(g))
  {
    if g.queue != [] {
      TailHasNoRepeats(g.queue);
      assert g.queue[0] in g.queue;
    }
  }

  lemma EnterOk(k: Limits, g: Gate, c: nat, budget: bool)
    requires Ok(k, g) && Enabled(g, Enter(c, budget))
    ensures Ok(k, Next(k, g, Enter(c, budget)))
  {
    if !budget && Locked(g) {
      JoinOk(k, g.(budgeted := g.budgeted - {c}), c);
    }
  }

  lemma BeginOk(k: Limits, g: Gate, c: nat)
    requires Ok(k, g) && Enabled(g, Begin(c))
    ensures Ok(k, Next(k, g, Begin(c)))
  {
    if Locked(g) {
      JoinOk(k, g.(starting := g.starting - {c}, waiting := g.waiting - 1), c);
    } else {
      AcquireOk(k, g, c);
    }
  }

  lemma AcquireOk(k: Limits, g: Gate, c: nat)
    requires Ok(k, g) && c in g.starting && !Locked(g)
    ensures Ok(k, g.(starting := g.starting - {c}, free := g.free - 1, acquired := g.acquired + {c}))
  {
  }

  /** Lining up when nothing is free, or behind somebody. */
  lemma JoinOk(k: Limits, g: Gate, c: nat)
    requires Ok(k, g) && Locked(g) && !Inside(g, c)
    ensures Ok(k, g.(queue := g.queue + [c], waiting := g.waiting + 1))
  {
    var queue := g.queue + [c];
    assert forall i :: 0 <= i < |queue| ==> queue[i] == if i < |g.queue| then g.queue[i] else c;
  }

  lemma ResumeOk(k: Limits, g: Gate, c: nat)
    requires Ok(k, g) && Enabled(g, Resume(c))
    ensures Ok(k, Next(k, g, Resume(c)))
  {
    hide Apart, Conserved, Woken;
    var g1 := g.(granted := g.granted - {c});
    ResumedOk(k, g, c);
    if g.free > 0 {
      WokenOk(k, if c in g.budgeted then g1.(acquired := g.acquired + {c}) else Entered(g1, c));
    }
  }

  /** Resuming moves the caller on and touches nobody else. */
  lemma ResumedOk(k: Limits, g: Gate, c: nat)
    requires Apart(g) && Conserved(k, g) && c in g.granted
    ensures var g1 := g.(granted := g.granted - {c});
            && Apart(g1.(acquired := g.acquired + {c})) && Conserved(k, g1.(acquired := g.acquired + {c}))
            && Apart(Entered(g1, c)) && Conserved(k, Entered(g1, c))
  {
  }

  lemma ProceedOk(k: Limits, g: Gate, c: nat)
    requires Ok(k, g) && Enabled(g, Proceed(c))
    ensures Ok(k, Next(k, g, Proceed(c)))
  {
  }

  lemma TimeOutOk(k: Limits, g: Gate, c: nat)
    requires Ok(k, g) && Enabled(g, TimeOut(c))
    ensures Ok(k, Next(k, g, TimeOut(c)))
  {
    if c in g.starting {
    } else if c in g.queue {
      WithoutCounts(g.queue, c);
    } else {
      WokenOk(k, g.(waiting := g.waiting - 1, granted := g.granted - {c}, free := g.free + 1));
    }
  }

  lemma LeaveOk(k: Limits, g: Gate, c: nat)
    requires Ok(k, g) && Enabled(g, Leave(c))
    ensures Ok(k, Next(k, g, Leave(c)))
  {
    WokenOk(k, g.(running := g.running - {c}, free := g.free + 1));
  }

  lemma StepOk(k: Limits, g: Gate, e: Event)
    requires Ok(k, g) && Enabled(g, e)
    ensures Ok(k, Next(k, g, e))
  {
    hide Ok, Next, Enabled;
    match e
    case Enter(c, budget) => EnterOk(k, g, c, budget);
    case Begin(c) => BeginOk(k, g, c);
    case Resume(c) => ResumeOk(k, g, c);
    case Proceed(c) => ProceedOk(k, g, c);
    case TimeOut(c) => TimeOutOk(k, g, c);
    case Leave(c) => LeaveOk(k, g, c);
  }

  // ------------------------------------------------------------------ over whole executions

  ghost predicate StepAt(k: Limits, trace: seq<Gate>, events: seq<Event>, i: nat)
    requires |trace| == |events| + 1 && i < |events|
  {
    Enabled(trace[i], events[i]) && trace[i + 1] == Next(k, trace[i], events[i])
  }

  ghost predicate Execution(k: Limits, trace: seq<Gate>, events: seq<Event>) {
    && |trace| == |events| + 1 && trace[0] == Opened(k)
    && forall i :: 0 <= i < |events| ==> StepAt(k, trace, events, i)
  }

  lemma {:induction false} AlwaysOk(k: Limits, trace: seq<Gate>, events: seq<Event>, n: nat)
    requires Execution(k, trace, events) && n < |trace|
    ensures Ok(k, trace[n])
  {
    hide Next, Enabled;
    if n > 0 {
      AlwaysOk(k, trace, events, n - 1);
      assert StepAt(k, trace, events, n - 1);
      StepOk(k, trace[n - 1], events[n - 1]);
    }
  }

  /** Slots are conserved whoever sheds, times out or crashes: never more than `maxConcurrency` run at
      once, and when everybody is gone all slots are free and nobody counts as waiting. */
  lemma SlotsAreConserved(k: Limits, trace: seq<Gate>, events: seq<Event>, n: nat)
    requires Execution(k, trace, events) && n < |trace|
    ensures var g := trace[n];
            && |g.running| <= k.maxConcurrency
            && g.free + |g.granted| + |g.acquired| + |g.running| == k.maxConcurrency
            && g.waiting == |g.starting| + |g.queue| + |g.granted| + |g.acquired|
            && ((forall c :: !Inside(g, c)) ==> g.free == k.maxConcurrency && g.waiting == 0)
  {
    AlwaysOk(k, trace, events, n);
    SomebodyOrNobody(trace[n]);
  }

  lemma SomebodyOrNobody(g: Gate)
    ensures (g.starting == {} && g.queue == [] && g.granted == {} && g.acquired == {} && g.running == {})
            || exists c :: Inside(g, c)
  {
    var inside := g.starting + g.granted + g.acquired + g.running;
    if g.queue != [] {
      assert Inside(g, g.queue[0]);
    } else if inside != {} {
      var c :| c in inside;
      assert Inside(g, c);
    }
  }

  /** Whoever waits in line waits for callers that hold slots, or behind one that was woken and will wake
      the next: no wakeup is lost. */
  lemma WaitersAreServed(k: Limits, trace: seq<Gate>, events: seq<Event>, n: nat)
    requires Execution(k, trace, events) && n < |trace| && trace[n].queue != []
    ensures trace[n].granted != {} || |trace[n].acquired| + |trace[n].running| == k.maxConcurrency
  {
    AlwaysOk(k, trace, events, n);
    var g := trace[n];
    assert g.granted == {} ==> g.free == 0;
  }

  /** First come, first served: whoever leaves the line was first in it and has been given a slot, or
      timed out. */
  lemma FirstComeFirstServed(k: Limits, g: Gate, e: Event, c: nat)
    requires Enabled(g, e) && c in g.queue && c !in Next(k, g, e).queue
    ensures (c == g.queue[0] && c in Next(k, g, e).granted) || e == TimeOut(c)
  {
    FirstOrLater(g.queue, c);
    match e
    case Enter(d, budget) => StillIn(g.queue, d, c);
    case Begin(d) => StillIn(g.queue, d, c);
    case _ =>
  }

  /** Nobody jumps the line: a caller that gets a slot without having been woken, at once or when its acquiring
      task begins, finds one free with nobody in line and nobody woken. */
  lemma NobodyJumpsTheLine(k: Limits, g: Gate, e: Event, c: nat)
    requires Enabled(g, e) && c !in g.granted && c !in g.acquired && c !in g.running
    requires c in Next(k, g, e).acquired || c in Next(k, g, e).running
    ensures g.free > 0 && g.queue == [] && g.granted == {}
    ensures Next(k, g, e).free == g.free - 1
  {
  }

  lemma FirstOrLater(queue: seq<nat>, c: nat)
    requires c in queue
    ensures c == queue[0] || c in queue[1..]
  {
  }

  lemma StillIn(queue: seq<nat>, d: nat, c: nat)
    requires c in queue
    ensures c in queue + [d]
  {
  }

  /** Every slot is taken or promised to a woken caller, or somebody is in line. */
  ghost predicate Taken(k: Limits, g: Gate) {
    |g.granted| + |g.acquired| + |g.running| == k.maxConcurrency || g.queue != [] || g.granted != {}
  }

  /** A caller that comes in is turned away exactly while no slot is to be had and as many callers wait as may,
      and then nothing changes; any other caller is inside from then on. */
  lemma TurnedAwayExactly(k: Limits, trace: seq<Gate>, events: seq<Event>, n: nat, c: nat, budget: bool)
    requires Execution(k, trace, events) && n < |trace| && Enabled(trace[n], Enter(c, budget))
    ensures var g, g' := trace[n], Next(k, trace[n], Enter(c, budget));
            && (!Inside(g', c) <==> Taken(k, g) && |g.starting| + |g.queue| + |g.granted| + |g.acquired| >= k.maxQueue)
            && (!Inside(g', c) ==> g' == g)
  {
    AlwaysOk(k, trace, events, n);
    hide Apart;
  }

  /** What that means for whoever is turned away: every slot is taken or promised to a woken caller, and
      `maxQueue` callers wait already. */
  lemma ShedMeansSaturated(k: Limits, trace: seq<Gate>, events: seq<Event>, n: nat, c: nat, budget: bool)
    requires Execution(k, trace, events) && n < |trace| && Enabled(trace[n], Enter(c, budget))
    requires !Inside(Next(k, trace[n], Enter(c, budget)), c)
    ensures var g := trace[n];
            && (g.granted != {} || |g.acquired| + |g.running| == k.maxConcurrency)
            && |g.starting| + |g.queue| + |g.granted| + |g.acquired| >= k.maxQueue
  {
    TurnedAwayExactly(k, trace, events, n, c, budget);
    AlwaysOk(k, trace, events, n);
    var g := trace[n];
    assert g.granted == {} ==> g.free == 0;
  }

  /** The one event that lets more callers wait than may: one with a wait budget comes in while a slot is
      free and as many wait as may. It will acquire later, so it counts as waiting, unchecked. */
  predicate Overfills(k: Limits, g: Gate, e: Event) {
    e.Enter? && e.budget && !Locked(g) && g.waiting == k.maxQueue
  }

  lemma OverfillsExactly(k: Limits, g: Gate, e: Event)
    requires Ok(k, g) && Enabled(g, e) && g.waiting <= k.maxQueue
    ensures Next(k, g, e).waiting > k.maxQueue <==> Overfills(k, g, e)
  {
    hide Ok, Without;
    if e.Resume? {
      assert Next(k, g, e).waiting <= g.waiting;
    }
  }

  /** No more than `maxQueue` callers ever wait if and only if no such caller ever comes in. */
  lemma {:induction false} QueueHoldsIffNoneOverfills(k: Limits, trace: seq<Gate>, events: seq<Event>, n: nat)
    requires Execution(k, trace, events) && n < |trace|
    ensures (forall i :: 0 <= i <= n ==> trace[i].waiting <= k.maxQueue)
            <==> forall i :: 0 <= i < n ==> !Overfills(k, trace[i], events[i])
  {
    if n > 0 {
      QueueHoldsIffNoneOverfills(k, trace, events, n - 1);
      AlwaysOk(k, trace, events, n - 1);
      assert StepAt(k, trace, events, n - 1);
      if trace[n - 1].waiting <= k.maxQueue {
        OverfillsExactly(k, trace[n - 1], events[n - 1]);
      }
    }
  }

  /** In particular, while no caller has a wait budget at most `maxQueue` are ever suspended. */
  lemma AtMostMaxQueueWait(k: Limits, trace: seq<Gate>, events: seq<Event>, n: nat)
    requires Execution(k, trace, events) && n < |trace| && forall e <- events :: e.Enter? ==> !e.budget
    ensures |trace[n].queue| + |trace[n].granted| <= k.maxQueue
  {
    forall i | 0 <= i < n
      ensures !Overfills(k, trace[i], events[i])
    {
      assert events[i] in events;
    }
    QueueHoldsIffNoneOverfills(k, trace, events, n);
    AlwaysOk(k, trace, events, n);
  }

  /** With wait budgets more may wait: two callers that enter before either has begun to acquire are
      both let in, though one slot is free and nobody may wait. */
  lemma BudgetsCanOverfillTheQueue()
    ensures var k := Limits(1, 0);
            exists trace: seq<Gate>, events: seq<Event> ::
              Execution(k, trace, events) && |trace[|trace| - 1].queue| > k.maxQueue
  {
    var k := Limits(1, 0);
    var events := [Enter(1, true), Enter(2, true), Begin(1), Begin(2)];
    var g1 := Next(k, Opened(k), events[0]);
    var g2 := Next(k, g1, events[1]);
    var g3 := Next(k, g2, events[2]);
    var g4 := Next(k, g3, events[3]);
    var trace := [Opened(k), g1, g2, g3, g4];
    forall i | 0 <= i < |events|
      ensures StepAt(k, trace, events, i)
    {
    }
    assert Execution(k, trace, events) && trace[|trace| - 1].queue == [2];
  }
}

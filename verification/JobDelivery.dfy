/** At-least-once delivery of ingestion jobs as a protocol: any number of deliveries of any jobs in
    progress at once, interleaved Redis command by Redis command, whose workers may die at any point
    (app/workers/service.py, app/workers/celery_app.py). Attempt counters do not expire while it runs. */
module JobDelivery {
  import opened Wrappers
  import opened Jobs

  /** How far a delivery has come, from the reply to its INCR on. */
  datatype Phase =
    | Begun                      // next: save PROCESSING, or fail a job delivered too often
    | Processing                 // next: read the upload
    | Loaded                     // next: ingest
    | Ingesting
    | Deleting                   // ingested; next: delete the upload
    | SavingDone
    | CountingDone
    | EndedDone
    | Failing                    // next: save FAILED
    | CountingFailed
    | Pushing                    // next: LPUSH onto the dead-letter queue
    | EndedFailed
    | Requeueing                 // next: save QUEUED
    | CountingRetried
    | EndedRetried

  /** `ingested` remembers that ingestion was started. */
  datatype Delivered = Delivered(key: JobId, payload: nat, attempt: nat, phase: Phase, alive: bool, ingested: bool)

  datatype System = System(deliveries: seq<Delivered>, attempts: map<JobId, nat>, status: map<JobId, Status>,
                           payloads: set<nat>, done: nat, failed: nat, retried: nat, deadLetters: seq<JobId>)

  datatype Event =
    | Deliver(key: JobId, payload: nat)      // a message arrives or is redelivered: INCR
    | Step(i: nat)                           // the next command of a delivery
    | IngestEnds(i: nat, result: Ingest)
    | Die(i: nat)                            // its worker is killed
    | Forget(upload: nat)                    // an upload's own TTL runs out

  predicate Ended(p: Phase) {
    p.EndedDone? || p.EndedFailed? || p.EndedRetried?
  }

  /** Only a delivery that was not one too many gets here. */
  predicate Admitted(p: Phase) {
    match p
    case Processing => true
    case Loaded => true
    case Ingesting => true
    case Deleting => true
    case SavingDone => true
    case CountingDone => true
    case EndedDone => true
    case _ => false
  }

  /** Which outcome counter a delivery has incremented by now. */
  datatype Tally = NotYet | AsDone | AsFailed | AsRetried

  function TallyOf(p: Phase): Tally {
    match p
    case EndedDone => AsDone
    case Pushing => AsFailed
    case EndedFailed => AsFailed
    case EndedRetried => AsRetried
    case _ => NotYet
  }

  predicate Enabled(s: System, e: Event) {
    match e
    case Deliver(_, _) => true
    case Forget(_) => true
    case Step(i) => i < |s.deliveries| && s.deliveries[i].alive && !Ended(s.deliveries[i].phase)
                    && !s.deliveries[i].phase.Ingesting?
    case IngestEnds(i, _) => i < |s.deliveries| && s.deliveries[i].alive && s.deliveries[i].phase.Ingesting?
    case Die(i) => i < |s.deliveries|
  }

  function Counter(s: System, key: JobId): nat {
    if key in s.attempts then s.attempts[key] else 0
  }

  function At(s: System, i: nat, phase: Phase): System
    requires i < |s.deliveries|
  {
    s.(deliveries := s.deliveries[i := s.deliveries[i].(phase := phase)])
  }

  function Stepped(s: System, max: nat, i: nat): System
    requires Enabled(s, Step(i))
  {
    var d := s.deliveries[i];
    match d.phase
    case Begun =>
      if d.attempt > max then At(s, i, Failing) else At(s, i, Processing).(status := s.status[d.key := PROCESSING])
    case Processing => At(s, i, if d.payload in s.payloads then Loaded else Failing)
    case Loaded => s.(deliveries := s.deliveries[i := d.(phase := Ingesting, ingested := true)])
    case Ingesting => s
    case Deleting => At(s, i, SavingDone).(payloads := s.payloads - {d.payload})
    case SavingDone => At(s, i, CountingDone).(status := s.status[d.key := DONE])
    case CountingDone => At(s, i, EndedDone).(done := s.done + 1)
    case Failing => At(s, i, CountingFailed).(status := s.status[d.key := FAILED])
    case CountingFailed => At(s, i, Pushing).(failed := s.failed + 1)
    case Pushing => At(s, i, EndedFailed).(deadLetters := [d.key] + s.deadLetters)
    case Requeueing => At(s, i, CountingRetried).(status := s.status[d.key := QUEUED])
    case CountingRetried => At(s, i, EndedRetried).(retried := s.retried + 1)
    case EndedDone => s
    case EndedFailed => s
    case EndedRetried => s
  }

  function Next(s: System, max: nat, e: Event): System
    requires Enabled(s, e)
  {
    match e
    case Deliver(key, payload) =>
      var attempt := Counter(s, key) + 1;
      s.(attempts := s.attempts[key := attempt],
         deliveries := s.deliveries + [Delivered(key, payload, attempt, Begun, true, false)])
    case Step(i) => Stepped(s, max, i)
    case IngestEnds(i, result) =>
      At(s, i, match result
               case Stored(_, _) => Deleting
               case Permanent(_) => Failing
               case Transient(_) => if s.deliveries[i].attempt >= max then Failing else Requeueing)
    case Die(i) => s.(deliveries := s.deliveries[i := s.deliveries[i].(alive := false)])
    case Forget(upload) => s.(payloads := s.payloads - {upload})
  }

  ghost predicate Start(s: System) {
    && s.deliveries == [] && s.attempts == map[] && s.done == s.failed == s.retried == 0 && s.deadLetters == []
    && forall key <- s.status :: s.status[key] == QUEUED
  }

  ghost predicate StepAt(max: nat, trace: seq<System>, events: seq<Event>, i: nat)
    requires |trace| == |events| + 1 && i < |events|
  {
    Enabled(trace[i], events[i]) && trace[i + 1] == Next(trace[i], max, events[i])
  }

  ghost predicate Execution(max: nat, trace: seq<System>, events: seq<Event>) {
    && |trace| == |events| + 1 && Start(trace[0])
    && forall i :: 0 <= i < |events| ==> StepAt(max, trace, events, i)
  }

  // ------------------------------------------------------------------ counting deliveries

  function Of(ds: seq<Delivered>, key: JobId): nat {
    if ds == [] then 0 else Of(ds[..|ds| - 1], key) + if ds[|ds| - 1].key == key then 1 else 0
  }

  /** How many of the first `n` are the job's. */
  function Among(ds: seq<Delivered>, n: nat, key: JobId): nat
    requires n <= |ds|
  {
    Of(ds[..n], key)
  }

  function Tallied(ds: seq<Delivered>, t: Tally): nat {
    if ds == [] then 0 else Tallied(ds[..|ds| - 1], t) + if TallyOf(ds[|ds| - 1].phase) == t then 1 else 0
  }

  /** How often ingestion was started for a job. */
  function Ingestions(ds: seq<Delivered>, key: JobId): nat {
    if ds == [] then 0
    else Ingestions(ds[..|ds| - 1], key) + if ds[|ds| - 1].key == key && ds[|ds| - 1].ingested then 1 else 0
  }

  /** How often a job is a dead letter. */
  function Letters(letters: seq<JobId>, key: JobId): nat {
    if letters == [] then 0 else Letters(letters[1..], key) + if letters[0] == key then 1 else 0
  }

  /** How many deliveries of a job ended failed. */
  function FailedOf(ds: seq<Delivered>, key: JobId): nat {
    if ds == [] then 0
    else FailedOf(ds[..|ds| - 1], key) + if ds[|ds| - 1].key == key && ds[|ds| - 1].phase.EndedFailed? then 1 else 0
  }

  lemma {:induction false} OfUpdate(ds: seq<Delivered>, i: nat, d: Delivered, key: JobId)
    requires i < |ds| && d.key == ds[i].key
    ensures Of(ds[i := d], key) == Of(ds, key)
  {
    var last := |ds| - 1;
    if i < last {
      OfUpdate(ds[..last], i, d, key);
      assert ds[i := d][..last] == ds[..last][i := d];
    } else {
      assert ds[i := d][..last] == ds[..last];
    }
  }

  lemma {:induction false} TallyUpdate(ds: seq<Delivered>, i: nat, d: Delivered, t: Tally)
    requires i < |ds|
    ensures Tallied(ds[i := d], t) + Flag(TallyOf(ds[i].phase) == t) == Tallied(ds, t) + Flag(TallyOf(d.phase) == t)
  {
    hide TallyOf;
    var last := |ds| - 1;
    if i < last {
      TallyUpdate(ds[..last], i, d, t);
      assert ds[i := d][..last] == ds[..last][i := d];
    } else {
      assert ds[i := d][..last] == ds[..last];
    }
  }

  lemma {:induction false} FailedUpdate(ds: seq<Delivered>, i: nat, d: Delivered, key: JobId)
    requires i < |ds| && d.key == ds[i].key
    ensures FailedOf(ds[i := d], key) + (if ds[i].key == key && ds[i].phase.EndedFailed? then 1 else 0)
            == FailedOf(ds, key) + (if d.key == key && d.phase.EndedFailed? then 1 else 0)
  {
    var last := |ds| - 1;
    if i < last {
      FailedUpdate(ds[..last], i, d, key);
      assert ds[i := d][..last] == ds[..last][i := d];
    } else {
      assert ds[i := d][..last] == ds[..last];
    }
  }

  // ------------------------------------------------------------------ what every step keeps

  /** A delivery's attempt is its place among its job's, and only the first `max` are ever ingested. */
  ghost predicate Numbered(ds: seq<Delivered>, max: nat, i: nat)
    requires i < |ds|
  {
    && ds[i].attempt == Among(ds, i + 1, ds[i].key)
    && (Admitted(ds[i].phase) || ds[i].ingested
        ==> ds[i].attempt <= max)
  }

  ghost predicate AttemptsOk(s: System, max: nat) {
    && (forall key :: Counter(s, key) == Of(s.deliveries, key))
    && (forall i :: 0 <= i < |s.deliveries| ==> Numbered(s.deliveries, max, i))
  }

  /** The outcome counters and the dead letters say how the deliveries ended. */
  ghost predicate CountsOk(s: System) {
    && s.done == Tallied(s.deliveries, AsDone)
    && s.failed == Tallied(s.deliveries, AsFailed)
    && s.retried == Tallied(s.deliveries, AsRetried)
    && (forall key :: Letters(s.deadLetters, key) == FailedOf(s.deliveries, key))
  }

  lemma UpdateKeepsAttempts(s: System, s': System, max: nat, i: nat, d: Delivered)
    requires AttemptsOk(s, max) && i < |s.deliveries| && s'.attempts == s.attempts
    requires s'.deliveries == s.deliveries[i := d]
    requires d.key == s.deliveries[i].key && d.attempt == s.deliveries[i].attempt
    requires Admitted(d.phase) || d.ingested
             ==> d.attempt <= max
    ensures AttemptsOk(s', max)
  {
    var ds, ds' := s.deliveries, s'.deliveries;
    forall key
      ensures Counter(s', key) == Of(ds', key)
    {
      OfUpdate(ds, i, d, key);
      assert Counter(s, key) == Of(ds, key);
    }
    forall j | 0 <= j < |ds'|
      ensures Numbered(ds', max, j)
    {
      assert Numbered(ds, max, j);
      if i <= j {
        OfUpdate(ds[..j + 1], i, d, ds[j].key);
        assert ds'[..j + 1] == ds[..j + 1][i := d];
      } else {
        assert ds'[..j + 1] == ds[..j + 1];
      }
    }
  }

  lemma DeliverKeepsAttempts(s: System, max: nat, key: JobId, payload: nat)
    requires AttemptsOk(s, max)
    ensures AttemptsOk(Next(s, max, Deliver(key, payload)), max)
  {
    var s' := Next(s, max, Deliver(key, payload));
    var ds, ds' := s.deliveries, s'.deliveries;
    assert ds'[..|ds|] == ds;
    forall other
      ensures Counter(s', other) == Of(ds', other)
    {
      assert Counter(s, other) == Of(ds, other);
    }
    forall j | 0 <= j < |ds'|
      ensures Numbered(ds', max, j)
    {
      if j < |ds| {
        assert Numbered(ds, max, j) && ds'[..j + 1] == ds[..j + 1];
      } else {
        assert ds'[..j + 1] == ds' && Counter(s, key) == Of(ds, key);
      }
    }
  }

  /** The one delivery that an event other than a new one touches, as it is afterwards. */
  function Touched(s: System, max: nat, e: Event): Delivered
    requires Enabled(s, e) && !e.Deliver? && !e.Forget?
  {
    Next(s, max, e).deliveries[e.i]
  }

  lemma StepKeepsAttempts(s: System, max: nat, e: Event)
    requires AttemptsOk(s, max) && Enabled(s, e)
    ensures AttemptsOk(Next(s, max, e), max)
  {
    match e
    case Deliver(key, payload) => DeliverKeepsAttempts(s, max, key, payload);
    case Forget(_) =>
      var s' := Next(s, max, e);
      assert forall key :: Counter(s', key) == Counter(s, key);
    case _ =>
      assert Numbered(s.deliveries, max, e.i);
      UpdateKeepsAttempts(s, Next(s, max, e), max, e.i, Touched(s, max, e));
  }

  /** Every counter moves exactly with the phase of the delivery that is touched. */
  ghost predicate Moves(s: System, s': System, i: nat, d: Delivered) {
    && i < |s.deliveries| && s'.deliveries == s.deliveries[i := d] && d.key == s.deliveries[i].key
    && var was, now := TallyOf(s.deliveries[i].phase), TallyOf(d.phase);
    && s'.done + Flag(was == AsDone) == s.done + Flag(now == AsDone)
    && s'.failed + Flag(was == AsFailed) == s.failed + Flag(now == AsFailed)
    && s'.retried + Flag(was == AsRetried) == s.retried + Flag(now == AsRetried)
    && LettersMove(s, s', s.deliveries[i].phase, d)
  }

  ghost predicate LettersMove(s: System, s': System, was: Phase, d: Delivered) {
    if d.phase.EndedFailed? && !was.EndedFailed? then s'.deadLetters == [d.key] + s.deadLetters
    else s'.deadLetters == s.deadLetters && d.phase.EndedFailed? == was.EndedFailed?
  }

  lemma StepMoves(s: System, max: nat, i: nat)
    requires Enabled(s, Step(i))
    ensures Moves(s, Stepped(s, max, i), i, Stepped(s, max, i).deliveries[i])
  {
    hide Moves, Stepped;
    if Admitted(s.deliveries[i].phase) {
      AdmittedMoves(s, max, i);
    } else if s.deliveries[i].phase.Begun? {
      BegunMoves(s, max, i);
    } else if OnTheWayToFail(s.deliveries[i].phase) {
      FailureMoves(s, max, i);
    } else {
      RetryMoves(s, max, i);
    }
  }

  lemma AdmittedMoves(s: System, max: nat, i: nat)
    requires Enabled(s, Step(i)) && Admitted(s.deliveries[i].phase)
    ensures Moves(s, Stepped(s, max, i), i, Stepped(s, max, i).deliveries[i])
  {
  }

  lemma BegunMoves(s: System, max: nat, i: nat)
    requires Enabled(s, Step(i)) && s.deliveries[i].phase.Begun?
    ensures Moves(s, Stepped(s, max, i), i, Stepped(s, max, i).deliveries[i])
  {
  }

  predicate OnTheWayToFail(p: Phase) {
    p.Failing? || p.CountingFailed? || p.Pushing?
  }

  lemma FailureMoves(s: System, max: nat, i: nat)
    requires Enabled(s, Step(i)) && OnTheWayToFail(s.deliveries[i].phase)
    ensures Moves(s, Stepped(s, max, i), i, Stepped(s, max, i).deliveries[i])
  {
  }

  predicate OnTheWayBack(p: Phase) {
    p.Requeueing? || p.CountingRetried?
  }

  lemma RetryMoves(s: System, max: nat, i: nat)
    requires Enabled(s, Step(i)) && OnTheWayBack(s.deliveries[i].phase)
    ensures Moves(s, Stepped(s, max, i), i, Stepped(s, max, i).deliveries[i])
  {
  }

  lemma EventMoves(s: System, max: nat, e: Event)
    requires Enabled(s, e) && !e.Deliver? && !e.Forget?
    ensures Moves(s, Next(s, max, e), e.i, Touched(s, max, e))
  {
    hide Stepped;
    if e.Step? {
      StepMoves(s, max, e.i);
      hide Moves;
    }
  }

  lemma LettersStayRight(s: System, s': System, i: nat, d: Delivered, key: JobId)
    requires i < |s.deliveries| && s'.deliveries == s.deliveries[i := d] && d.key == s.deliveries[i].key
    requires LettersMove(s, s', s.deliveries[i].phase, d)
    requires Letters(s.deadLetters, key) == FailedOf(s.deliveries, key)
    ensures Letters(s'.deadLetters, key) == FailedOf(s'.deliveries, key)
  {
    FailedUpdate(s.deliveries, i, d, key);
  }

  lemma StepKeepsCounts(s: System, max: nat, e: Event)
    requires CountsOk(s) && Enabled(s, e)
    ensures CountsOk(Next(s, max, e))
  {
    var s' := Next(s, max, e);
    if e.Deliver? {
      assert s'.deliveries[..|s.deliveries|] == s.deliveries;
    } else if !e.Forget? {
      TouchKeepsCounts(s, max, e);
    }
  }

  lemma TouchKeepsCounts(s: System, max: nat, e: Event)
    requires CountsOk(s) && Enabled(s, e) && !e.Deliver? && !e.Forget?
    ensures CountsOk(Next(s, max, e))
  {
    hide CountsOk, Moves, Next, Touched;
    EventMoves(s, max, e);
    MovesKeepCounts(s, Next(s, max, e), e.i, Touched(s, max, e));
  }

  lemma MovesKeepCounts(s: System, s': System, i: nat, d: Delivered)
    requires CountsOk(s) && Moves(s, s', i, d)
    ensures CountsOk(s')
  {
    hide Tallied, Letters, FailedOf, LettersMove, TallyOf;
    TallyUpdate(s.deliveries, i, d, AsDone);
    TallyUpdate(s.deliveries, i, d, AsFailed);
    TallyUpdate(s.deliveries, i, d, AsRetried);
    forall key
      ensures Letters(s'.deadLetters, key) == FailedOf(s'.deliveries, key)
    {
      assert Letters(s.deadLetters, key) == FailedOf(s.deliveries, key);
      LettersStayRight(s, s', i, d, key);
    }
  }

  lemma {:induction false} AlwaysOk(max: nat, trace: seq<System>, events: seq<Event>, n: nat)
    requires Execution(max, trace, events) && n < |trace|
    ensures AttemptsOk(trace[n], max) && CountsOk(trace[n])
  {
    if n > 0 {
      AlwaysOk(max, trace, events, n - 1);
      assert StepAt(max, trace, events, n - 1);
      StepKeepsAttempts(trace[n - 1], max, events[n - 1]);
      StepKeepsCounts(trace[n - 1], max, events[n - 1]);
    }
  }

  // ------------------------------------------------------------------ over whole executions

  lemma {:induction false} OnlyTheFirstAreIngested(ds: seq<Delivered>, max: nat, n: nat, key: JobId)
    requires n <= |ds| && forall i :: 0 <= i < |ds| ==> Numbered(ds, max, i)
    ensures Ingestions(ds[..n], key) <= Of(ds[..n], key)
    ensures Ingestions(ds[..n], key) <= max
  {
    if n > 0 {
      OnlyTheFirstAreIngested(ds, max, n - 1, key);
      assert Numbered(ds, max, n - 1) && ds[..n][..n - 1] == ds[..n - 1];
    }
  }

  /** Whatever is redelivered and whichever workers die, a job is ingested at most `max` times. */
  lemma IngestedAtMostMaxTimes(max: nat, trace: seq<System>, events: seq<Event>, n: nat, key: JobId)
    requires Execution(max, trace, events) && n < |trace|
    ensures Ingestions(trace[n].deliveries, key) <= max
  {
    AlwaysOk(max, trace, events, n);
    var ds := trace[n].deliveries;
    OnlyTheFirstAreIngested(ds, max, |ds|, key);
    assert ds[..|ds|] == ds;
  }

  /** Every delivery of a job has an attempt number of its own, 1 to the counter. */
  lemma AttemptsAreDistinct(max: nat, trace: seq<System>, events: seq<Event>, n: nat, i: nat, j: nat)
    requires Execution(max, trace, events) && n < |trace| && i < j < |trace[n].deliveries|
    requires trace[n].deliveries[i].key == trace[n].deliveries[j].key
    ensures 1 <= trace[n].deliveries[i].attempt < trace[n].deliveries[j].attempt
            <= Counter(trace[n], trace[n].deliveries[j].key)
  {
    AlwaysOk(max, trace, events, n);
    var ds := trace[n].deliveries;
    assert Counter(trace[n], ds[j].key) == Of(ds, ds[j].key);
    NumbersIncrease(ds, max, i, j);
  }

  lemma AmongNext(ds: seq<Delivered>, j: nat, key: JobId)
    requires j < |ds|
    ensures Among(ds, j + 1, key) == Among(ds, j, key) + Flag(ds[j].key == key)
  {
    assert ds[..j + 1][..j] == ds[..j];
  }

  lemma AmongAll(ds: seq<Delivered>, key: JobId)
    ensures Among(ds, |ds|, key) == Of(ds, key)
  {
    assert ds[..|ds|] == ds;
  }

  lemma {:induction false} AmongGrows(ds: seq<Delivered>, a: nat, b: nat, key: JobId)
    requires a <= b <= |ds|
    ensures Among(ds, a, key) <= Among(ds, b, key)
  {
    hide Among;
    if a < b {
      AmongGrows(ds, a, b - 1, key);
      AmongNext(ds, b - 1, key);
    }
  }

  lemma NumbersIncrease(ds: seq<Delivered>, max: nat, i: nat, j: nat)
    requires i < j < |ds| && ds[i].key == ds[j].key && Numbered(ds, max, i) && Numbered(ds, max, j)
    ensures 1 <= ds[i].attempt < ds[j].attempt <= Of(ds, ds[j].key)
  {
    hide Among, Of;
    AmongNext(ds, i, ds[j].key);
    AmongNext(ds, j, ds[j].key);
    AmongGrows(ds, i + 1, j, ds[j].key);
    AmongGrows(ds, j + 1, |ds|, ds[j].key);
    AmongAll(ds, ds[j].key);
  }

  lemma {:induction false} EachIsCountedOrNot(ds: seq<Delivered>)
    ensures |ds| == Tallied(ds, AsDone) + Tallied(ds, AsFailed) + Tallied(ds, AsRetried) + Tallied(ds, NotYet)
  {
    if ds != [] {
      EachIsCountedOrNot(ds[..|ds| - 1]);
    }
  }

  /** Deliveries started = done + failed + retried + deliveries that have not reached their counter,
      because they are still on their way or their worker died before. */
  lemma DeliveriesAreAccountedFor(max: nat, trace: seq<System>, events: seq<Event>, n: nat)
    requires Execution(max, trace, events) && n < |trace|
    ensures |trace[n].deliveries| == trace[n].done + trace[n].failed + trace[n].retried
            + Tallied(trace[n].deliveries, NotYet)
  {
    AlwaysOk(max, trace, events, n);
    EachIsCountedOrNot(trace[n].deliveries);
  }

  /** A job is dead-lettered once for every delivery of it that ended failed, so what is counted as failed
      and is not a dead letter is a delivery between the two commands, or one that died there. */
  lemma DeadLettersAreFailures(max: nat, trace: seq<System>, events: seq<Event>, n: nat, key: JobId)
    requires Execution(max, trace, events) && n < |trace|
    ensures Letters(trace[n].deadLetters, key) == FailedOf(trace[n].deliveries, key)
    ensures trace[n].failed == InPhase(trace[n].deliveries, EndedFailed) + InPhase(trace[n].deliveries, Pushing)
  {
    AlwaysOk(max, trace, events, n);
    FailedInTwo(trace[n].deliveries);
  }

  function InPhase(ds: seq<Delivered>, p: Phase): nat {
    if ds == [] then 0 else InPhase(ds[..|ds| - 1], p) + if ds[|ds| - 1].phase == p then 1 else 0
  }

  lemma {:induction false} FailedInTwo(ds: seq<Delivered>)
    ensures Tallied(ds, AsFailed) == InPhase(ds, EndedFailed) + InPhase(ds, Pushing)
  {
    if ds != [] {
      FailedInTwo(ds[..|ds| - 1]);
    }
  }

  // ------------------------------------------------------------------ how a job ends

  predicate IsDone(s: System, key: JobId) {
    key in s.status && s.status[key] == DONE
  }

  /** The status an event saves for a job, if it saves one. */
  function Saves(s: System, e: Event, max: nat, key: JobId): Option<Status>
    requires Enabled(s, e)
  {
    if !e.Step? || s.deliveries[e.i].key != key then None
    else
      match s.deliveries[e.i].phase
      case Begun => if s.deliveries[e.i].attempt > max then None else Some(PROCESSING)
      case SavingDone => Some(DONE)
      case Failing => Some(FAILED)
      case Requeueing => Some(QUEUED)
      case _ => None
  }

  lemma SavedIsStatus(s: System, max: nat, e: Event, key: JobId)
    requires Enabled(s, e)
    ensures Saves(s, e, max, key).None? ==> IsDone(Next(s, max, e), key) == IsDone(s, key)
    ensures Saves(s, e, max, key).Some? ==> IsDone(Next(s, max, e), key) == (Saves(s, e, max, key) == Some(DONE))
  {
  }

  /** Event `k` saves a status for the job. */
  ghost predicate SavesAt(max: nat, trace: seq<System>, events: seq<Event>, key: JobId, k: nat)
    requires |trace| == |events| + 1
  {
    k < |events| && StepAt(max, trace, events, k) && Saves(trace[k], events[k], max, key).Some?
  }

  /** Event `k` is the last before state `n` to save a status for the job, and the status is DONE. */
  ghost predicate DoneLast(max: nat, trace: seq<System>, events: seq<Event>, key: JobId, k: nat, n: nat)
    requires |trace| == |events| + 1
  {
    && k < n <= |events| && StepAt(max, trace, events, k)
    && Saves(trace[k], events[k], max, key) == Some(DONE)
    && forall j :: k < j < n ==> !SavesAt(max, trace, events, key, j)
  }

  lemma {:induction false} DoneWasSaved(max: nat, trace: seq<System>, events: seq<Event>, key: JobId, n: nat)
    returns (k: nat)
    requires Execution(max, trace, events) && n < |trace| && IsDone(trace[n], key)
    ensures DoneLast(max, trace, events, key, k, n)
  {
    hide Next, Saves, Enabled;
    assert n > 0;
    k := n - 1;
    assert StepAt(max, trace, events, n - 1);
    SavedIsStatus(trace[n - 1], max, events[n - 1], key);
    if Saves(trace[n - 1], events[n - 1], max, key).None? {
      k := DoneWasSaved(max, trace, events, key, n - 1);
    }
  }

  lemma {:induction false} SavedLastIsDone(max: nat, trace: seq<System>, events: seq<Event>, key: JobId, k: nat, n: nat)
    requires Execution(max, trace, events) && DoneLast(max, trace, events, key, k, n)
    ensures IsDone(trace[n], key)
  {
    hide Next, Saves, Enabled;
    assert StepAt(max, trace, events, n - 1);
    SavedIsStatus(trace[n - 1], max, events[n - 1], key);
    if k < n - 1 {
      assert !SavesAt(max, trace, events, key, n - 1);
      SavedLastIsDone(max, trace, events, key, k, n - 1);
    }
  }

  /** The upload is in a delivery's hand, or was: it may still save DONE. */
  predicate Holds(s: System, j: nat, key: JobId) {
    && j < |s.deliveries| && s.deliveries[j].key == key && s.deliveries[j].alive
    && match s.deliveries[j].phase
       case Loaded => true
       case Ingesting => true
       case Deleting => true
       case SavingDone => true
       case _ => false
  }

  ghost predicate SamePayload(s: System, key: JobId, payload: nat) {
    forall j :: 0 <= j < |s.deliveries| && s.deliveries[j].key == key ==> s.deliveries[j].payload == payload
  }

  /** The message of a job names its upload. */
  ghost predicate OneMessage(events: seq<Event>, key: JobId, payload: nat) {
    forall e <- events :: e.Deliver? && e.key == key ==> e.payload == payload
  }

  lemma PayloadKept(s: System, max: nat, e: Event, key: JobId, payload: nat)
    requires Enabled(s, e) && SamePayload(s, key, payload)
    requires e.Deliver? && e.key == key ==> e.payload == payload
    ensures SamePayload(Next(s, max, e), key, payload)
  {
  }

  lemma {:induction false} PayloadsMatch(max: nat, trace: seq<System>, events: seq<Event>, key: JobId,
                                         payload: nat, n: nat)
    requires Execution(max, trace, events) && n < |trace| && OneMessage(events, key, payload)
    ensures SamePayload(trace[n], key, payload)
  {
    if n > 0 {
      hide Next, Enabled;
      PayloadsMatch(max, trace, events, key, payload, n - 1);
      assert StepAt(max, trace, events, n - 1) && events[n - 1] in events;
      PayloadKept(trace[n - 1], max, events[n - 1], key, payload);
    }
  }

  /** Once the upload is gone nobody comes to hold it. */
  lemma HoldersOnlyLeave(s: System, max: nat, e: Event, key: JobId, payload: nat, j: nat)
    requires Enabled(s, e) && SamePayload(s, key, payload) && payload !in s.payloads
    requires Holds(Next(s, max, e), j, key)
    ensures Holds(s, j, key)
  {
  }

  lemma GoneStaysGone(s: System, max: nat, e: Event, payload: nat)
    requires Enabled(s, e) && payload !in s.payloads
    ensures payload !in Next(s, max, e).payloads
  {
  }

  lemma {:induction false} GoneSince(max: nat, trace: seq<System>, events: seq<Event>, m: nat, n: nat, payload: nat)
    requires Execution(max, trace, events) && m <= n < |trace| && payload !in trace[m].payloads
    ensures payload !in trace[n].payloads
  {
    if m < n {
      hide Next, Enabled;
      GoneSince(max, trace, events, m, n - 1, payload);
      assert StepAt(max, trace, events, n - 1);
      GoneStaysGone(trace[n - 1], max, events[n - 1], payload);
    }
  }

  lemma {:induction false} HeldSince(max: nat, trace: seq<System>, events: seq<Event>, m: nat, n: nat, key: JobId,
                                     payload: nat, j: nat)
    requires Execution(max, trace, events) && OneMessage(events, key, payload) && m <= n < |trace|
    requires payload !in trace[m].payloads && Holds(trace[n], j, key)
    ensures Holds(trace[m], j, key)
  {
    if m < n {
      hide Next, Enabled, Holds, OneMessage, SamePayload;
      GoneSince(max, trace, events, m, n - 1, payload);
      PayloadsMatch(max, trace, events, key, payload, n - 1);
      assert StepAt(max, trace, events, n - 1);
      HoldersOnlyLeave(trace[n - 1], max, events[n - 1], key, payload, j);
      HeldSince(max, trace, events, m, n - 1, key, payload, j);
    }
  }

  /** How a job ends whose upload is gone at state `m`, deleted after ingestion or run out, over every
      interleaving: it is DONE exactly if the last status saved for it is DONE, and that was saved before,
      or by a delivery that had the upload in hand at `m`. A later delivery can only fail it. */
  lemma DoneAfterUploadIsGone(max: nat, trace: seq<System>, events: seq<Event>, m: nat, n: nat, key: JobId,
                              payload: nat)
    requires Execution(max, trace, events) && OneMessage(events, key, payload) && m <= n < |trace|
    requires payload !in trace[m].payloads
    ensures IsDone(trace[n], key)
            <==> exists k: nat :: DoneLast(max, trace, events, key, k, n)
                               && (k < m || (events[k].Step? && Holds(trace[m], events[k].i, key)))
  {
    if IsDone(trace[n], key) {
      var k := DoneWasSaved(max, trace, events, key, n);
      if m <= k {
        HeldSince(max, trace, events, m, k, key, payload, events[k].i);
      }
    }
    if k: nat :| DoneLast(max, trace, events, key, k, n) {
      SavedLastIsDone(max, trace, events, key, k, n);
    }
  }

  /** Whoever has yet to save DONE has deleted the upload. */
  ghost predicate DeletedIsGone(s: System) {
    forall i :: 0 <= i < |s.deliveries| && s.deliveries[i].phase.SavingDone?
      ==> s.deliveries[i].payload !in s.payloads
  }

  lemma StepKeepsDeleted(s: System, max: nat, e: Event)
    requires DeletedIsGone(s) && Enabled(s, e)
    ensures DeletedIsGone(Next(s, max, e))
  {
  }

  lemma {:induction false} DeletedStaysGone(max: nat, trace: seq<System>, events: seq<Event>, n: nat)
    requires Execution(max, trace, events) && n < |trace|
    ensures DeletedIsGone(trace[n])
  {
    if n > 0 {
      hide Next, Enabled;
      DeletedStaysGone(max, trace, events, n - 1);
      assert StepAt(max, trace, events, n - 1);
      StepKeepsDeleted(trace[n - 1], max, events[n - 1]);
    }
  }

  /** Delivery `i` ingested the job and has deleted its upload at state `m`; it has yet to save DONE. */
  ghost predicate Ingested(s: System, i: nat, key: JobId) {
    i < |s.deliveries| && s.deliveries[i].key == key && s.deliveries[i].phase.SavingDone?
  }

  /** Nobody but delivery `i` has the upload in hand. */
  ghost predicate Alone(s: System, key: JobId, i: nat) {
    forall j :: 0 <= j < |s.deliveries| && Holds(s, j, key) ==> j == i
  }

  /** A job that was ingested ends DONE exactly if the delivery that ingested it lives to save DONE (or DONE
      was saved before), and nothing is saved for the job after that: neither the PROCESSING nor the FAILED
      of a redelivery. */
  lemma IngestedEndsDoneExactly(max: nat, trace: seq<System>, events: seq<Event>, m: nat, n: nat, i: nat,
                                key: JobId, payload: nat)
    requires Execution(max, trace, events) && OneMessage(events, key, payload) && m <= n < |trace|
    requires Ingested(trace[m], i, key) && Alone(trace[m], key, i)
    ensures IsDone(trace[n], key)
            <==> exists k: nat :: DoneLast(max, trace, events, key, k, n) && (k < m || events[k] == Step(i))
  {
    hide Next, Enabled, Saves;
    DeletedStaysGone(max, trace, events, m);
    PayloadsMatch(max, trace, events, key, payload, m);
    DoneAfterUploadIsGone(max, trace, events, m, n, key, payload);
    forall k: nat | DoneLast(max, trace, events, key, k, n) && (k < m || events[k] == Step(i))
      ensures IsDone(trace[n], key)
    {
      SavedLastIsDone(max, trace, events, key, k, n);
    }
  }

  /** If the worker dies between deleting the upload and saving DONE, the ingested job is never DONE again. */
  lemma IngestedButNeverDone(max: nat, trace: seq<System>, events: seq<Event>, m: nat, n: nat, i: nat,
                             key: JobId, payload: nat)
    requires Execution(max, trace, events) && OneMessage(events, key, payload) && m <= n < |trace|
    requires Ingested(trace[m], i, key) && Alone(trace[m], key, i)
    requires !trace[m].deliveries[i].alive && !IsDone(trace[m], key)
    ensures !IsDone(trace[n], key)
  {
    if IsDone(trace[n], key) {
      var k := DoneWasSaved(max, trace, events, key, n);
      if m <= k {
        DeletedStaysGone(max, trace, events, m);
        PayloadsMatch(max, trace, events, key, payload, m);
        HeldSince(max, trace, events, m, k, key, payload, events[k].i);
      } else {
        SavedLastIsDone(max, trace, events, key, k, m);
      }
    }
  }

  /** One more event at the end of an execution. */
  lemma Go(max: nat, trace: seq<System>, events: seq<Event>, e: Event)
    returns (trace': seq<System>, events': seq<Event>)
    requires Execution(max, trace, events) && Enabled(trace[|events|], e)
    ensures Execution(max, trace', events') && events' == events + [e] && |trace'| == |events'| + 1
    ensures trace'[|events'|] == Next(trace[|events|], max, e)
  {
    trace', events' := trace + [Next(trace[|events|], max, e)], events + [e];
    forall i | 0 <= i < |events'|
      ensures StepAt(max, trace', events', i)
    {
      assert i < |events| ==> StepAt(max, trace, events, i);
    }
  }

  lemma Opens(max: nat, s: System) returns (trace: seq<System>, events: seq<Event>)
    requires Start(s)
    ensures Execution(max, trace, events) && trace == [s] && events == []
  {
    trace, events := [s], [];
  }

  /** The first delivery of a job once it has ingested the job, deleted its upload and died. */
  function Died(key: JobId): Delivered {
    Delivered(key, 0, 1, SavingDone, false, true)
  }

  lemma Ingests(key: JobId) returns (trace: seq<System>, events: seq<Event>)
    ensures Execution(3, trace, events) && |trace| == |events| + 1
    ensures trace[|events|]
            == System([Delivered(key, 0, 1, Ingesting, true, true)], map[key := 1], map[key := PROCESSING],
                      {0}, 0, 0, 0, [])
  {
    hide Execution;
    trace, events := Opens(3, System([], map[], map[key := QUEUED], {0}, 0, 0, 0, []));
    trace, events := Go(3, trace, events, Deliver(key, 0));
    trace, events := Go(3, trace, events, Step(0));
    trace, events := Go(3, trace, events, Step(0));
    trace, events := Go(3, trace, events, Step(0));
  }

  lemma WorkerDies(key: JobId) returns (trace: seq<System>, events: seq<Event>)
    ensures Execution(3, trace, events) && |trace| == |events| + 1
    ensures trace[|events|] == System([Died(key)], map[key := 1], map[key := PROCESSING], {}, 0, 0, 0, [])
  {
    hide Execution;
    trace, events := Ingests(key);
    trace, events := Go(3, trace, events, IngestEnds(0, Stored("doc", 1)));
    trace, events := Go(3, trace, events, Step(0));
    trace, events := Go(3, trace, events, Die(0));
  }

  lemma RedeliveryFindsNothing(key: JobId) returns (trace: seq<System>, events: seq<Event>)
    ensures Execution(3, trace, events) && |trace| == |events| + 1
    ensures trace[|events|] == System([Died(key), Delivered(key, 0, 2, Failing, true, false)], map[key := 2],
                                      map[key := PROCESSING], {}, 0, 0, 0, [])
  {
    hide Execution;
    trace, events := WorkerDies(key);
    trace, events := Go(3, trace, events, Deliver(key, 0));
    trace, events := Go(3, trace, events, Step(1));
    trace, events := Go(3, trace, events, Step(1));
  }

  /** A document that was ingested at the first attempt, whose job ends FAILED with a dead letter: the worker
      died before it saved DONE, and the redelivery finds no upload. */
  lemma IngestedJobFails(key: JobId) returns (trace: seq<System>, events: seq<Event>)
    ensures Execution(3, trace, events) && |trace| == |events| + 1
    ensures trace[|events|] == System([Died(key), Delivered(key, 0, 2, EndedFailed, true, false)], map[key := 2],
                                      map[key := FAILED], {}, 0, 1, 0, [key])
  {
    hide Execution;
    trace, events := RedeliveryFindsNothing(key);
    trace, events := Go(3, trace, events, Step(1));
    trace, events := Go(3, trace, events, Step(1));
    trace, events := Go(3, trace, events, Step(1));
  }

  // ------------------------------------------------------------------ a delivery that nothing interrupts

  /** How many commands a delivery can still make. */
  function Left(p: Phase): nat {
    match p
    case Begun => 8
    case Processing => 7
    case Loaded => 6
    case Ingesting => 5
    case Deleting => 4
    case SavingDone => 3
    case CountingDone => 2
    case Failing => 4
    case CountingFailed => 3
    case Pushing => 2
    case Requeueing => 3
    case CountingRetried => 2
    case _ => 0
  }

  /** The delivery's commands one after another, to its end. */
  function RunOut(s: System, max: nat, i: nat, result: Ingest): System
    requires i < |s.deliveries| && s.deliveries[i].alive
    decreases Left(s.deliveries[i].phase)
  {
    if Ended(s.deliveries[i].phase) then s
    else
      var e := if s.deliveries[i].phase.Ingesting? then IngestEnds(i, result) else Step(i);
      RunOut(Next(s, max, e), max, i, result)
  }

  function KeysOf(jobs: seq<Job>): seq<JobId> {
    if jobs == [] then [] else [jobs[0].key] + KeysOf(jobs[1..])
  }

  function TrimmedKeys(keys: seq<JobId>, n: nat): seq<JobId> {
    if n == 0 || |keys| <= n then keys else keys[..n]
  }

  /** The service's store shows what the protocol's state says. */
  ghost predicate Shows(st: Store, s: System, limits: Limits) {
    && (forall key :: AttemptsOf(st, key) == Counter(s, key))
    && (forall key <- s.status :: key in st.jobs && st.jobs[key].status == s.status[key])
    && (forall key <- st.jobs :: st.jobs[key].key == key)
    && st.payloads.Keys == s.payloads
    && st.stats.done == s.done && st.stats.failed == s.failed && st.stats.retried == s.retried
    && KeysOf(st.deadLetters) == TrimmedKeys(s.deadLetters, limits.maxDeadLetters)
  }

  lemma {:induction false} KeysOfPrefix(jobs: seq<Job>, n: nat)
    requires n <= |jobs|
    ensures |KeysOf(jobs)| == |jobs| && KeysOf(jobs[..n]) == KeysOf(jobs)[..n]
  {
    if jobs != [] {
      KeysOfPrefix(jobs[1..], if n > 0 then n - 1 else 0);
      if n > 0 {
        assert jobs[..n][1..] == jobs[1..][..n - 1];
      }
    }
  }

  /** LPUSH and LTRIM on the jobs are LPUSH and LTRIM on their keys. */
  lemma PushShows(letters: seq<Job>, keys: seq<JobId>, job: Job, n: nat)
    requires KeysOf(letters) == TrimmedKeys(keys, n)
    ensures KeysOf(Trimmed([job] + letters, n)) == TrimmedKeys([job.key] + keys, n)
  {
    var all := [job] + letters;
    assert all[1..] == letters;
    KeysOfPrefix(all, |all|);
    if n > 0 && |all| > n {
      KeysOfPrefix(all, n);
    }
    if n > 0 && |keys| >= n {
      assert ([job.key] + keys)[..n] == [job.key] + keys[..n - 1];
    }
  }

  /** A failure from the FAILED record on. */
  lemma FailingRunsOut(s: System, max: nat, i: nat, result: Ingest)
    requires i < |s.deliveries| && s.deliveries[i].alive && s.deliveries[i].phase.Failing?
    ensures RunOut(s, max, i, result)
            == At(s, i, EndedFailed).(status := s.status[s.deliveries[i].key := FAILED], failed := s.failed + 1,
                                      deadLetters := [s.deliveries[i].key] + s.deadLetters)
  {
    var s1 := Stepped(s, max, i);
    var s2 := Stepped(s1, max, i);
    var s3 := Stepped(s2, max, i);
    assert s3.deliveries == At(s, i, EndedFailed).deliveries;
    assert RunOut(s, max, i, result) == RunOut(s1, max, i, result) == RunOut(s2, max, i, result)
           == RunOut(s3, max, i, result);
  }

  lemma RetryRunsOut(s: System, max: nat, i: nat, result: Ingest)
    requires i < |s.deliveries| && s.deliveries[i].alive && s.deliveries[i].phase.Requeueing?
    ensures RunOut(s, max, i, result)
            == At(s, i, EndedRetried).(status := s.status[s.deliveries[i].key := QUEUED], retried := s.retried + 1)
  {
    var s1 := Stepped(s, max, i);
    var s2 := Stepped(s1, max, i);
    assert s2.deliveries == At(s, i, EndedRetried).deliveries;
    assert RunOut(s, max, i, result) == RunOut(s1, max, i, result) == RunOut(s2, max, i, result);
  }

  lemma DoneRunsOut(s: System, max: nat, i: nat, result: Ingest)
    requires i < |s.deliveries| && s.deliveries[i].alive && s.deliveries[i].phase.Deleting?
    ensures RunOut(s, max, i, result)
            == At(s, i, EndedDone).(payloads := s.payloads - {s.deliveries[i].payload},
                                    status := s.status[s.deliveries[i].key := DONE], done := s.done + 1)
  {
    var s1 := Stepped(s, max, i);
    var s2 := Stepped(s1, max, i);
    var s3 := Stepped(s2, max, i);
    assert s3.deliveries == At(s, i, EndedDone).deliveries;
    assert RunOut(s, max, i, result) == RunOut(s1, max, i, result) == RunOut(s2, max, i, result)
           == RunOut(s3, max, i, result);
  }

  /** The commands up to the point where a delivery's outcome is decided. */
  function Decided(s: System, max: nat, i: nat, result: Ingest): System
    requires i < |s.deliveries| && s.deliveries[i].alive && s.deliveries[i].phase.Begun?
  {
    var d := s.deliveries[i];
    var processing := s.(status := s.status[d.key := PROCESSING]);
    if d.attempt > max then At(s, i, Failing)
    else if d.payload !in s.payloads then At(processing, i, Failing)
    else
      var ingested := d.(ingested := true,
                         phase := match result
                                  case Stored(_, _) => Deleting
                                  case Permanent(_) => Failing
                                  case Transient(_) => if d.attempt >= max then Failing else Requeueing);
      processing.(deliveries := s.deliveries[i := ingested])
  }

  lemma BeginningRunsOut(s: System, max: nat, i: nat, result: Ingest)
    requires i < |s.deliveries| && s.deliveries[i].alive && s.deliveries[i].phase.Begun?
    ensures RunOut(s, max, i, result) == RunOut(Decided(s, max, i, result), max, i, result)
  {
    var d, s' := s.deliveries[i], Decided(s, max, i, result);
    var s1 := Stepped(s, max, i);
    assert RunOut(s, max, i, result) == RunOut(s1, max, i, result);
    if d.attempt <= max {
      var s2 := Stepped(s1, max, i);
      assert RunOut(s1, max, i, result) == RunOut(s2, max, i, result);
      if d.payload in s.payloads {
        var s3 := Stepped(s2, max, i);
        assert RunOut(s2, max, i, result) == RunOut(s3, max, i, result);
        var s4 := Next(s3, max, IngestEnds(i, result));
        assert RunOut(s3, max, i, result) == RunOut(s4, max, i, result);
        assert s4.deliveries == s'.deliveries;
      } else {
        assert s2.deliveries == s'.deliveries;
      }
    }
  }

  /** What `UndisturbedDelivery` says, of the state the commands leave. */
  ghost predicate Agrees(st': Store, outcome: Outcome, s': System, limits: Limits, i: nat) {
    && Shows(st', s', limits) && |s'.deliveries| == i + 1
    && var phase := s'.deliveries[i].phase;
    && (outcome.RetryLater? <==> phase.EndedRetried?)
    && (outcome.Finished? <==> phase.EndedDone? || phase.EndedFailed?)
    && (outcome.Finished? ==> (outcome.job.status == DONE <==> phase.EndedDone?))
  }

  function Begin(s: System, max: nat, key: JobId, payload: nat): System {
    Next(s, max, Deliver(key, payload))
  }

  /** An execution that comes to failing. */
  predicate Fails(st: Store, limits: Limits, key: JobId, payload: nat, result: Ingest) {
    var attempt := AttemptsOf(st, key) + 1;
    attempt > limits.maxAttempts || payload !in st.payloads || result.Permanent?
    || (result.Transient? && attempt >= limits.maxAttempts)
  }

  lemma FailureStore(st: Store, limits: Limits, key: JobId, payload: nat, result: Ingest)
    requires key in st.jobs && st.jobs[key].key == key && Fails(st, limits, key, payload, result)
    ensures var (st', outcome) := Executed(st, limits, key, payload, result);
            && outcome.Finished? && outcome.job.status == FAILED && outcome.job.key == key
            && st'.jobs == st.jobs[key := outcome.job] && st'.attempts == st.attempts[key := AttemptsOf(st, key) + 1]
            && st'.payloads == st.payloads && st'.stats == st.stats.(failed := st.stats.failed + 1)
            && st'.deadLetters == Trimmed([outcome.job] + st.deadLetters, limits.maxDeadLetters)
  {
    hide Trimmed;
  }

  lemma DecidedToFail(st: Store, s: System, limits: Limits, key: JobId, payload: nat, result: Ingest)
    requires Shows(st, s, limits)
    ensures var i, max := |s.deliveries|, limits.maxAttempts;
            var d := Decided(Begin(s, max, key, payload), max, i, result);
            && |d.deliveries| == i + 1 && d.deliveries[i].key == key && d.deliveries[i].alive
            && d.attempts == s.attempts[key := Counter(s, key) + 1]
            && (d.deliveries[i].phase.Failing? ==>
                  && Fails(st, limits, key, payload, result)
                  && (d.status == s.status || d.status == s.status[key := PROCESSING])
                  && d == d.(payloads := s.payloads, done := s.done, failed := s.failed, retried := s.retried,
                             deadLetters := s.deadLetters))
  {
    assert AttemptsOf(st, key) == Counter(s, key);
  }

  lemma FailureAgrees(st: Store, s: System, limits: Limits, key: JobId, payload: nat, result: Ingest)
    requires Shows(st, s, limits) && key in st.jobs
    requires Decided(Begin(s, limits.maxAttempts, key, payload), limits.maxAttempts, |s.deliveries|, result)
             .deliveries[|s.deliveries|].phase.Failing?
    ensures var i, max := |s.deliveries|, limits.maxAttempts;
            var (st', outcome) := Executed(st, limits, key, payload, result);
            var decided := Decided(Begin(s, max, key, payload), max, i, result);
            Agrees(st', outcome, RunOut(decided, max, i, result), limits, i)
  {
    hide RunOut, TrimmedKeys, Trimmed, Executed, KeysOf, Fails, Decided;
    var i, max := |s.deliveries|, limits.maxAttempts;
    DecidedToFail(st, s, limits, key, payload, result);
    FailureStore(st, limits, key, payload, result);
    FailingRunsOut(Decided(Begin(s, max, key, payload), max, i, result), max, i, result);
    var (st', outcome) := Executed(st, limits, key, payload, result);
    forall k
      ensures AttemptsOf(st', k) == Counter(Decided(Begin(s, max, key, payload), max, i, result), k)
    {
      assert AttemptsOf(st, k) == Counter(s, k);
      assert AttemptsOf(st, key) == Counter(s, key);
    }
    PushShows(st.deadLetters, s.deadLetters, outcome.job, limits.maxDeadLetters);
  }

  lemma RetryAgrees(st: Store, s: System, limits: Limits, key: JobId, payload: nat, result: Ingest)
    requires Shows(st, s, limits) && key in st.jobs
    requires Decided(Begin(s, limits.maxAttempts, key, payload), limits.maxAttempts, |s.deliveries|, result)
             .deliveries[|s.deliveries|].phase.Requeueing?
    ensures var i, max := |s.deliveries|, limits.maxAttempts;
            var (st', outcome) := Executed(st, limits, key, payload, result);
            var decided := Decided(Begin(s, max, key, payload), max, i, result);
            Agrees(st', outcome, RunOut(decided, max, i, result), limits, i)
  {
    hide RunOut, TrimmedKeys, Trimmed, KeysOf, Jobs.Failing, Abandoned;
    var i, max := |s.deliveries|, limits.maxAttempts;
    assert AttemptsOf(st, key) == Counter(s, key);
    RetryRunsOut(Decided(Begin(s, max, key, payload), max, i, result), max, i, result);
    forall k
      ensures AttemptsOf(Executed(st, limits, key, payload, result).0, k) == Counter(Begin(s, max, key, payload), k)
    {
      assert AttemptsOf(st, k) == Counter(s, k);
    }
  }

  lemma SuccessAgrees(st: Store, s: System, limits: Limits, key: JobId, payload: nat, result: Ingest)
    requires Shows(st, s, limits) && key in st.jobs
    requires Decided(Begin(s, limits.maxAttempts, key, payload), limits.maxAttempts, |s.deliveries|, result)
             .deliveries[|s.deliveries|].phase.Deleting?
    ensures var i, max := |s.deliveries|, limits.maxAttempts;
            var (st', outcome) := Executed(st, limits, key, payload, result);
            var decided := Decided(Begin(s, max, key, payload), max, i, result);
            Agrees(st', outcome, RunOut(decided, max, i, result), limits, i)
  {
    hide RunOut, TrimmedKeys, Trimmed, KeysOf, Jobs.Failing, Abandoned;
    var i, max := |s.deliveries|, limits.maxAttempts;
    assert AttemptsOf(st, key) == Counter(s, key);
    DoneRunsOut(Decided(Begin(s, max, key, payload), max, i, result), max, i, result);
    forall k
      ensures AttemptsOf(Executed(st, limits, key, payload, result).0, k) == Counter(Begin(s, max, key, payload), k)
    {
      assert AttemptsOf(st, k) == Counter(s, k);
    }
  }

  /** A delivery that nothing interrupts is one `execute`: its commands leave what the service's method
      leaves, and it is counted as what the method returns. */
  lemma UndisturbedDelivery(st: Store, s: System, limits: Limits, key: JobId, payload: nat, result: Ingest)
    requires Shows(st, s, limits) && key in st.jobs
    ensures var i, max := |s.deliveries|, limits.maxAttempts;
            var (st', outcome) := Executed(st, limits, key, payload, result);
            Agrees(st', outcome, RunOut(Begin(s, max, key, payload), max, i, result), limits, i)
  {
    hide Agrees, Shows, Executed, RunOut;
    var i, max := |s.deliveries|, limits.maxAttempts;
    var begun := Begin(s, max, key, payload);
    BeginningRunsOut(begun, max, i, result);
    match Decided(begun, max, i, result).deliveries[i].phase
    case Failing => FailureAgrees(st, s, limits, key, payload, result);
    case Requeueing => RetryAgrees(st, s, limits, key, payload, result);
    case Deleting => SuccessAgrees(st, s, limits, key, payload, result);
  }
}

/** Ingestion jobs: app/workers/service.py over the records, counters and lists of app/workers/jobs.py,
    and the in-process queue of app/workers/queue.py. What ingesting an upload comes to is an input. */
module Jobs {
  import opened Wrappers

  datatype JobId = JobId(tenant: string, number: nat)

  datatype Status = QUEUED | PROCESSING | DONE | FAILED

  datatype Upload = Upload(filename: string, contentType: Option<string>, title: Option<string>, data: seq<int>)

  datatype Job = Job(key: JobId, filename: string, contentType: Option<string>, title: Option<string>, size: nat,
                     status: Status, attempts: nat, docId: Option<string>, chunks: Option<nat>,
                     error: Option<Reason>, retryable: Option<bool>)

  /** What `job.error` says. */
  datatype Reason = KillsItsWorker(deliveries: nat) | UploadExpired | Raised(what: string)

  datatype Stats = Stats(submitted: nat, done: nat, failed: nat, retried: nat)

  /** What `ingest` does with an upload: it returns, or raises one of PERMANENT_ERRORS or anything else. */
  datatype Ingest = Stored(docId: string, chunks: nat) | Permanent(why: string) | Transient(why: string)

  /** How `execute` ends: None, the job, or TransientJobError. */
  datatype Outcome = Gone | Finished(job: Job) | RetryLater(why: string)

  datatype Limits = Limits(maxAttempts: nat, maxDeadLetters: nat)

  /** `ragjob:*`, `ragjob:*:attempts`, `ragupload:*`, `ragjobs:stats` and `ragjobs:dlq`. */
  datatype Store = Store(jobs: map<JobId, Job>, attempts: map<JobId, nat>, payloads: map<nat, seq<int>>, stats: Stats,
                         deadLetters: seq<Job>)

  function AttemptsOf(s: Store, key: JobId): nat {
    if key in s.attempts then s.attempts[key] else 0
  }

  /** LTRIM 0 n-1, for which n = 0 keeps everything. */
  function Trimmed(jobs: seq<Job>, n: nat): seq<Job> {
    if n == 0 || |jobs| <= n then jobs else jobs[..n]
  }

  function Saved(s: Store, job: Job): Store {
    s.(jobs := s.jobs[job.key := job])
  }

  function Abandoned(job: Job, error: Reason, retryable: bool): Job {
    job.(status := FAILED, error := Some(error), retryable := Some(retryable))
  }

  /** `_fail`. */
  function Failing(s: Store, limits: Limits, job: Job): Store {
    Saved(s, job).(stats := s.stats.(failed := s.stats.failed + 1),
                   deadLetters := Trimmed([job] + s.deadLetters, limits.maxDeadLetters))
  }

  /** What one `execute` makes of the store, and how it ends. */
  function Executed(s: Store, limits: Limits, key: JobId, payload: nat, ingest: Ingest): (Store, Outcome) {
    if key !in s.jobs then (s, Gone)
    else
      var attempt := AttemptsOf(s, key) + 1;
      var s1 := s.(attempts := s.attempts[key := attempt]);
      if attempt > limits.maxAttempts then
        var job := Abandoned(s.jobs[key], KillsItsWorker(attempt), false);
        (Failing(s1, limits, job), Finished(job))
      else
        var running := s.jobs[key].(status := PROCESSING, attempts := attempt);
        var s2 := Saved(s1, running);
        if payload !in s.payloads then
          var job := Abandoned(running, UploadExpired, false);
          (Failing(s2, limits, job), Finished(job))
        else
          match ingest
          case Permanent(why) =>
            var job := Abandoned(running, Raised(why), false);
            (Failing(s2, limits, job), Finished(job))
          case Transient(why) =>
            if attempt >= limits.maxAttempts then
              var job := Abandoned(running, Raised(why), true);
              (Failing(s2, limits, job), Finished(job))
            else
              var job := running.(status := QUEUED, error := Some(Raised(why)));
              (Saved(s2, job).(stats := s.stats.(retried := s.stats.retried + 1)), RetryLater(why))
          case Stored(docId, chunks) =>
            var job := running.(status := DONE, docId := Some(docId), chunks := Some(chunks), error := None,
                                retryable := None);
            (Saved(s2, job).(payloads := s.payloads - {payload}, stats := s.stats.(done := s.stats.done + 1)),
             Finished(job))
  }

  // ------------------------------------------------------------------ the service

  class IngestionJobs {
    const limits: Limits
    var jobs: map<JobId, Job>
    var attempts: map<JobId, nat>
    var payloads: map<nat, seq<int>>
    var stats: Stats
    var deadLetters: seq<Job>

    constructor (limits: Limits)
      ensures this.limits == limits && State() == Store(map[], map[], map[], Stats(0, 0, 0, 0), [])
    {
      this.limits := limits;
      jobs, attempts, payloads, stats, deadLetters := map[], map[], map[], Stats(0, 0, 0, 0), [];
    }

    function State(): Store
      reads this
    {
      Store(jobs, attempts, payloads, stats, deadLetters)
    }

    method Save(job: Job)
      modifies `jobs
      ensures State() == Saved(old(State()), job)
    {
      jobs := jobs[job.key := job];
    }

    method StartAttempt(key: JobId) returns (attempt: nat)
      modifies `attempts
      ensures attempt == AttemptsOf(old(State()), key) + 1
      ensures State() == old(State()).(attempts := old(attempts)[key := attempt])
    {
      attempt := AttemptsOf(State(), key) + 1;
      attempts := attempts[key := attempt];
    }

    /** `submit`, up to handing the job to the queue. */
    method Submit(tenant: string, upload: Upload, number: nat, payload: nat) returns (job: Job)
      modifies this
      ensures job == Job(JobId(tenant, number), upload.filename, upload.contentType, upload.title, |upload.data|,
                         QUEUED, 0, None, None, None, None)
      ensures State() == Saved(old(State()), job).(payloads := old(payloads)[payload := upload.data],
                                                   stats := old(stats).(submitted := old(stats).submitted + 1))
    {
      payloads := payloads[payload := upload.data];
      job := Job(JobId(tenant, number), upload.filename, upload.contentType, upload.title, |upload.data|,
                 QUEUED, 0, None, None, None, None);
      Save(job);
      stats := stats.(submitted := stats.submitted + 1);
    }

    /** `execute`. `ingest` is what ingesting the upload comes to if it gets that far. */
    method Execute(key: JobId, payload: nat, ingest: Ingest) returns (outcome: Outcome)
      modifies this
      ensures (State(), outcome) == Executed(old(State()), limits, key, payload, ingest)
    {
      if key !in jobs {
        return Gone;
      }
      var job := jobs[key];
      var attempt := StartAttempt(key);
      if attempt > limits.maxAttempts {
        job := Fail(job, KillsItsWorker(attempt), false);
        return Finished(job);
      }
      job := job.(status := PROCESSING, attempts := attempt);
      Save(job);
      if payload !in payloads {
        job := Fail(job, UploadExpired, false);
        return Finished(job);
      }
      match ingest
      case Permanent(why) =>
        job := Fail(job, Raised(why), false);
        return Finished(job);
      case Transient(why) =>
        if attempt >= limits.maxAttempts {
          job := Fail(job, Raised(why), true);
          return Finished(job);
        }
        job := job.(status := QUEUED, error := Some(Raised(why)));
        Save(job);
        stats := stats.(retried := stats.retried + 1);
        return RetryLater(why);
      case Stored(docId, chunks) =>
        payloads := payloads - {payload};
        job := job.(status := DONE, docId := Some(docId), chunks := Some(chunks), error := None, retryable := None);
        Save(job);
        stats := stats.(done := stats.done + 1);
        return Finished(job);
    }

    method Fail(job: Job, error: Reason, retryable: bool) returns (failed: Job)
      modifies `jobs, `stats, `deadLetters
      ensures failed == Abandoned(job, error, retryable)
      ensures State() == Failing(old(State()), limits, failed)
    {
      failed := job.(status := FAILED, error := Some(error), retryable := Some(retryable));
      Save(failed);
      stats := stats.(failed := stats.failed + 1);
      Push(failed);
    }

    /** The upload's TTL runs out. */
    method ExpireUpload(payload: nat)
      modifies `payloads
      ensures State() == old(State()).(payloads := old(payloads) - {payload})
    {
      payloads := payloads - {payload};
    }

    /** `DeadLetterQueue.push`: LPUSH and LTRIM. */
    method Push(job: Job)
      modifies `deadLetters
      ensures deadLetters == Trimmed([job] + old(deadLetters), limits.maxDeadLetters)
    {
      deadLetters := [job] + deadLetters;
      if limits.maxDeadLetters != 0 && |deadLetters| > limits.maxDeadLetters {
        deadLetters := deadLetters[..limits.maxDeadLetters];
      }
    }
  }

  class InlineJobQueue {
    const service: IngestionJobs

    constructor (service: IngestionJobs)
      ensures this.service == service
    {
      this.service := service;
    }

    /** `_run`: attempt after attempt until one does not ask for another. The upload's own TTL runs out
        before the attempt after `lives`. */
    method Run(key: JobId, payload: nat, ingest: nat -> Ingest, lives: nat)
      modifies service
      ensures service.State() == RunFrom(old(service.State()), service.limits, key, payload, ingest, lives, 1)
    {
      var attempt := 1;
      while attempt <= service.limits.maxAttempts
        invariant 1 <= attempt
        invariant RunFrom(service.State(), service.limits, key, payload, ingest, lives, attempt)
                  == RunFrom(old(service.State()), service.limits, key, payload, ingest, lives, 1)
      {
        if attempt > lives {
          service.ExpireUpload(payload);
        }
        var outcome := service.Execute(key, payload, ingest(attempt));
        if !outcome.RetryLater? {
          return;
        }
        attempt := attempt + 1;
      }
    }
  }

  /** The store when the attempt begins. */
  function Before(s: Store, payload: nat, lives: nat, attempt: nat): Store {
    if attempt > lives then s.(payloads := s.payloads - {payload}) else s
  }

  function RunFrom(s: Store, limits: Limits, key: JobId, payload: nat, ingest: nat -> Ingest, lives: nat,
                   attempt: nat): Store
    decreases limits.maxAttempts + 1 - attempt
  {
    if attempt > limits.maxAttempts then s
    else
      var (s', outcome) := Executed(Before(s, payload, lives, attempt), limits, key, payload, ingest(attempt));
      if outcome.RetryLater? then RunFrom(s', limits, key, payload, ingest, lives, attempt + 1) else s'
  }

  // ------------------------------------------------------------------ a job run in process

  /** The attempt that decides: the first that is not a transient failure, finds its upload gone, or is the
      last there is. */
  function Deciding(ingest: nat -> Ingest, lives: nat, from: nat, max: nat): (k: nat)
    requires from <= max
    ensures from <= k <= max
    ensures k == from || k - 1 <= lives
    ensures forall i :: from <= i < k ==> ingest(i).Transient?
    ensures k < max ==> k > lives || !ingest(k).Transient?
    decreases max - from
  {
    if from == max || from > lives || !ingest(from).Transient? then from else Deciding(ingest, lives, from + 1, max)
  }

  /** What an attempt comes to: nothing if the upload is gone. */
  function ResultAt(s: Store, payload: nat, ingest: nat -> Ingest, lives: nat, k: nat): Option<Ingest> {
    if k <= lives && payload in s.payloads then Some(ingest(k)) else None
  }

  predicate Succeeds(result: Option<Ingest>) {
    result.Some? && result.value.Stored?
  }

  /** The failed job's error, and whether the client may try again. */
  function Verdict(result: Option<Ingest>): (Reason, bool)
    requires !Succeeds(result)
  {
    if result.None? then (UploadExpired, false) else (Raised(result.value.why), result.value.Transient?)
  }

  /** What the run of a job whose attempts up to `from - 1` failed makes of the store `s`. */
  ghost predicate EndsAt(s: Store, s': Store, limits: Limits, key: JobId, payload: nat, result: Option<Ingest>,
                         from: nat, k: nat)
    requires from <= k
  {
    && s'.jobs.Keys == s.jobs.Keys && key in s'.jobs
    && var job := s'.jobs[key];
    && (forall other <- s.jobs :: other != key ==> s'.jobs[other] == s.jobs[other])
    && s'.attempts == s.attempts[key := k] && job.attempts == k
    && (if Succeeds(result) then
          && job.status == DONE && job.docId == Some(result.value.docId) && job.chunks == Some(result.value.chunks)
          && job.error == None && job.retryable == None
          && s'.deadLetters == s.deadLetters
        else
          && job.status == FAILED && job.error == Some(Verdict(result).0) && job.retryable == Some(Verdict(result).1)
          && s'.deadLetters == Trimmed([job] + s.deadLetters, limits.maxDeadLetters))
    && (result.Some? && !Succeeds(result) ==> s'.payloads == s.payloads)
    && (result.None? || Succeeds(result) ==> s'.payloads == s.payloads - {payload})
    && s'.stats == s.stats.(done := s.stats.done + (if Succeeds(result) then 1 else 0),
                            failed := s.stats.failed + (if Succeeds(result) then 0 else 1),
                            retried := s.stats.retried + (k - from))
  }

  /** An attempt that finds its upload gone. */
  lemma GoneAttempt(s: Store, limits: Limits, key: JobId, payload: nat, ingest: nat -> Ingest, lives: nat, from: nat)
    requires key in s.jobs && s.jobs[key].key == key && ResultAt(s, payload, ingest, lives, from).None?
    requires 1 <= from <= limits.maxAttempts && AttemptsOf(s, key) == from - 1
    ensures var (s', outcome) := Executed(Before(s, payload, lives, from), limits, key, payload, ingest(from));
            outcome.Finished? && EndsAt(s, s', limits, key, payload, None, from, from)
  {
    hide Trimmed;
    assert payload !in s.payloads ==> s.payloads - {payload} == s.payloads;
  }

  /** An attempt that finds it: it ends, or everything is set for the next one. */
  lemma OneAttempt(s: Store, limits: Limits, key: JobId, payload: nat, result: Ingest, from: nat)
    requires key in s.jobs && s.jobs[key].key == key && payload in s.payloads
    requires 1 <= from <= limits.maxAttempts && AttemptsOf(s, key) == from - 1
    ensures var (s', outcome) := Executed(s, limits, key, payload, result);
            && (outcome.RetryLater? <==> result.Transient? && from < limits.maxAttempts)
            && if outcome.RetryLater? then
                 && s'.jobs == s.jobs[key := s'.jobs[key]] && key in s'.jobs && s'.jobs[key].key == key
                 && s'.attempts == s.attempts[key := from]
                 && s'.payloads == s.payloads && s'.deadLetters == s.deadLetters
                 && s'.stats == s.stats.(retried := s.stats.retried + 1)
               else EndsAt(s, s', limits, key, payload, Some(result), from, from)
  {
    hide Trimmed;
  }

  /** What `s'`, a retry after the store `s`, ends at is what `s` ends at, one attempt earlier. */
  lemma RetryEndsAt(s: Store, s': Store, s'': Store, limits: Limits, key: JobId, payload: nat,
                    result: Option<Ingest>, from: nat, k: nat)
    requires key in s.jobs && s.attempts[key := from] == s'.attempts && from < k
    requires key in s'.jobs && s'.jobs == s.jobs[key := s'.jobs[key]]
    requires s'.payloads == s.payloads && s'.deadLetters == s.deadLetters
    requires s'.stats == s.stats.(retried := s.stats.retried + 1)
    requires EndsAt(s', s'', limits, key, payload, result, from + 1, k)
    ensures EndsAt(s, s'', limits, key, payload, result, from, k)
  {
    hide Trimmed, Verdict;
    assert s'.attempts[key := k] == s.attempts[key := k];
  }

  lemma {:induction false} RunEnds(s: Store, limits: Limits, key: JobId, payload: nat, ingest: nat -> Ingest,
                                   lives: nat, from: nat)
    requires key in s.jobs && s.jobs[key].key == key && (payload in s.payloads || lives < from)
    requires 1 <= from <= limits.maxAttempts && AttemptsOf(s, key) == from - 1
    ensures var k := Deciding(ingest, lives, from, limits.maxAttempts);
            EndsAt(s, RunFrom(s, limits, key, payload, ingest, lives, from), limits, key, payload,
                   ResultAt(s, payload, ingest, lives, k), from, k)
    decreases limits.maxAttempts - from
  {
    hide Executed, EndsAt;
    if lives < from {
      GoneAttempt(s, limits, key, payload, ingest, lives, from);
    } else {
      OneAttempt(s, limits, key, payload, ingest(from), from);
      var (s', outcome) := Executed(s, limits, key, payload, ingest(from));
      if outcome.RetryLater? {
        RunEnds(s', limits, key, payload, ingest, lives, from + 1);
        var k := Deciding(ingest, lives, from + 1, limits.maxAttempts);
        RetryEndsAt(s, s', RunFrom(s', limits, key, payload, ingest, lives, from + 1), limits, key, payload,
                    ResultAt(s, payload, ingest, lives, k), from, k);
      }
    }
  }

  /** A new job that is run in process ends DONE or FAILED as the first attempt says that is not a transient
      failure, finds its upload gone, or is the last one; and it is dead-lettered, once, exactly if it failed. */
  lemma FreshJobEnds(s: Store, limits: Limits, key: JobId, payload: nat, ingest: nat -> Ingest, lives: nat)
    requires key in s.jobs && s.jobs[key].key == key && limits.maxAttempts > 0 && key !in s.attempts
    ensures var lived := if payload in s.payloads then lives else 0;
            var k := Deciding(ingest, lived, 1, limits.maxAttempts);
            EndsAt(s, RunFrom(s, limits, key, payload, ingest, lives, 1), limits, key, payload,
                   ResultAt(s, payload, ingest, lives, k), 1, k)
  {
    if payload in s.payloads {
      RunEnds(s, limits, key, payload, ingest, lives, 1);
    } else {
      GoneAttempt(s, limits, key, payload, ingest, lives, 1);
    }
  }

  // ------------------------------------------------------------------ any order of deliveries

  datatype Delivery = Delivery(key: JobId, payload: nat, ingest: Ingest)

  /** One delivery after another, each to its end. */
  function Delivered(s: Store, limits: Limits, deliveries: seq<Delivery>): Store
    decreases |deliveries|
  {
    if deliveries == [] then s
    else
      var d := deliveries[0];
      Delivered(Executed(s, limits, d.key, d.payload, d.ingest).0, limits, deliveries[1..])
  }

  /** A job's fields say what its status says; only failed jobs are dead letters, and not too many. */
  ghost predicate Consistent(s: Store, limits: Limits) {
    && (forall key <- s.jobs :: s.jobs[key].key == key && Coherent(s.jobs[key]))
    && (forall job <- s.deadLetters :: job.status == FAILED && Coherent(job))
    && (limits.maxDeadLetters > 0 ==> |s.deadLetters| <= limits.maxDeadLetters)
  }

  predicate Coherent(job: Job) {
    match job.status
    case QUEUED => true
    case PROCESSING => true
    case DONE => job.docId.Some? && job.chunks.Some? && job.error.None? && job.retryable.None?
    case FAILED => job.error.Some? && job.retryable.Some?
  }

  lemma SavedStaysConsistent(s: Store, limits: Limits, job: Job)
    requires Consistent(s, limits) && Coherent(job)
    ensures Consistent(Saved(s, job), limits)
  {
  }

  lemma FailingStaysConsistent(s: Store, limits: Limits, job: Job, error: Reason, retryable: bool)
    requires Consistent(s, limits)
    ensures Consistent(Failing(s, limits, Abandoned(job, error, retryable)), limits)
  {
    var failed := Abandoned(job, error, retryable);
    SavedStaysConsistent(s, limits, failed);
    assert forall dead <- Trimmed([failed] + s.deadLetters, limits.maxDeadLetters) ::
        dead == failed || dead in s.deadLetters;
  }

  lemma ExecutedStaysConsistent(s: Store, limits: Limits, d: Delivery)
    requires Consistent(s, limits)
    ensures Consistent(Executed(s, limits, d.key, d.payload, d.ingest).0, limits)
  {
    hide Failing, Coherent, Saved, Abandoned;
    if d.key in s.jobs {
      var attempt := AttemptsOf(s, d.key) + 1;
      var s1 := s.(attempts := s.attempts[d.key := attempt]);
      var running := s.jobs[d.key].(status := PROCESSING, attempts := attempt);
      Running(running);
      SavedStaysConsistent(s1, limits, running);
      Ended(s1, Saved(s1, running), limits, s.jobs[d.key], running, attempt, d);
    }
  }

  lemma Running(job: Job)
    ensures job.status == PROCESSING ==> Coherent(job)
  {
  }

  lemma Ended(s1: Store, s2: Store, limits: Limits, job: Job, running: Job, attempt: nat, d: Delivery)
    requires Consistent(s1, limits) && Consistent(s2, limits)
    ensures Consistent(Failing(s1, limits, Abandoned(job, KillsItsWorker(attempt), false)), limits)
    ensures Consistent(Failing(s2, limits, Abandoned(running, UploadExpired, false)), limits)
    ensures !d.ingest.Stored? ==>
              && Consistent(Failing(s2, limits, Abandoned(running, Raised(d.ingest.why), d.ingest.Transient?)), limits)
              && Consistent(Saved(s2, running.(status := QUEUED, error := Some(Raised(d.ingest.why)))), limits)
    ensures d.ingest.Stored? ==>
              Consistent(Saved(s2,
                               running.(status := DONE, docId := Some(d.ingest.docId), chunks := Some(d.ingest.chunks),
                                            error := None, retryable := None)), limits)
  {
    hide Consistent, Failing, Saved;
    FailingStaysConsistent(s1, limits, job, KillsItsWorker(attempt), false);
    FailingStaysConsistent(s2, limits, running, UploadExpired, false);
    if d.ingest.Stored? {
      SavedStaysConsistent(s2, limits, running.(status := DONE, docId := Some(d.ingest.docId),
                                                chunks := Some(d.ingest.chunks), error := None, retryable := None));
    } else {
      FailingStaysConsistent(s2, limits, running, Raised(d.ingest.why), d.ingest.Transient?);
      SavedStaysConsistent(s2, limits, running.(status := QUEUED, error := Some(Raised(d.ingest.why))));
    }
  }

  lemma {:induction false} DeliveredStaysConsistent(s: Store, limits: Limits, deliveries: seq<Delivery>)
    requires Consistent(s, limits)
    ensures Consistent(Delivered(s, limits, deliveries), limits)
    decreases |deliveries|
  {
    hide Consistent, Executed;
    if deliveries != [] {
      ExecutedStaysConsistent(s, limits, deliveries[0]);
      DeliveredStaysConsistent(Executed(s, limits, deliveries[0].key, deliveries[0].payload, deliveries[0].ingest).0,
                               limits, deliveries[1..]);
    }
  }

  // ------------------------------------------------------------------ what the last delivery makes of a job

  /** How many of the deliveries are the job's. */
  function DeliveriesOf(deliveries: seq<Delivery>, key: JobId): nat {
    if deliveries == [] then 0
    else DeliveriesOf(deliveries[1..], key) + Flag(deliveries[0].key == key)
  }

  lemma {:induction false} DeliveredMore(s: Store, limits: Limits, before: seq<Delivery>, d: Delivery)
    ensures Delivered(s, limits, before + [d])
            == Executed(Delivered(s, limits, before), limits, d.key, d.payload, d.ingest).0
    decreases |before|
  {
    hide Executed;
    if before == [] {
      assert [] + [d] == [d] && [d][1..] == [];
    } else {
      assert (before + [d])[0] == before[0] && (before + [d])[1..] == before[1..] + [d];
      DeliveredMore(Executed(s, limits, before[0].key, before[0].payload, before[0].ingest).0, limits, before[1..], d);
    }
  }

  ghost predicate KeyedAlike(s: Store) {
    forall k <- s.jobs :: s.jobs[k].key == k
  }

  lemma RecordsStayKeyed(s: Store, limits: Limits, d: Delivery)
    requires KeyedAlike(s)
    ensures var s' := Executed(s, limits, d.key, d.payload, d.ingest).0;
            s'.jobs.Keys == s.jobs.Keys && KeyedAlike(s')
  {
    hide Trimmed;
  }

  lemma OneIsNumbered(s: Store, limits: Limits, d: Delivery, key: JobId)
    requires key in s.jobs
    ensures AttemptsOf(Executed(s, limits, d.key, d.payload, d.ingest).0, key)
            == AttemptsOf(s, key) + Flag(d.key == key)
  {
    hide Trimmed, Abandoned;
  }

  /** While the job's counter lives, it is the number of its deliveries. */
  lemma {:induction false} DeliveriesAreNumbered(s: Store, limits: Limits, deliveries: seq<Delivery>, key: JobId)
    requires key in s.jobs && KeyedAlike(s)
    ensures var s' := Delivered(s, limits, deliveries);
            && key in s'.jobs && KeyedAlike(s')
            && AttemptsOf(s', key) == AttemptsOf(s, key) + DeliveriesOf(deliveries, key)
    decreases |deliveries|
  {
    if deliveries != [] {
      var d := deliveries[0];
      hide Executed, KeyedAlike;
      OneIsNumbered(s, limits, d, key);
      RecordsStayKeyed(s, limits, d);
      DeliveriesAreNumbered(Executed(s, limits, d.key, d.payload, d.ingest).0, limits, deliveries[1..], key);
    }
  }

  /** Why delivery `n` of a job fails it, and whether the client may try again; None if it does not. */
  function FailsWith(n: nat, max: nat, there: bool, ingest: Ingest): Option<(Reason, bool)> {
    if n > max then Some((KillsItsWorker(n), false))
    else if !there then Some((UploadExpired, false))
    else if ingest.Permanent? then Some((Raised(ingest.why), false))
    else if ingest.Transient? && n == max then Some((Raised(ingest.why), true))
    else None
  }

  /** The job's record after its delivery `n`, told field by field from the one before. */
  ghost predicate RecordAfter(was: Job, now: Job, n: nat, max: nat, there: bool, ingest: Ingest) {
    var why := FailsWith(n, max, there, ingest);
    && now.key == was.key && now.filename == was.filename && now.contentType == was.contentType
    && now.title == was.title && now.size == was.size
    && now.attempts == (if n > max then was.attempts else n)
    && if why.Some? then
         && now.status == FAILED && now.error == Some(why.value.0) && now.retryable == Some(why.value.1)
         && now.docId == was.docId && now.chunks == was.chunks
       else if ingest.Stored? then
         && now.status == DONE && now.docId == Some(ingest.docId) && now.chunks == Some(ingest.chunks)
         && now.error == None && now.retryable == None
       else
         && now.status == QUEUED && now.error == Some(Raised(ingest.why)) && now.retryable == was.retryable
         && now.docId == was.docId && now.chunks == was.chunks
  }

  lemma RecordDecided(s: Store, limits: Limits, d: Delivery)
    requires d.key in s.jobs && s.jobs[d.key].key == d.key
    ensures var s', n := Executed(s, limits, d.key, d.payload, d.ingest).0, AttemptsOf(s, d.key) + 1;
            && d.key in s'.jobs
            && RecordAfter(s.jobs[d.key], s'.jobs[d.key], n, limits.maxAttempts, d.payload in s.payloads, d.ingest)
  {
    hide Trimmed;
  }

  lemma OthersUntouched(s: Store, limits: Limits, d: Delivery)
    requires d.key in s.jobs && s.jobs[d.key].key == d.key
    ensures var s' := Executed(s, limits, d.key, d.payload, d.ingest).0;
            s'.jobs.Keys == s.jobs.Keys && forall other <- s.jobs :: other != d.key ==> s'.jobs[other] == s.jobs[other]
  {
    hide Trimmed;
  }

  /** What becomes of the upload, and which jobs are dead letters. */
  ghost predicate Disposed(s: Store, s': Store, d: Delivery, fails: bool) {
    && d.key in s'.jobs
    && (if fails then s'.deadLetters != [] && s'.deadLetters[0] == s'.jobs[d.key] else s'.deadLetters == s.deadLetters)
    && s'.payloads == if !fails && d.ingest.Stored? then s.payloads - {d.payload} else s.payloads
  }

  lemma LettersDecided(s: Store, limits: Limits, d: Delivery)
    requires d.key in s.jobs && s.jobs[d.key].key == d.key
    ensures var s', n := Executed(s, limits, d.key, d.payload, d.ingest).0, AttemptsOf(s, d.key) + 1;
            Disposed(s, s', d, FailsWith(n, limits.maxAttempts, d.payload in s.payloads, d.ingest).Some?)
  {
  }

  /** `execute` gives back the record it leaves, unless it asks to be called again, which it does exactly when
      it queued the job again. */
  lemma OutcomeIsTheRecord(s: Store, limits: Limits, d: Delivery)
    requires d.key in s.jobs && s.jobs[d.key].key == d.key
    ensures var (s', outcome) := Executed(s, limits, d.key, d.payload, d.ingest);
            && d.key in s'.jobs && !outcome.Gone?
            && (outcome.Finished? ==> outcome.job == s'.jobs[d.key])
            && (outcome.RetryLater? <==> s'.jobs[d.key].status == QUEUED)
  {
    hide Trimmed;
  }

  /** How a job stands after any deliveries of any jobs: its last delivery, the `n`th it had, decides. One too
      many fails it as killing its worker, and touches no upload; so do a missing upload and what ingestion
      raised, but for a transient failure with an attempt left, which only queues it again; a failed job is
      the newest dead letter, and only an ingested job's upload is deleted. */
  lemma LastDeliveryDecides(s: Store, limits: Limits, before: seq<Delivery>, d: Delivery)
    requires d.key in s.jobs && KeyedAlike(s)
    ensures var s1, s2 := Delivered(s, limits, before), Delivered(s, limits, before + [d]);
            var n, max := AttemptsOf(s, d.key) + DeliveriesOf(before, d.key) + 1, limits.maxAttempts;
            var there := d.payload in s1.payloads;
            var fails := FailsWith(n, max, there, d.ingest).Some?;
            && d.key in s1.jobs && s2.jobs.Keys == s1.jobs.Keys
            && RecordAfter(s1.jobs[d.key], s2.jobs[d.key], n, max, there, d.ingest)
            && (forall other <- s1.jobs :: other != d.key ==> s2.jobs[other] == s1.jobs[other])
            && Disposed(s1, s2, d, fails)
  {
    hide Executed, RecordAfter, FailsWith, Delivered, Disposed;
    DeliveredMore(s, limits, before, d);
    DeliveriesAreNumbered(s, limits, before, d.key);
    RecordDecided(Delivered(s, limits, before), limits, d);
    OthersUntouched(Delivered(s, limits, before), limits, d);
    LettersDecided(Delivered(s, limits, before), limits, d);
  }

  /** Deliveries of jobs whose record is there. */
  ghost predicate Known(s: Store, deliveries: seq<Delivery>) {
    forall d <- deliveries :: d.key in s.jobs
  }

  lemma OneDeliveryIsCounted(s: Store, limits: Limits, d: Delivery)
    requires d.key in s.jobs && s.jobs[d.key].key == d.key
    ensures var s' := Executed(s, limits, d.key, d.payload, d.ingest).0;
            && s'.jobs.Keys == s.jobs.Keys && s'.stats.submitted == s.stats.submitted
            && s'.stats.done + s'.stats.failed + s'.stats.retried == s.stats.done + s.stats.failed + s.stats.retried + 1
  {
  }

  /** Every delivery that runs to its end is counted once: done, failed or retried. */
  lemma {:induction false} EveryDeliveryIsCounted(s: Store, limits: Limits, deliveries: seq<Delivery>)
    requires Consistent(s, limits) && Known(s, deliveries)
    ensures var s' := Delivered(s, limits, deliveries);
            && s'.stats.done + s'.stats.failed + s'.stats.retried
               == s.stats.done + s.stats.failed + s.stats.retried + |deliveries|
            && s'.stats.submitted == s.stats.submitted
    decreases |deliveries|
  {
    if deliveries != [] {
      var d := deliveries[0];
      var s1 := Executed(s, limits, d.key, d.payload, d.ingest).0;
      assert d in deliveries;
      OneDeliveryIsCounted(s, limits, d);
      ExecutedStaysConsistent(s, limits, d);
      hide Consistent, Executed;
      EveryDeliveryIsCounted(s1, limits, deliveries[1..]);
    }
  }

  /** All deliveries of one message. */
  ghost predicate Redeliveries(deliveries: seq<Delivery>, key: JobId, payload: nat) {
    forall d <- deliveries :: d.key == key && d.payload == payload
  }

  /** DONE is final exactly until the message is delivered once more: its upload is gone by then, so any
      redelivery fails the job that had been done, and every one of them dead-letters it again. */
  lemma {:induction false} RedeliveryUndoesDone(s: Store, limits: Limits, key: JobId, payload: nat,
                                                deliveries: seq<Delivery>)
    requires Consistent(s, limits) && key in s.jobs && payload !in s.payloads && Redeliveries(deliveries, key, payload)
    ensures var s' := Delivered(s, limits, deliveries);
            && key in s'.jobs && payload !in s'.payloads
            && s'.jobs[key].status == (if deliveries == [] then s.jobs[key].status else FAILED)
            && s'.stats.failed == s.stats.failed + |deliveries|
    decreases |deliveries|
  {
    if deliveries != [] {
      var d := deliveries[0];
      assert d in deliveries;
      ExecutedStaysConsistent(s, limits, d);
      RedeliveryUndoesDone(Executed(s, limits, d.key, d.payload, d.ingest).0, limits, key, payload, deliveries[1..]);
    }
  }

  lemma DoneLastsUntilRedelivery(s: Store, limits: Limits, d: Delivery, deliveries: seq<Delivery>)
    requires Consistent(s, limits) && Redeliveries(deliveries, d.key, d.payload)
    requires var (s1, outcome) := Executed(s, limits, d.key, d.payload, d.ingest);
             outcome.Finished? && outcome.job.status == DONE
    ensures var s' := Delivered(Executed(s, limits, d.key, d.payload, d.ingest).0, limits, deliveries);
            d.key in s'.jobs && (s'.jobs[d.key].status == DONE <==> deliveries == [])
  {
    ExecutedStaysConsistent(s, limits, d);
    RedeliveryUndoesDone(Executed(s, limits, d.key, d.payload, d.ingest).0, limits, d.key, d.payload, deliveries);
  }
}

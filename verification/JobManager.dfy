/** The job manager as an object: maps, order list and queue updated in place, proved against the shared state's
    transition functions. */
module JobManager {
  import opened Prelude
  import opened JobState
  import opened JobHistory
  import Text

  /** The context workers run under, once there is one. */
  datatype Lifetime = NotStarted | Live | Ended

  /** Job `id` ended this way, unless it was trimmed; every other job that is kept is as it was. */
  ghost predicate Settled(jobs: map<string, Job>, jobs': map<string, Job>, id: string, status: JobStatus, error: string)
  {
    forall x :: x in jobs' ==>
      x in jobs && jobs'[x] == if x == id then jobs[x].(status := status, error := error, finished := true) else jobs[x]
  }

  lemma {:induction false} TrimOnlyDrops(m: Shared)
    ensures forall x :: x in Trim(m).jobs ==> x in m.jobs && Trim(m).jobs[x] == m.jobs[x]
    ensures Trim(m).queue == m.queue
    decreases |m.order|
  {
    var i := FirstDroppable(m.order, m.jobs);
    if |m.jobs| > m.opts.historyLimit && i < |m.order| {
      TrimOnlyDrops(DropAt(m, i));
    }
  }

  class Manager {
    const opts: Options
    var jobs: map<string, Job>
    var order: seq<string>
    var idempotencyKeys: map<string, string>
    var activeFingerprints: map<string, string>
    var queue: seq<string>
    var workersStarted: bool
    var shuttingDown: bool
    var startupDone: bool
    var shutdownDone: bool
    var lifetime: Lifetime
    var queueClosed: bool
    /** How many worker goroutines were launched. */
    var launched: nat

    /** Workers are launched at most once, all together, under a context; the queue is closed by the shutdown. */
    ghost predicate Valid()
      reads this
    {
      opts == Normalized(opts) && launched == (if startupDone then opts.workers else 0) &&
      (lifetime.NotStarted? <==> !startupDone) && queueClosed == shutdownDone && (workersStarted ==> startupDone) &&
      (!startupDone ==> shuttingDown == shutdownDone)
    }

    ghost function State(): Shared
      reads this
    {
      Shared(opts, jobs, order, idempotencyKeys, activeFingerprints, queue, shuttingDown)
    }

    constructor (o: Options)
      ensures State() == Shared(Normalized(o), map[], [], map[], map[], [], false)
      ensures Valid() && !workersStarted && !startupDone && !shutdownDone
    {
      opts := Normalized(o);
      jobs, order, idempotencyKeys, activeFingerprints := map[], [], map[], map[];
      queue, workersStarted, shuttingDown := [], false, false;
      startupDone, shutdownDone, lifetime, queueClosed, launched := false, false, NotStarted, false, 0;
    }

    /** Only the first call does anything. */
    method Start()
      requires Valid()
      modifies this`workersStarted, this`shuttingDown, this`startupDone, this`lifetime, this`launched
      ensures Valid() && startupDone && launched == opts.workers
      ensures old(startupDone) ==>
                State() == old(State()) && workersStarted == old(workersStarted) && lifetime == old(lifetime)
      ensures !old(startupDone) ==>
                State() == old(State()).(shuttingDown := false) && workersStarted && lifetime == Live
    {
      if startupDone {
        return;
      }
      startupDone := true;
      lifetime := Live;
      workersStarted := true;
      shuttingDown := false;
      launched := opts.workers;
    }

    /** The first call stops accepting jobs, closes the queue and ends the workers' context. Every call then waits for
        the workers; `workersExit` says whether they exit before the caller's own context ends. */
    method Shutdown(workersExit: bool) returns (ok: bool)
      requires Valid()
      modifies this`workersStarted, this`shuttingDown, this`shutdownDone, this`lifetime, this`queueClosed
      ensures Valid() && shutdownDone && ok == workersExit
      ensures old(shutdownDone) ==> State() == old(State()) && lifetime == old(lifetime)
      ensures !old(shutdownDone) ==>
                State() == old(State()).(shuttingDown := true) && !lifetime.Live? &&
                (old(lifetime).NotStarted? <==> lifetime.NotStarted?)
      ensures workersStarted == (old(workersStarted) && !workersExit)
    {
      if !shutdownDone {
        shutdownDone := true;
        shuttingDown := true;
        queueClosed := true;
        if !lifetime.NotStarted? {
          lifetime := Ended;
        }
      }
      if !workersExit {
        return false;
      }
      workersStarted := false;
      return true;
    }

    method Started() returns (accepting: bool)
      ensures accepting == (workersStarted && !shuttingDown)
    {
      return workersStarted && !shuttingDown;
    }

    /** `id` is the identifier drawn for a new job. */
    method Submit(given: TaskSpec, id: string) returns (r: Outcome<Submission>)
      modifies this`jobs, this`order, this`idempotencyKeys, this`activeFingerprints, this`queue
      ensures Submitted(State(), r) == JobState.Submit(old(State()), given, id)
      ensures r.Success? && !r.value.reused ==>
                !old(shuttingDown) && |old(queue)| < opts.queueSize &&
                r.value.job == Job(id, Queued, Text.TrimSpace(given.key), Text.TrimSpace(given.fingerprint), "", false,
                                   false) &&
                jobs == old(jobs)[id := r.value.job] && order == old(order) + [id] && queue == old(queue) + [id]
      ensures r.Failure? || r.value.reused ==> jobs == old(jobs) && order == old(order) && queue == old(queue)
      ensures r.Success? && r.value.reused ==> exists kept :: kept in jobs && jobs[kept] == r.value.job
    {
      var spec := TaskSpec(Text.TrimSpace(given.key), Text.TrimSpace(given.fingerprint));
      if shuttingDown {
        return Failure(ShuttingDown);
      }
      if spec.key != "" && spec.key in idempotencyKeys {
        var jobId := idempotencyKeys[spec.key];
        if jobId in jobs {
          return Success(Submission(jobs[jobId], true));
        }
        idempotencyKeys := idempotencyKeys - {spec.key};
      }
      if spec.fingerprint != "" && spec.fingerprint in activeFingerprints {
        var jobId := activeFingerprints[spec.fingerprint];
        if jobId in jobs {
          if spec.key != "" {
            idempotencyKeys := idempotencyKeys[spec.key := jobId];
          }
          return Success(Submission(jobs[jobId], true));
        }
        activeFingerprints := activeFingerprints - {spec.fingerprint};
      }
      r := TryEnqueue(spec, Job(id, Queued, spec.key, spec.fingerprint, "", false, false));
    }

    /** The non-blocking send and, if it went through, the bookkeeping. */
    method TryEnqueue(spec: TaskSpec, job: Job) returns (r: Outcome<Submission>)
      requires job == NewJob(spec, job.id)
      modifies this`jobs, this`order, this`idempotencyKeys, this`activeFingerprints, this`queue
      ensures Submitted(State(), r) == Enqueue(old(State()), spec, job.id)
      ensures if r.Success? then
                r.value == Submission(job, false) && |old(queue)| < opts.queueSize &&
                jobs == old(jobs)[job.id := job] && order == old(order) + [job.id] && queue == old(queue) + [job.id]
              else jobs == old(jobs) && order == old(order) && queue == old(queue)
    {
      if |queue| >= opts.queueSize {
        return Failure(QueueFull);
      }
      queue := queue + [job.id];
      jobs := jobs[job.id := job];
      order := order + [job.id];
      if spec.key != "" {
        idempotencyKeys := idempotencyKeys[spec.key := job.id];
      }
      if spec.fingerprint != "" {
        activeFingerprints := activeFingerprints[spec.fingerprint := job.id];
      }
      return Success(Submission(job, false));
    }

    method GetJob(id: string) returns (r: Outcome<Job>)
      ensures r == if id in jobs then Success(jobs[id]) else Failure(NotFound)
    {
      if id !in jobs {
        return Failure(NotFound);
      }
      return Success(jobs[id]);
    }

    method StartRunning(id: string)
      modifies this`jobs
      ensures State() == JobState.StartRunning(old(State()), id)
      ensures jobs == if id in old(jobs)
                      then old(jobs)[id := old(jobs)[id].(status := Running, started := true, finished := false)]
                      else old(jobs)
    {
      if id !in jobs {
        return;
      }
      jobs := jobs[id := jobs[id].(status := Running, started := true, finished := false)];
    }

    method FinishSucceeded(id: string)
      modifies this`jobs, this`order, this`idempotencyKeys, this`activeFingerprints
      ensures State() == Finish(old(State()), id, Succeeded, "")
      ensures Settled(old(jobs), jobs, id, Succeeded, "") && queue == old(queue)
    {
      if id !in jobs {
        return;
      }
      var job := jobs[id].(status := Succeeded, error := "", finished := true);
      jobs := jobs[id := job];
      ReleaseActiveFingerprint(job);
      TrimOnlyDrops(State());
      TrimHistory();
    }

    method FinishFailed(id: string, message: string)
      modifies this`jobs, this`order, this`idempotencyKeys, this`activeFingerprints
      ensures State() == Finish(old(State()), id, Failed, message)
      ensures Settled(old(jobs), jobs, id, Failed, message) && queue == old(queue)
    {
      if id !in jobs {
        return;
      }
      var job := jobs[id].(status := Failed, error := message, finished := true);
      jobs := jobs[id := job];
      ReleaseActiveFingerprint(job);
      TrimOnlyDrops(State());
      TrimHistory();
    }

    method FinishCanceled(id: string)
      modifies this`jobs, this`order, this`idempotencyKeys, this`activeFingerprints
      ensures State() == Finish(old(State()), id, Canceled, CONTEXT_CANCELED)
      ensures Settled(old(jobs), jobs, id, Canceled, "context canceled") && queue == old(queue)
    {
      if id !in jobs {
        return;
      }
      var job := jobs[id].(status := Canceled, error := CONTEXT_CANCELED, finished := true);
      jobs := jobs[id := job];
      ReleaseActiveFingerprint(job);
      TrimOnlyDrops(State());
      TrimHistory();
    }

    method ReleaseActiveFingerprint(job: Job)
      modifies this`activeFingerprints
      ensures activeFingerprints == Released(old(activeFingerprints), job)
    {
      if job.fingerprint == "" {
        return;
      }
      if job.fingerprint in activeFingerprints && activeFingerprints[job.fingerprint] == job.id {
        activeFingerprints := activeFingerprints - {job.fingerprint};
      }
    }

    /** Drops the oldest completed job again and again until the history fits or nothing completed is left. */
    method TrimHistory()
      modifies this`jobs, this`order, this`idempotencyKeys
      ensures State() == Trim(old(State()))
    {
      while |jobs| > opts.historyLimit
        invariant Trim(State()) == Trim(old(State()))
        decreases |order|
      {
        var trimmed := TrimOne();
        if !trimmed {
          return;
        }
      }
    }

    /** One scan over the order list from the oldest job. */
    method TrimOne() returns (trimmed: bool)
      requires |jobs| > opts.historyLimit
      modifies this`jobs, this`order, this`idempotencyKeys
      ensures Trim(State()) == Trim(old(State()))
      ensures if trimmed then |order| < old(|order|) else State() == old(State()) && Trim(State()) == State()
    {
      for index := 0 to |order|
        invariant State() == old(State())
        invariant forall k :: 0 <= k < index ==> !Droppable(jobs, order[k])
      {
        var jobId := order[index];
        if jobId !in jobs || !IsTerminal(jobs[jobId].status) {
          continue;
        }
        FirstDroppableIs(order, jobs, index);
        var job := jobs[jobId];
        jobs := jobs - {jobId};
        if job.key != "" && job.key in idempotencyKeys && idempotencyKeys[job.key] == jobId {
          idempotencyKeys := idempotencyKeys - {job.key};
        }
        order := order[..index] + order[index + 1..];
        return true;
      }
      FirstDroppableIs(order, jobs, |order|);
      return false;
    }
  }

  lemma {:induction false} FirstDroppableIs(order: seq<string>, jobs: map<string, Job>, i: nat)
    requires i <= |order| && (i < |order| ==> Droppable(jobs, order[i]))
    requires forall k :: 0 <= k < i ==> !Droppable(jobs, order[k])
    ensures FirstDroppable(order, jobs) == i
  {
    if i > 0 {
      forall k | 0 <= k < i - 1 ensures !Droppable(jobs, order[1..][k]) {
        assert order[1..][k] == order[k + 1];
      }
      FirstDroppableIs(order[1..], jobs, i - 1);
    }
  }
}

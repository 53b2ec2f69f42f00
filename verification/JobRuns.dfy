/** What the job manager guarantees over whole runs, for every interleaving of its clients and workers. */
module JobRuns {
  import opened Prelude
  import opened JobState
  import opened JobHistory
  import opened JobSystem
  import opened JobInvariant
  import Text

  lemma {:induction false} RunKeepsInv(w: World, events: seq<Event>, w': World)
    requires Inv(w) && Leads(w, events, w')
    ensures Inv(w')
    decreases |events|
  {
    if events != [] {
      var n := |events| - 1;
      var before :| Leads(w, events[..n], before) && Allowed(before, events[n]) && w' == Step(before, events[n]);
      RunKeepsInv(w, events[..n], before);
      StepKeepsInv(before, events[n]);
    }
  }

  lemma {:induction false} ReachableWorldsSatisfyInv(o: Options, events: seq<Event>, w: World)
    requires Leads(NewWorld(o), events, w)
    ensures Inv(w)
  {
    NewWorldSatisfiesInv(o);
    RunKeepsInv(NewWorld(o), events, w);
  }

  // ---- Placement ----

  predicate Holds(x: Worker, id: string) {
    IsBusy(x) && x.job == id
  }

  function Holders(workers: seq<Worker>, id: string): nat {
    if workers == [] then 0
    else Holders(workers[..|workers| - 1], id) + if Holds(workers[|workers| - 1], id) then 1 else 0
  }

  lemma {:induction false} HoldersAreInFlight(workers: seq<Worker>, id: string)
    ensures Holders(workers, id) == InFlight(workers)[id]
  {
    if workers != [] {
      HoldersAreInFlight(workers[..|workers| - 1], id);
    }
  }

  /** In every reachable state each queued or running job waits in the queue once or is held by one worker, never both;
      completed jobs are nowhere; and the queue never outgrows its size. */
  lemma {:induction false} EveryActiveJobIsInOnePlace(o: Options, events: seq<Event>, w: World)
    requires Leads(NewWorld(o), events, w)
    ensures forall id :: multiset(w.m.queue)[id] + Holders(w.workers, id) == if IsActive(w.m.jobs, id) then 1 else 0
    ensures |w.m.queue| <= w.m.opts.queueSize
  {
    ReachableWorldsSatisfyInv(o, events, w);
    forall id ensures multiset(w.m.queue)[id] + Holders(w.workers, id) == if IsActive(w.m.jobs, id) then 1 else 0 {
      HoldersAreInFlight(w.workers, id);
      assert Places(w)[id] == multiset(ActiveIds(w.m.jobs))[id];
    }
  }

  /** The history never holds more jobs than its limit, the queue and the workers together allow. */
  lemma {:induction false} HistoryIsBounded(o: Options, events: seq<Event>, w: World)
    requires Leads(NewWorld(o), events, w)
    ensures |w.m.jobs| <= w.m.opts.historyLimit + w.m.opts.queueSize + w.m.opts.workers
    ensures |w.m.order| == |w.m.jobs| && OrderMatches(w.m)
  {
    ReachableWorldsSatisfyInv(o, events, w);
    ActiveCount(w);
    DistinctLength(w.m.order);
    assert |w.m.jobs| == |w.m.jobs.Keys|;
  }

  lemma {:induction false} DistinctLength(s: seq<string>)
    requires NoDuplicates(s)
    ensures |Elements(s)| == |s|
  {
    if s != [] {
      var front, last := s[..|s| - 1], s[|s| - 1];
      assert s == front + [last];
      DistinctLength(front);
      ElementsSnoc(front, last);
      assert last !in front;
    }
  }

  /** Two jobs that are queued or running never share a fingerprint. */
  lemma {:induction false} FingerprintsAreUnique(o: Options, events: seq<Event>, w: World, a: string, b: string)
    requires Leads(NewWorld(o), events, w) && IsActive(w.m.jobs, a) && IsActive(w.m.jobs, b)
    requires w.m.jobs[a].fingerprint == w.m.jobs[b].fingerprint != ""
    ensures a == b
  {
    ReachableWorldsSatisfyInv(o, events, w);
  }

  // ---- Lifecycle ----

  predicate LegalMove(before: JobStatus, after: JobStatus) {
    before == after || (before.Queued? && after.Running?) || (before.Running? && IsTerminal(after)) ||
    (before.Queued? && after.Canceled?)
  }

  lemma {:induction false} FinishMoves(w: World, i: nat, status: JobStatus, error: string, id: string)
    requires Inv(w) && i < |w.workers| && IsBusy(w.workers[i]) && IsTerminal(status)
    requires w.workers[i].Executing? || status.Canceled?
    requires id in w.m.jobs && id in Finish(w.m, w.workers[i].job, status, error).jobs
    ensures LegalMove(w.m.jobs[id].status, Finish(w.m, w.workers[i].job, status, error).jobs[id].status)
    ensures IsTerminal(w.m.jobs[id].status) ==>
              Finish(w.m, w.workers[i].job, status, error).jobs[id] == w.m.jobs[id]
  {
    var ended := w.workers[i].job;
    assert IsActive(w.m.jobs, ended) by {
      HeldIsActive(w, i, ended);
    }
    assert Finish(w.m, ended, status, error).jobs[id] == Settle(w.m, ended, status, error).jobs[id] by {
      FinishFacts(w.m, ended, status, error);
    }
    assert WorkerFits(w.m.jobs, w.workers[i]);
  }

  /** A job's status moves only from queued to running, from running to a final status, or from queued to canceled, and
      nothing about a completed job ever changes again. */
  lemma {:induction false} StepMovesLegally(w: World, e: Event, id: string)
    requires Inv(w) && Allowed(w, e) && id in w.m.jobs && id in Step(w, e).m.jobs
    ensures LegalMove(w.m.jobs[id].status, Step(w, e).m.jobs[id].status)
    ensures IsTerminal(w.m.jobs[id].status) ==> Step(w, e).m.jobs[id] == w.m.jobs[id]
  {
    match e
    case Start =>
    case SubmitTask(spec, id') => SubmitFacts(w.m, spec, id');
    case Dequeue(_) =>
    case Check(_) =>
    case Discard(i) => FinishMoves(w, i, Canceled, CONTEXT_CANCELED, id);
    case Begin(i) => assert WorkerFits(w.m.jobs, w.workers[i]);
    case Complete(i, verdict) =>
      match verdict {
        case Done => FinishMoves(w, i, Succeeded, "", id);
        case Erred(message) => FinishMoves(w, i, Failed, message, id);
        case Aborted => FinishMoves(w, i, Canceled, CONTEXT_CANCELED, id);
      }
    case Exit(_) =>
    case Shutdown =>
    case CancelContext =>
  }

  lemma {:induction false} FinishAddsNoJobs(w: World, i: nat, status: JobStatus, error: string)
    requires Inv(w) && i < |w.workers| && IsBusy(w.workers[i]) && IsTerminal(status)
    ensures Finish(w.m, w.workers[i].job, status, error).jobs.Keys <= w.m.jobs.Keys
    ensures KeysFollowJobs(w.m, Finish(w.m, w.workers[i].job, status, error))
  {
    var id := w.workers[i].job;
    HeldIsActive(w, i, id);
    FinishFacts(w.m, id, status, error);
    SettleLeaves(w.m, id, status, error);
  }

  /** Only Submit creates jobs, under an identifier never used before; a key is forgotten only with its job. */
  lemma {:induction false} StepAddsOnlyNewJobs(w: World, e: Event)
    requires Inv(w) && Allowed(w, e)
    ensures w.issued <= Step(w, e).issued
    ensures forall id :: id in Step(w, e).m.jobs && id in w.issued ==> id in w.m.jobs
    ensures forall k :: k in w.m.keys && w.m.keys[k] in w.m.jobs && w.m.keys[k] in Step(w, e).m.jobs ==>
              k in Step(w, e).m.keys && Step(w, e).m.keys[k] == w.m.keys[k]
  {
    match e
    case Start =>
    case SubmitTask(spec, id) => SubmitFacts(w.m, spec, id);
    case Dequeue(_) =>
    case Check(_) =>
    case Discard(i) => FinishAddsNoJobs(w, i, Canceled, CONTEXT_CANCELED);
    case Begin(i) => assert WorkerFits(w.m.jobs, w.workers[i]);
    case Complete(i, verdict) =>
      match verdict {
        case Done => FinishAddsNoJobs(w, i, Succeeded, "");
        case Erred(message) => FinishAddsNoJobs(w, i, Failed, message);
        case Aborted => FinishAddsNoJobs(w, i, Canceled, CONTEXT_CANCELED);
      }
    case Exit(_) =>
    case Shutdown =>
    case CancelContext =>
  }

  /** Final states are absorbing over whole runs: a completed job either keeps its record or is trimmed for good. */
  lemma {:induction false} CompletedJobsStay(w: World, events: seq<Event>, w': World, id: string)
    requires Inv(w) && Leads(w, events, w') && id in w.m.jobs && IsTerminal(w.m.jobs[id].status)
    ensures id in w'.issued && (id in w'.m.jobs ==> w'.m.jobs[id] == w.m.jobs[id])
    decreases |events|
  {
    if events != [] {
      var n := |events| - 1;
      var before :| Leads(w, events[..n], before) && Allowed(before, events[n]) && w' == Step(before, events[n]);
      RunKeepsInv(w, events[..n], before);
      CompletedJobsStay(w, events[..n], before, id);
      StepAddsOnlyNewJobs(before, events[n]);
      if id in w'.m.jobs {
        StepMovesLegally(before, events[n], id);
      }
    }
  }

  /** The n-th event was a submission that was accepted as the new job `id`. */
  ghost predicate AcceptedAt(o: Options, events: seq<Event>, n: nat, id: string) {
    n < |events| && events[n].SubmitTask? && events[n].id == id &&
    exists before :: Leads(NewWorld(o), events[..n], before) && Created(Submit(before.m, events[n].spec, id))
  }

  lemma {:induction false} IssuedWasAccepted(o: Options, events: seq<Event>, w: World, id: string) returns (n: nat)
    requires Leads(NewWorld(o), events, w) && id in w.issued
    ensures AcceptedAt(o, events, n, id)
    decreases |events|
  {
    var last := |events| - 1;
    var before :| Leads(NewWorld(o), events[..last], before) && Allowed(before, events[last]) &&
                  w == Step(before, events[last]);
    if id in before.issued {
      n := IssuedWasAccepted(o, events[..last], before, id);
      assert events[..last][..n] == events[..n];
    } else {
      n := last;
    }
  }

  /** No task is ever run twice, and every task that runs was accepted as a new job by an earlier submission. */
  lemma {:induction false} TasksRunAtMostOnce(o: Options, events: seq<Event>, w: World, i: nat, j: nat)
    requires Leads(NewWorld(o), events, w) && i < |w.launched| && j < |w.launched| && w.launched[i] == w.launched[j]
    ensures i == j && exists n: nat :: AcceptedAt(o, events, n, w.launched[i])
  {
    ReachableWorldsSatisfyInv(o, events, w);
    var n := IssuedWasAccepted(o, events, w, w.launched[i]);
  }

  // ---- Idempotency ----

  /** As long as job `id` is kept, key `k` names it. */
  ghost predicate Names(w: World, k: string, id: string) {
    id in w.issued && (id in w.m.jobs ==> k in w.m.keys && w.m.keys[k] == id)
  }

  lemma {:induction false} RunKeepsNames(w: World, events: seq<Event>, w': World, k: string, id: string)
    requires Inv(w) && Leads(w, events, w') && Names(w, k, id)
    ensures Names(w', k, id)
    decreases |events|
  {
    if events != [] {
      var n := |events| - 1;
      var before :| Leads(w, events[..n], before) && Allowed(before, events[n]) && w' == Step(before, events[n]);
      RunKeepsInv(w, events[..n], before);
      RunKeepsNames(w, events[..n], before, k, id);
      StepAddsOnlyNewJobs(before, events[n]);
    }
  }

  lemma {:induction false} SubmitNames(w: World, spec: TaskSpec, id: string)
    requires Inv(w) && Allowed(w, SubmitTask(spec, id)) && Text.TrimSpace(spec.key) != ""
    requires Submit(w.m, spec, id).outcome.Success?
    ensures Names(Step(w, SubmitTask(spec, id)), Text.TrimSpace(spec.key), Submit(w.m, spec, id).outcome.value.job.id)
  {
    SubmittedIsNamed(w.m, spec, id);
    var job := Submit(w.m, spec, id).outcome.value.job;
    assert job.id == id || job.id in w.m.jobs;
  }

  lemma {:induction false} SubmittedIsNamed(m: Shared, given: TaskSpec, id: string)
    requires Submit(m, given, id).outcome.Success? && Text.TrimSpace(given.key) != ""
    requires forall x :: x in m.jobs ==> m.jobs[x].id == x
    ensures var r := Submit(m, given, id);
            var key, named := Text.TrimSpace(given.key), r.outcome.value.job.id;
            (named == id || named in m.jobs) && key in r.shared.keys && r.shared.keys[key] == named
  {
  }

  /** Once Submit with a key returned a job, every later accepted Submit with that key returns the same job and changes
      nothing, for as long as the job is kept, whatever happened in between, and also when the key became a second name
      of the job through a fingerprint match. */
  lemma {:induction false} SubmitIsIdempotent(o: Options, before: seq<Event>, w: World, spec: TaskSpec, id: string,
                                              between: seq<Event>, w': World, again: TaskSpec, id': string)
    requires Leads(NewWorld(o), before, w) && Allowed(w, SubmitTask(spec, id))
    requires Submit(w.m, spec, id).outcome.Success? && Text.TrimSpace(spec.key) != ""
    requires Leads(Step(w, SubmitTask(spec, id)), between, w')
    requires Text.TrimSpace(again.key) == Text.TrimSpace(spec.key) && !w'.m.shuttingDown
    requires Submit(w.m, spec, id).outcome.value.job.id in w'.m.jobs
    ensures var job := w'.m.jobs[Submit(w.m, spec, id).outcome.value.job.id];
            Submit(w'.m, again, id') == Submitted(w'.m, Success(Submission(job, true)))
  {
    ReachableWorldsSatisfyInv(o, before, w);
    StepKeepsInv(w, SubmitTask(spec, id));
    SubmitNames(w, spec, id);
    RunKeepsNames(Step(w, SubmitTask(spec, id)), between, w', Text.TrimSpace(spec.key),
                  Submit(w.m, spec, id).outcome.value.job.id);
  }

  /** A rejected Submit leaves the jobs, their order, the queue and the fingerprints as they were, and forgets at most a
      key whose job is gone already. It is rejected exactly when the manager shuts down or, with nothing to reuse, the
      queue is full. */
  lemma {:induction false} RejectedSubmitChangesNothing(o: Options, events: seq<Event>, w: World, spec: TaskSpec,
                                                        id: string)
    requires Leads(NewWorld(o), events, w)
    ensures var r := Submit(w.m, spec, id);
            r.outcome.Failure? ==>
              r.shared == w.m.(keys := r.shared.keys) &&
              forall k :: k in w.m.keys && k !in r.shared.keys ==> w.m.keys[k] !in w.m.jobs
    ensures Submit(w.m, spec, id).outcome.Failure? <==>
              w.m.shuttingDown ||
              (Kept(w.m.jobs, w.m.keys, Text.TrimSpace(spec.key)).None? &&
               Kept(w.m.jobs, w.m.active, Text.TrimSpace(spec.fingerprint)).None? && |w.m.queue| == w.m.opts.queueSize)
  {
    ReachableWorldsSatisfyInv(o, events, w);
    SubmitFacts(w.m, spec, id);
  }
}

/** Why jobs end as they do: what each event does to the record of a job, which event each ending goes back to, and in
    which order jobs are taken. */
module JobEndings {
  import opened Prelude
  import opened JobState
  import opened JobHistory
  import opened JobSystem
  import opened JobInvariant
  import opened JobRuns
  import Text

  // ---- One event ----

  predicate SameTask(a: Job, b: Job) {
    a.id == b.id && a.key == b.key && a.fingerprint == b.fingerprint
  }

  predicate WorksOn(w: World, i: nat, id: string) {
    i < |w.workers| && Holds(w.workers[i], id)
  }

  /** The record shows how the task ended. */
  predicate ShowsVerdict(job: Job, verdict: Verdict) {
    job.finished &&
    match verdict
    case Done => job.status == Succeeded && job.error == ""
    case Erred(message) => job.status == Failed && job.error == message
    case Aborted => job.status == Canceled && job.error == "context canceled"
  }

  ghost predicate MovesBy(w: World, e: Event, before: Job, after: Job) {
    SameTask(before, after) &&
    if e.Begin? && WorksOn(w, e.w, before.id) then
      after.status == Running && after.started && !after.finished && after.error == before.error
    else if e.Complete? && WorksOn(w, e.w, before.id) then
      ShowsVerdict(after, e.verdict) && after.started == before.started
    else if e.Discard? && WorksOn(w, e.w, before.id) then
      ShowsVerdict(after, Aborted) && after.started == before.started
    else after == before
  }

  lemma {:induction false} FinishMovesBy(w: World, i: nat, status: JobStatus, error: string, id: string)
    requires Inv(w) && i < |w.workers| && IsBusy(w.workers[i]) && IsTerminal(status)
    requires id in w.m.jobs && id in Finish(w.m, w.workers[i].job, status, error).jobs
    ensures var before, after := w.m.jobs[id], Finish(w.m, w.workers[i].job, status, error).jobs[id];
            SameTask(before, after) && before.id == id &&
            if Holds(w.workers[i], id) then
              after.finished && after.started == before.started && after.status == status && after.error == error
            else after == before
  {
    var ended := w.workers[i].job;
    HeldIsActive(w, i, ended);
    assert Finish(w.m, ended, status, error).jobs[id] == Settle(w.m, ended, status, error).jobs[id] by {
      FinishFacts(w.m, ended, status, error);
    }
  }

  lemma {:induction false} RecordMovesBy(w: World, i: nat, verdict: Verdict, id: string)
    requires Inv(w) && i < |w.workers| && IsBusy(w.workers[i])
    requires id in w.m.jobs && id in Record(w.m, w.workers[i].job, verdict).jobs
    ensures var before, after := w.m.jobs[id], Record(w.m, w.workers[i].job, verdict).jobs[id];
            SameTask(before, after) && before.id == id &&
            if Holds(w.workers[i], id) then ShowsVerdict(after, verdict) && after.started == before.started
            else after == before
  {
    match verdict
    case Done => FinishMovesBy(w, i, Succeeded, "", id);
    case Erred(message) => FinishMovesBy(w, i, Failed, message, id);
    case Aborted => FinishMovesBy(w, i, Canceled, CONTEXT_CANCELED, id);
  }

  lemma {:induction false} SubmitMovesNothing(w: World, spec: TaskSpec, id': string, id: string)
    requires Inv(w) && id' !in w.issued && id in w.m.jobs
    ensures id in Submit(w.m, spec, id').shared.jobs && Submit(w.m, spec, id').shared.jobs[id] == w.m.jobs[id]
  {
    SubmitFacts(w.m, spec, id');
  }

  lemma {:induction false} BeginMovesBy(w: World, i: nat, id: string)
    requires Inv(w) && Allowed(w, Begin(i)) && id in w.m.jobs
    ensures id in Step(w, Begin(i)).m.jobs && MovesBy(w, Begin(i), w.m.jobs[id], Step(w, Begin(i)).m.jobs[id])
  {
    assert WorkerFits(w.m.jobs, w.workers[i]);
  }

  /** What an event does to the record of a job that is kept: the worker that holds it marks it running, or settles it
      with the verdict of its task, or cancels it; nothing else touches it. */
  lemma {:induction false} StepMovesRecord(w: World, e: Event, id: string)
    requires Inv(w) && Allowed(w, e) && id in w.m.jobs && id in Step(w, e).m.jobs
    ensures MovesBy(w, e, w.m.jobs[id], Step(w, e).m.jobs[id])
  {
    match e
    case SubmitTask(spec, id') => SubmitMovesNothing(w, spec, id', id);
    case Discard(i) => RecordMovesBy(w, i, Aborted, id);
    case Begin(i) => BeginMovesBy(w, i, id);
    case Complete(i, verdict) => RecordMovesBy(w, i, verdict, id);
    case Start =>
    case Dequeue(_) =>
    case Check(_) =>
    case Exit(_) =>
    case Shutdown =>
    case CancelContext =>
  }

  /** A job that was not there before was just accepted, as submitted, queued and without a past. */
  lemma {:induction false} NewRecord(w: World, e: Event, id: string)
    requires Inv(w) && Allowed(w, e) && id in Step(w, e).m.jobs
    ensures id in w.m.jobs ||
            (e.SubmitTask? && e.id == id &&
             Step(w, e).m.jobs[id] == Job(id, Queued, Text.TrimSpace(e.spec.key), Text.TrimSpace(e.spec.fingerprint),
                                          "", false, false) &&
             Step(w, e).m.queue == w.m.queue + [id] && Step(w, e).m.order == w.m.order + [id])
  {
    match e
    case SubmitTask(spec, id') => SubmitFacts(w.m, spec, id');
    case Discard(i) => FinishAddsNoJobs(w, i, Canceled, CONTEXT_CANCELED);
    case Begin(i) => assert WorkerFits(w.m.jobs, w.workers[i]);
    case Complete(i, verdict) =>
      match verdict {
        case Done => FinishAddsNoJobs(w, i, Succeeded, "");
        case Erred(message) => FinishAddsNoJobs(w, i, Failed, message);
        case Aborted => FinishAddsNoJobs(w, i, Canceled, CONTEXT_CANCELED);
      }
    case Start =>
    case Dequeue(_) =>
    case Check(_) =>
    case Exit(_) =>
    case Shutdown =>
    case CancelContext =>
  }

  // ---- Records over runs ----

  predicate RecordFits(job: Job) {
    match job.status
    case Queued => !job.started && !job.finished && job.error == ""
    case Running => job.started && !job.finished && job.error == ""
    case _ => job.finished
  }

  /** Only a worker that saw the context ended is about to discard its job. */
  ghost predicate DoomedByContext(w: World) {
    forall i :: 0 <= i < |w.workers| && w.workers[i].Doomed? ==> w.canceled
  }

  ghost predicate RecordsFit(w: World) {
    DoomedByContext(w) && forall id :: id in w.m.jobs ==> RecordFits(w.m.jobs[id])
  }

  lemma {:induction false} StepKeepsRecordFits(w: World, e: Event, id: string)
    requires Inv(w) && RecordsFit(w) && Allowed(w, e) && id in Step(w, e).m.jobs
    ensures RecordFits(Step(w, e).m.jobs[id])
  {
    if id in w.m.jobs {
      StepMovesRecord(w, e, id);
      assert e.Begin? ==> WorkerFits(w.m.jobs, w.workers[e.w]);
    } else {
      NewRecord(w, e, id);
    }
  }

  lemma {:induction false} StepKeepsRecordsFit(w: World, e: Event)
    requires Inv(w) && RecordsFit(w) && Allowed(w, e)
    ensures RecordsFit(Step(w, e))
  {
    forall id | id in Step(w, e).m.jobs ensures RecordFits(Step(w, e).m.jobs[id]) {
      StepKeepsRecordFits(w, e, id);
    }
  }

  lemma {:induction false} RunKeepsRecordsFit(o: Options, events: seq<Event>, w: World)
    requires Leads(NewWorld(o), events, w)
    ensures RecordsFit(w)
    decreases |events|
  {
    if events != [] {
      var n := |events| - 1;
      var before :| Leads(NewWorld(o), events[..n], before) && Allowed(before, events[n]) &&
                    w == Step(before, events[n]);
      RunKeepsRecordsFit(o, events[..n], before);
      ReachableWorldsSatisfyInv(o, events[..n], before);
      StepKeepsRecordsFit(before, events[n]);
    }
  }

  // ---- Every ending has its cause ----

  /** In `before` the event gives `job` the ending it has: its task ran and returned this verdict, or its worker had
      seen the context ended before the task began. */
  predicate Causes(before: World, e: Event, job: Job) {
    (e.Complete? && e.w < |before.workers| && before.workers[e.w] == Executing(job.id) && job.started &&
     ShowsVerdict(job, e.verdict)) ||
    (e.Discard? && e.w < |before.workers| && before.workers[e.w] == Doomed(job.id) && !job.started &&
     ShowsVerdict(job, Aborted) && before.canceled)
  }

  ghost predicate CausedAt(o: Options, events: seq<Event>, n: nat, job: Job) {
    n < |events| && exists before :: Leads(NewWorld(o), events[..n], before) && Causes(before, events[n], job)
  }

  lemma {:induction false} EndedNowOrBefore(w: World, e: Event, id: string)
    requires Inv(w) && RecordsFit(w) && Allowed(w, e)
    requires id in Step(w, e).m.jobs && IsTerminal(Step(w, e).m.jobs[id].status)
    ensures id in w.m.jobs
    ensures if IsTerminal(w.m.jobs[id].status) then Step(w, e).m.jobs[id] == w.m.jobs[id]
            else Causes(w, e, Step(w, e).m.jobs[id])
  {
    NewRecord(w, e, id);
    StepMovesRecord(w, e, id);
    if IsTerminal(w.m.jobs[id].status) {
      StepMovesLegally(w, e, id);
    } else {
      assert w.m.jobs[id].id == id && RecordFits(w.m.jobs[id]);
      assert WorkerFits(w.m.jobs, w.workers[e.w]);
    }
  }

  /** Every completed job of every reachable state goes back to one event of the run: it succeeded, failed with its
      message, or was canceled because its task returned just that, or it was canceled without ever running by a worker
      that found the context ended. */
  lemma {:induction false} EndingsHaveCauses(o: Options, events: seq<Event>, w: World, id: string) returns (n: nat)
    requires Leads(NewWorld(o), events, w) && id in w.m.jobs && IsTerminal(w.m.jobs[id].status)
    ensures CausedAt(o, events, n, w.m.jobs[id])
    decreases |events|
  {
    var last := |events| - 1;
    var before :| Leads(NewWorld(o), events[..last], before) && Allowed(before, events[last]) &&
                  w == Step(before, events[last]);
    ReachableWorldsSatisfyInv(o, events[..last], before);
    RunKeepsRecordsFit(o, events[..last], before);
    EndedNowOrBefore(before, events[last], id);
    if IsTerminal(before.m.jobs[id].status) {
      n := EndingsHaveCauses(o, events[..last], before, id);
      assert events[..last][..n] == events[..n];
    } else {
      n := last;
    }
  }

  lemma {:induction false} CanceledByEvent(o: Options, events: seq<Event>, w: World) returns (n: nat)
    requires Leads(NewWorld(o), events, w) && w.canceled
    ensures n < |events| && events[n].CancelContext?
    decreases |events|
  {
    var last := |events| - 1;
    var before :| Leads(NewWorld(o), events[..last], before) && Allowed(before, events[last]) &&
                  w == Step(before, events[last]);
    if before.canceled {
      n := CanceledByEvent(o, events[..last], before);
    } else {
      n := last;
    }
  }

  /** A queued job is canceled only if the manager's context had ended before, and it never ran. */
  lemma {:induction false} QueuedIsCanceledOnlyAfterEnd(o: Options, events: seq<Event>, w: World, e: Event, id: string)
    returns (n: nat)
    requires Leads(NewWorld(o), events, w) && Allowed(w, e) && HasStatus(w.m.jobs, id, Queued)
    requires HasStatus(Step(w, e).m.jobs, id, Canceled)
    ensures e.Discard? && n < |events| && events[n].CancelContext?
    ensures id !in Step(w, e).launched && !Step(w, e).m.jobs[id].started
  {
    ReachableWorldsSatisfyInv(o, events, w);
    RunKeepsRecordsFit(o, events, w);
    EndedNowOrBefore(w, e, id);
    assert e.Complete? ==> WorkerFits(w.m.jobs, w.workers[e.w]);
    StepMovesRecord(w, e, id);
    assert RecordFits(w.m.jobs[id]);
    n := CanceledByEvent(o, events, w);
  }

  /** However a task ended, the record of its job shows that from then on, for as long as it is kept. */
  lemma {:induction false} VerdictStays(o: Options, before: seq<Event>, w: World, i: nat, verdict: Verdict,
                                        after: seq<Event>, w': World)
    requires Leads(NewWorld(o), before, w) && Allowed(w, Complete(i, verdict))
    requires Leads(Step(w, Complete(i, verdict)), after, w') && w.workers[i].job in w'.m.jobs
    ensures ShowsVerdict(w'.m.jobs[w.workers[i].job], verdict)
  {
    var id := w.workers[i].job;
    ReachableWorldsSatisfyInv(o, before, w);
    StepKeepsInv(w, Complete(i, verdict));
    HeldIsActive(w, i, id);
    KeptSince(w, Complete(i, verdict), after, w', id);
    StepMovesRecord(w, Complete(i, verdict), id);
    CompletedJobsStay(Step(w, Complete(i, verdict)), after, w', id);
  }

  /** A job that is kept at the end of a run and was issued at its beginning was kept all along. */
  lemma {:induction false} KeptAtStart(w: World, events: seq<Event>, w': World, id: string)
    requires Inv(w) && Leads(w, events, w') && id in w.issued && id in w'.m.jobs
    ensures id in w.m.jobs
    decreases |events|
  {
    if events != [] {
      var n := |events| - 1;
      var before :| Leads(w, events[..n], before) && Allowed(before, events[n]) && w' == Step(before, events[n]);
      RunKeepsInv(w, events[..n], before);
      IssuedGrows(w, events[..n], before);
      StepAddsOnlyNewJobs(before, events[n]);
      KeptAtStart(w, events[..n], before, id);
    }
  }

  lemma {:induction false} IssuedGrows(w: World, events: seq<Event>, w': World)
    requires Inv(w) && Leads(w, events, w')
    ensures w.issued <= w'.issued
    decreases |events|
  {
    if events != [] {
      var n := |events| - 1;
      var before :| Leads(w, events[..n], before) && Allowed(before, events[n]) && w' == Step(before, events[n]);
      RunKeepsInv(w, events[..n], before);
      IssuedGrows(w, events[..n], before);
      StepAddsOnlyNewJobs(before, events[n]);
    }
  }

  lemma {:induction false} KeptSince(w: World, e: Event, events: seq<Event>, w': World, id: string)
    requires Inv(w) && Allowed(w, e) && Leads(Step(w, e), events, w') && id in w.m.jobs && id in w'.m.jobs
    ensures id in Step(w, e).m.jobs
  {
    StepKeepsInv(w, e);
    StepAddsOnlyNewJobs(w, e);
    KeptAtStart(Step(w, e), events, w', id);
  }

  // ---- Which way a check of the context goes ----

  predicate IsStepOf(e: Event, i: nat) {
    (e.Dequeue? || e.Check? || e.Discard? || e.Begin? || e.Complete? || e.Exit?) && e.w == i
  }

  lemma {:induction false} OthersLeaveWorker(w: World, events: seq<Event>, w': World, i: nat)
    requires Leads(w, events, w') && i < |w.workers|
    requires forall k :: 0 <= k < |events| ==> !IsStepOf(events[k], i)
    ensures i < |w'.workers| && w'.workers[i] == w.workers[i]
    decreases |events|
  {
    if events != [] {
      var n := |events| - 1;
      var before :| Leads(w, events[..n], before) && Allowed(before, events[n]) && w' == Step(before, events[n]);
      OthersLeaveWorker(w, events[..n], before, i);
      assert !IsStepOf(events[n], i);
    }
  }

  lemma {:induction false} ClearedBegins(w: World, i: nat, id: string)
    requires Inv(w) && i < |w.workers| && w.workers[i] == Cleared(id)
    ensures HasStatus(w.m.jobs, id, Queued) && (forall e :: IsStepOf(e, i) && Allowed(w, e) <==> e == Begin(i))
    ensures var w' := Step(w, Begin(i));
            w'.launched == w.launched + [id] && w'.workers[i] == Executing(id) && HasStatus(w'.m.jobs, id, Running)
  {
    assert WorkerFits(w.m.jobs, w.workers[i]);
  }

  lemma {:induction false} DoomedDiscards(w: World, i: nat, id: string)
    requires Inv(w) && i < |w.workers| && w.workers[i] == Doomed(id)
    ensures HasStatus(w.m.jobs, id, Queued) && id !in w.launched
    ensures forall e :: IsStepOf(e, i) && Allowed(w, e) <==> e == Discard(i)
  {
    assert WorkerFits(w.m.jobs, w.workers[i]);
  }

  lemma {:induction false} DiscardedIsCanceled(w: World, i: nat)
    requires Inv(w) && Allowed(w, Discard(i))
    ensures var id, w' := w.workers[i].job, Step(w, Discard(i));
            w'.launched == w.launched && (id in w'.m.jobs ==> ShowsVerdict(w'.m.jobs[id], Aborted))
  {
    var id := w.workers[i].job;
    assert HasStatus(w.m.jobs, id, Queued) by {
      DoomedDiscards(w, i, id);
    }
    if id in Step(w, Discard(i)).m.jobs {
      StepMovesRecord(w, Discard(i), id);
    }
  }

  /** A worker that looks at a live context goes on to run its task: whatever happens meanwhile, also if the context
      ends then, the only step it can take next marks the job running and launches its work. If the context had ended,
      the only step it can take is to cancel the job, which is never run. */
  lemma {:induction false} CheckDecides(o: Options, events: seq<Event>, w: World, i: nat, between: seq<Event>,
                                        w': World)
    requires Leads(NewWorld(o), events, w) && Allowed(w, Check(i)) && Leads(Step(w, Check(i)), between, w')
    requires forall k :: 0 <= k < |between| ==> !IsStepOf(between[k], i)
    ensures var id := w.workers[i].job;
            HasStatus(w'.m.jobs, id, Queued) &&
            if w.canceled then
              (forall e :: IsStepOf(e, i) && Allowed(w', e) <==> e == Discard(i)) &&
              Step(w', Discard(i)).launched == w'.launched && id !in w'.launched &&
              (id in Step(w', Discard(i)).m.jobs ==> ShowsVerdict(Step(w', Discard(i)).m.jobs[id], Aborted))
            else
              (forall e :: IsStepOf(e, i) && Allowed(w', e) <==> e == Begin(i)) &&
              Step(w', Begin(i)).launched == w'.launched + [id] && Step(w', Begin(i)).workers[i] == Executing(id) &&
              HasStatus(Step(w', Begin(i)).m.jobs, id, Running)
  {
    assert Inv(w') by {
      ReachableWorldsSatisfyInv(o, events, w);
      StepKeepsInv(w, Check(i));
      RunKeepsInv(Step(w, Check(i)), between, w');
    }
    OthersLeaveWorker(Step(w, Check(i)), between, w', i);
    if w.canceled {
      DoomedDiscards(w', i, w.workers[i].job);
      DiscardedIsCanceled(w', i);
    } else {
      ClearedBegins(w', i, w.workers[i].job);
    }
  }

  // ---- First come, first served ----

  /** `at` tells which event of the run accepted each job; the order list and the queue keep that order, and the queue
      holds exactly the jobs accepted last. */
  ghost predicate InOrder(w: World, at: map<string, nat>) {
    (forall id :: id in w.issued <==> id in at) &&
    (forall id :: id in w.m.order ==> id in at) && (forall id :: id in w.m.queue ==> id in at) &&
    Ordered(w.m.order, at) && Ordered(w.m.queue, at) &&
    forall id, k :: id in at && id !in w.m.queue && 0 <= k < |w.m.queue| ==> Earlier(at, id, w.m.queue[k])
  }

  predicate Earlier(at: map<string, nat>, a: string, b: string) {
    a in at && b in at && at[a] < at[b]
  }

  ghost predicate Ordered(ids: seq<string>, at: map<string, nat>) {
    forall i, j :: 0 <= i < j < |ids| ==> Earlier(at, ids[i], ids[j])
  }

  lemma {:induction false} DropStaysOrdered(ids: seq<string>, at: map<string, nat>, i: nat)
    requires Ordered(ids, at) && i < |ids|
    ensures Ordered(ids[..i] + ids[i + 1..], at)
  {
    var without := ids[..i] + ids[i + 1..];
    forall a, b | 0 <= a < b < |without| ensures Earlier(at, without[a], without[b]) {
      assert Earlier(at, ids[if a < i then a else a + 1], ids[if b < i then b else b + 1]);
    }
  }

  lemma {:induction false} TrimStaysOrdered(m: Shared, at: map<string, nat>)
    requires Ordered(m.order, at)
    ensures Ordered(Trim(m).order, at)
    ensures forall id :: id in Trim(m).order ==> id in m.order
    decreases |m.order|
  {
    var i := FirstDroppable(m.order, m.jobs);
    if |m.jobs| > m.opts.historyLimit && i < |m.order| {
      DropStaysOrdered(m.order, at, i);
      TrimStaysOrdered(DropAt(m, i), at);
    }
  }

  lemma {:induction false} AppendStaysOrdered(ids: seq<string>, at: map<string, nat>, id: string, n: nat)
    requires Ordered(ids, at) && id !in at
    requires forall x :: x in ids ==> x in at && at[x] < n
    ensures Ordered(ids + [id], at[id := n])
  {
    var at' := at[id := n];
    forall i, j | 0 <= i < j < |ids + [id]| ensures Earlier(at', (ids + [id])[i], (ids + [id])[j]) {
      assert ids[i] in ids;
      if j < |ids| {
        assert Earlier(at, ids[i], ids[j]);
      }
    }
  }

  ghost predicate KnownBefore(at: map<string, nat>, n: nat) {
    forall id :: id in at ==> at[id] < n
  }

  lemma {:induction false} AcceptStaysInOrder(w: World, w': World, at: map<string, nat>, id: string, n: nat)
    requires InOrder(w, at) && KnownBefore(at, n) && id !in w.issued
    requires w'.m.order == w.m.order + [id] && w'.m.queue == w.m.queue + [id] && w'.issued == w.issued + {id}
    ensures InOrder(w', at[id := n]) && KnownBefore(at[id := n], n + 1)
  {
    var at' := at[id := n];
    AppendStaysOrdered(w.m.order, at, id, n);
    AppendStaysOrdered(w.m.queue, at, id, n);
    forall x, k | x in at' && x !in w'.m.queue && 0 <= k < |w'.m.queue| ensures Earlier(at', x, w'.m.queue[k]) {
      assert w'.m.queue[|w.m.queue|] == id;
      assert x != id && x !in w.m.queue;
      if k < |w.m.queue| {
        assert Earlier(at, x, w.m.queue[k]);
      }
    }
  }

  lemma {:induction false} TakeStaysInOrder(w: World, w': World, at: map<string, nat>)
    requires InOrder(w, at) && w.m.queue != []
    requires w'.m.order == w.m.order && w'.m.queue == w.m.queue[1..] && w'.issued == w.issued
    ensures InOrder(w', at)
  {
    forall i, j | 0 <= i < j < |w'.m.queue| ensures Earlier(at, w'.m.queue[i], w'.m.queue[j]) {
      assert Earlier(at, w.m.queue[i + 1], w.m.queue[j + 1]);
    }
    forall x, k | x in at && x !in w'.m.queue && 0 <= k < |w'.m.queue| ensures Earlier(at, x, w'.m.queue[k]) {
      assert w.m.queue == [w.m.queue[0]] + w'.m.queue;
      assert x == w.m.queue[0] || x !in w.m.queue;
      assert Earlier(at, x, w.m.queue[k + 1]);
    }
  }

  /** The queue and what was issued are as they were, and the order list lost some at most. */
  lemma {:induction false} FewerStayInOrder(w: World, w': World, at: map<string, nat>)
    requires InOrder(w, at) && w'.m.queue == w.m.queue && w'.issued == w.issued
    requires Ordered(w'.m.order, at) && forall id :: id in w'.m.order ==> id in w.m.order
    ensures InOrder(w', at)
  {
  }

  lemma {:induction false} FinishStaysOrdered(w: World, i: nat, status: JobStatus, error: string, at: map<string, nat>)
    requires Inv(w) && Ordered(w.m.order, at) && i < |w.workers| && IsBusy(w.workers[i]) && IsTerminal(status)
    ensures var m' := Finish(w.m, w.workers[i].job, status, error);
            m'.queue == w.m.queue && Ordered(m'.order, at) && forall id :: id in m'.order ==> id in w.m.order
  {
    var id := w.workers[i].job;
    assert IsActive(w.m.jobs, id) by {
      HeldIsActive(w, i, id);
    }
    assert Finish(w.m, id, status, error).queue == w.m.queue by {
      FinishFacts(w.m, id, status, error);
    }
    TrimStaysOrdered(Settle(w.m, id, status, error), at);
  }

  lemma {:induction false} EndStaysInOrder(w: World, i: nat, verdict: Verdict, at: map<string, nat>)
    requires Inv(w) && InOrder(w, at) && i < |w.workers| && IsBusy(w.workers[i])
    ensures InOrder(w.(m := Record(w.m, w.workers[i].job, verdict), workers := w.workers[i := Idle]), at)
  {
    match verdict {
      case Done => FinishStaysOrdered(w, i, Succeeded, "", at);
      case Erred(message) => FinishStaysOrdered(w, i, Failed, message, at);
      case Aborted => FinishStaysOrdered(w, i, Canceled, CONTEXT_CANCELED, at);
    }
    FewerStayInOrder(w, w.(m := Record(w.m, w.workers[i].job, verdict), workers := w.workers[i := Idle]), at);
  }

  lemma {:induction false} SubmitStaysInOrder(w: World, spec: TaskSpec, id: string, at: map<string, nat>, n: nat)
    requires Inv(w) && id !in w.issued && InOrder(w, at) && KnownBefore(at, n) && id != ""
    ensures var w' := Step(w, SubmitTask(spec, id));
            if Created(Submit(w.m, spec, id)) then InOrder(w', at[id := n]) && KnownBefore(at[id := n], n + 1)
            else InOrder(w', at)
  {
    var w' := Step(w, SubmitTask(spec, id));
    SubmitFacts(w.m, spec, id);
    if Created(Submit(w.m, spec, id)) {
      AcceptStaysInOrder(w, w', at, id, n);
    } else {
      FewerStayInOrder(w, w', at);
    }
  }

  lemma {:induction false} BeginStaysInOrder(w: World, i: nat, at: map<string, nat>)
    requires Inv(w) && InOrder(w, at) && Allowed(w, Begin(i))
    ensures InOrder(Step(w, Begin(i)), at)
  {
    assert WorkerFits(w.m.jobs, w.workers[i]);
    FewerStayInOrder(w, Step(w, Begin(i)), at);
  }

  lemma {:induction false} StepStaysInOrder(w: World, e: Event, at: map<string, nat>, n: nat)
    returns (at': map<string, nat>)
    requires Inv(w) && Allowed(w, e) && InOrder(w, at) && KnownBefore(at, n)
    ensures InOrder(Step(w, e), at') && KnownBefore(at', n + 1)
    ensures at' == at || (e.SubmitTask? && Created(Submit(w.m, e.spec, e.id)) && at' == at[e.id := n])
  {
    at' := at;
    match e
    case SubmitTask(spec, id) =>
      SubmitStaysInOrder(w, spec, id, at, n);
      at' := if Created(Submit(w.m, spec, id)) then at[id := n] else at;
    case Dequeue(i) => TakeStaysInOrder(w, Step(w, e), at);
    case Discard(i) => EndStaysInOrder(w, i, Aborted, at);
    case Begin(i) => BeginStaysInOrder(w, i, at);
    case Complete(i, verdict) => EndStaysInOrder(w, i, verdict, at);
    case Start => FewerStayInOrder(w, Step(w, e), at);
    case Check(_) => FewerStayInOrder(w, Step(w, e), at);
    case Exit(_) => FewerStayInOrder(w, Step(w, e), at);
    case Shutdown => FewerStayInOrder(w, Step(w, e), at);
    case CancelContext => FewerStayInOrder(w, Step(w, e), at);
  }

  lemma {:induction false} AcceptedLater(o: Options, events: seq<Event>, n: nat, m: nat, id: string)
    requires n <= |events| && AcceptedAt(o, events[..n], m, id)
    ensures AcceptedAt(o, events, m, id)
  {
    assert events[..n][..m] == events[..m];
  }

  /** Jobs are served in the order they were accepted. In every reachable state the order list, from which trimming
      starts at the oldest, and the queue both list jobs as they were accepted, and whatever still waits was accepted
      after everything that was taken before. */
  lemma {:induction false} FirstComeFirstServed(o: Options, events: seq<Event>, w: World) returns (at: map<string, nat>)
    requires Leads(NewWorld(o), events, w)
    ensures InOrder(w, at) && KnownBefore(at, |events|)
    ensures forall id :: id in at ==> AcceptedAt(o, events, at[id], id)
    decreases |events|
  {
    if events == [] {
      at := map[];
    } else {
      var n := |events| - 1;
      var before :| Leads(NewWorld(o), events[..n], before) && Allowed(before, events[n]) &&
                    w == Step(before, events[n]);
      ReachableWorldsSatisfyInv(o, events[..n], before);
      var known := FirstComeFirstServed(o, events[..n], before);
      at := StepStaysInOrder(before, events[n], known, n);
      forall id | id in at ensures AcceptedAt(o, events, at[id], id) {
        if id in known && at[id] == known[id] {
          AcceptedLater(o, events, n, at[id], id);
        }
      }
    }
  }
}

/** Shutting the job manager down: the closed queue drains, every worker exits, and no job is left unfinished. */
module JobShutdown {
  import opened Prelude
  import opened JobState
  import opened JobSystem
  import opened JobInvariant
  import opened JobRuns

  /** How many steps a worker has left before it needs new work or exits. */
  function Rank(x: Worker): nat {
    match x
    case Exited => 0
    case Idle => 1
    case Executing(_) => 2
    case Cleared(_) => 3
    case Doomed(_) => 3
    case Dequeued(_) => 4
  }

  function Ranks(workers: seq<Worker>): nat {
    if workers == [] then 0 else Ranks(workers[..|workers| - 1]) + Rank(workers[|workers| - 1])
  }

  /** The work left: queued tasks and tasks in flight, weighed so that every worker step reduces it. */
  function WorkLeft(w: World): nat {
    4 * |w.m.queue| + Ranks(w.workers)
  }

  predicate IsWorkerStep(e: Event) {
    e.Dequeue? || e.Check? || e.Discard? || e.Begin? || e.Complete? || e.Exit?
  }

  function CountWorkerSteps(events: seq<Event>): nat {
    if events == [] then 0
    else CountWorkerSteps(events[..|events| - 1]) + if IsWorkerStep(events[|events| - 1]) then 1 else 0
  }

  lemma {:induction false} RanksUpdate(workers: seq<Worker>, i: nat, x: Worker)
    requires i < |workers|
    ensures Ranks(workers[i := x]) == Ranks(workers) - Rank(workers[i]) + Rank(x)
  {
    var n := |workers| - 1;
    if i < n {
      RanksUpdate(workers[..n], i, x);
      assert workers[i := x][..n] == workers[..n][i := x];
    } else {
      assert workers[i := x][..n] == workers[..n];
    }
  }

  lemma {:induction false} FinishKeepsQueue(w: World, i: nat, status: JobStatus, error: string)
    requires Inv(w) && i < |w.workers| && IsBusy(w.workers[i]) && IsTerminal(status)
    ensures Finish(w.m, w.workers[i].job, status, error).queue == w.m.queue
    ensures Finish(w.m, w.workers[i].job, status, error).shuttingDown == w.m.shuttingDown
  {
    HeldIsActive(w, i, w.workers[i].job);
    FinishFacts(w.m, w.workers[i].job, status, error);
  }

  lemma {:induction false} RecordKeepsQueue(w: World, i: nat, verdict: Verdict)
    requires Inv(w) && i < |w.workers| && IsBusy(w.workers[i])
    ensures Record(w.m, w.workers[i].job, verdict).queue == w.m.queue
    ensures Record(w.m, w.workers[i].job, verdict).shuttingDown == w.m.shuttingDown
  {
    match verdict
    case Done => FinishKeepsQueue(w, i, Succeeded, "");
    case Erred(message) => FinishKeepsQueue(w, i, Failed, message);
    case Aborted => FinishKeepsQueue(w, i, Canceled, CONTEXT_CANCELED);
  }

  lemma {:induction false} EndedTaskIsDone(w: World, i: nat, verdict: Verdict)
    requires Inv(w) && i < |w.workers| && IsBusy(w.workers[i])
    ensures var w' := w.(m := Record(w.m, w.workers[i].job, verdict), workers := w.workers[i := Idle]);
            WorkLeft(w') < WorkLeft(w) && w'.m.shuttingDown == w.m.shuttingDown
  {
    RecordKeepsQueue(w, i, verdict);
    RanksUpdate(w.workers, i, Idle);
  }

  /** Steps that end no task. */
  lemma {:induction false} OtherStepsDrain(w: World, e: Event)
    requires Allowed(w, e) && w.m.shuttingDown && !e.Discard? && !e.Complete?
    ensures Step(w, e).m.shuttingDown && |Step(w, e).workers| == |w.workers|
    ensures if IsWorkerStep(e) then WorkLeft(Step(w, e)) < WorkLeft(w) else WorkLeft(Step(w, e)) == WorkLeft(w)
  {
    match e
    case Dequeue(i) => RanksUpdate(w.workers, i, Worker.Dequeued(w.m.queue[0]));
    case Check(i) => RanksUpdate(w.workers, i, Step(w, e).workers[i]);
    case Begin(i) => RanksUpdate(w.workers, i, Executing(w.workers[i].job));
    case Exit(i) => RanksUpdate(w.workers, i, Exited);
    case SubmitTask(_, _) =>
    case Shutdown =>
    case CancelContext =>
  }

  /** Once the queue is closed, worker steps use up the work left and nothing else adds to it. */
  lemma {:induction false} ClosedQueueDrains(w: World, e: Event)
    requires Inv(w) && Allowed(w, e) && w.m.shuttingDown
    ensures Step(w, e).m.shuttingDown && |Step(w, e).workers| == |w.workers|
    ensures if IsWorkerStep(e) then WorkLeft(Step(w, e)) < WorkLeft(w) else WorkLeft(Step(w, e)) == WorkLeft(w)
  {
    if e.Discard? {
      EndedTaskIsDone(w, e.w, Aborted);
    } else if e.Complete? {
      EndedTaskIsDone(w, e.w, e.verdict);
    } else {
      OtherStepsDrain(w, e);
    }
  }

  lemma {:induction false} ClosedRunIsBounded(w: World, events: seq<Event>, w': World)
    requires Inv(w) && w.m.shuttingDown && Leads(w, events, w')
    ensures w'.m.shuttingDown && |w'.workers| == |w.workers| && WorkLeft(w') + CountWorkerSteps(events) <= WorkLeft(w)
    decreases |events|
  {
    if events != [] {
      var n := |events| - 1;
      var before :| Leads(w, events[..n], before) && Allowed(before, events[n]) && w' == Step(before, events[n]);
      RunKeepsInv(w, events[..n], before);
      ClosedRunIsBounded(w, events[..n], before);
      ClosedQueueDrains(before, events[n]);
    }
  }

  /** While the queue is closed a worker that has not exited can always take a step. */
  lemma {:induction false} ClosedWorkersNeverBlock(w: World, i: nat) returns (e: Event)
    requires w.m.shuttingDown && i < |w.workers| && !w.workers[i].Exited?
    ensures Allowed(w, e) && IsWorkerStep(e)
  {
    match w.workers[i]
    case Idle => e := if w.m.queue != [] then Event.Dequeue(i) else Exit(i);
    case Dequeued(_) => e := Check(i);
    case Doomed(_) => e := Discard(i);
    case Cleared(_) => e := Begin(i);
    case Executing(_) => e := Complete(i, Done);
  }

  lemma {:induction false} ExitedHoldNothing(workers: seq<Worker>)
    requires forall i :: 0 <= i < |workers| ==> workers[i].Exited?
    ensures InFlight(workers) == multiset{}
  {
    if workers != [] {
      ExitedHoldNothing(workers[..|workers| - 1]);
    }
  }

  ghost predicate AllExited(w: World) {
    w.workers != [] && forall i :: 0 <= i < |w.workers| ==> w.workers[i].Exited?
  }

  lemma {:induction false} AllExitedMeansFinished(w: World)
    requires Inv(w) && AllExited(w)
    ensures w.m.queue == [] && w.m.active == map[]
    ensures forall id :: id in w.m.jobs ==> IsTerminal(w.m.jobs[id].status)
  {
    ExitedHoldNothing(w.workers);
    assert w.workers[0].Exited?;
    forall id | id in w.m.jobs ensures IsTerminal(w.m.jobs[id].status) {
      assert Places(w)[id] == 0;
      assert id !in ActiveIds(w.m.jobs);
    }
    assert forall f :: f in w.m.active ==> IsActive(w.m.jobs, w.m.active[f]);
  }

  /** Shutdown drains. From any reachable state of a started manager whose queue was closed, a run has at most
      `WorkLeft` worker steps left whatever clients do meanwhile; a run that cannot be extended by a worker step has all
      workers exited, all jobs in history completed, the queue empty and no fingerprint reserved. */
  lemma {:induction false} ShutdownDrains(o: Options, before: seq<Event>, w: World, after: seq<Event>, w': World)
    requires Leads(NewWorld(o), before, w) && w.workers != [] && w.m.shuttingDown && Leads(w, after, w')
    ensures CountWorkerSteps(after) <= WorkLeft(w)
    ensures (forall e :: IsWorkerStep(e) ==> !Allowed(w', e)) ==>
              AllExited(w') && w'.m.queue == [] && w'.m.active == map[] &&
              forall id :: id in w'.m.jobs ==> IsTerminal(w'.m.jobs[id].status)
  {
    ReachableWorldsSatisfyInv(o, before, w);
    RunKeepsInv(w, after, w');
    ClosedRunIsBounded(w, after, w');
    if forall e :: IsWorkerStep(e) ==> !Allowed(w', e) {
      forall i | 0 <= i < |w'.workers| ensures w'.workers[i].Exited? {
        if !w'.workers[i].Exited? {
          var e := ClosedWorkersNeverBlock(w', i);
          assert false;
        }
      }
      AllExitedMeansFinished(w');
    }
  }
}

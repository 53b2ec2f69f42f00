/** The job manager as an interleaving step system: every mutex section and every step of a worker is one event. */
module JobSystem {
  import opened Prelude
  import opened JobState
  import opened JobHistory

  /** What a worker goroutine holds between its steps. */
  datatype Worker =
    | Idle
    | Dequeued(job: string)
    | Doomed(job: string)
    | Cleared(job: string)
    | Executing(job: string)
    | Exited

  predicate IsBusy(x: Worker) {
    !x.Idle? && !x.Exited?
  }

  /** `issued` (the id of every job ever accepted) and `launched` (the tasks run so far) are history variables. */
  datatype World = World(m: Shared, workers: seq<Worker>, canceled: bool, issued: set<string>, launched: seq<string>)

  datatype Verdict = Done | Erred(message: string) | Aborted

  /** A worker takes a task, looks at the lifetime context, then either cancels the job or marks it running and runs
      it, and finally records how the run ended. */
  datatype Event =
    | Start
    | SubmitTask(spec: TaskSpec, id: string)
    | Dequeue(w: nat)
    | Check(w: nat)
    | Discard(w: nat)
    | Begin(w: nat)
    | Complete(w: nat, verdict: Verdict)
    | Exit(w: nat)
    | Shutdown
    | CancelContext

  function NewWorld(o: Options): World {
    World(Shared(Normalized(o), map[], [], map[], map[], [], false), [], false, {}, [])
  }

  predicate IsAt(w: World, i: nat, at: Worker -> bool) {
    i < |w.workers| && at(w.workers[i])
  }

  /** Identifiers drawn for new jobs were never issued before; a manager is started at most once, and not after
      shutdown. */
  predicate Allowed(w: World, e: Event) {
    match e
    case Start => w.workers == [] && !w.m.shuttingDown
    case SubmitTask(_, id) => id != "" && id !in w.issued
    case Dequeue(i) => IsAt(w, i, (x: Worker) => x.Idle?) && w.m.queue != []
    case Check(i) => IsAt(w, i, (x: Worker) => x.Dequeued?)
    case Discard(i) => IsAt(w, i, (x: Worker) => x.Doomed?)
    case Begin(i) => IsAt(w, i, (x: Worker) => x.Cleared?)
    case Complete(i, _) => IsAt(w, i, (x: Worker) => x.Executing?)
    case Exit(i) => IsAt(w, i, (x: Worker) => x.Idle?) && w.m.shuttingDown && w.m.queue == []
    case Shutdown => true
    case CancelContext => true
  }

  function Record(m: Shared, id: string, verdict: Verdict): Shared {
    match verdict
    case Done => Finish(m, id, Succeeded, "")
    case Erred(message) => Finish(m, id, Failed, message)
    case Aborted => Finish(m, id, Canceled, CONTEXT_CANCELED)
  }

  function Step(w: World, e: Event): World
    requires Allowed(w, e)
  {
    match e
    case Start => w.(workers := seq(Max(0, w.m.opts.workers), i => Idle))
    case SubmitTask(spec, id) =>
      var r := Submit(w.m, spec, id);
      w.(m := r.shared, issued := if Created(r) then w.issued + {id} else w.issued)
    case Dequeue(i) => w.(m := w.m.(queue := w.m.queue[1..]), workers := w.workers[i := Dequeued(w.m.queue[0])])
    case Check(i) =>
      var id := w.workers[i].job;
      w.(workers := w.workers[i := if w.canceled then Doomed(id) else Cleared(id)])
    case Discard(i) => w.(m := Record(w.m, w.workers[i].job, Aborted), workers := w.workers[i := Idle])
    case Begin(i) =>
      var id := w.workers[i].job;
      w.(m := StartRunning(w.m, id), workers := w.workers[i := Executing(id)], launched := w.launched + [id])
    case Complete(i, verdict) => w.(m := Record(w.m, w.workers[i].job, verdict), workers := w.workers[i := Idle])
    case Exit(i) => w.(workers := w.workers[i := Exited])
    case Shutdown => w.(m := w.m.(shuttingDown := true))
    case CancelContext => w.(canceled := true)
  }

  /** The world after a list of events. */
  ghost predicate Leads(w: World, events: seq<Event>, w': World)
    decreases |events|
  {
    if events == [] then w' == w
    else
      var n := |events| - 1;
      exists before :: Leads(w, events[..n], before) && Allowed(before, events[n]) && w' == Step(before, events[n])
  }

  // ---- Where jobs are ----

  function Held(x: Worker): multiset<string> {
    match x
    case Idle => multiset{}
    case Exited => multiset{}
    case Dequeued(id) => multiset{id}
    case Doomed(id) => multiset{id}
    case Cleared(id) => multiset{id}
    case Executing(id) => multiset{id}
  }

  function InFlight(workers: seq<Worker>): multiset<string> {
    if workers == [] then multiset{} else InFlight(workers[..|workers| - 1]) + Held(workers[|workers| - 1])
  }

  /** Every place a job waits or is worked on, with repetitions counted. */
  function Places(w: World): multiset<string> {
    multiset(w.m.queue) + InFlight(w.workers)
  }

  predicate IsActive(jobs: map<string, Job>, id: string) {
    id in jobs && !IsTerminal(jobs[id].status)
  }

  function ActiveIds(jobs: map<string, Job>): set<string> {
    set id | id in jobs && !IsTerminal(jobs[id].status)
  }

  // ---- The invariant ----

  ghost predicate Keyed(w: World) {
    (forall id :: id in w.m.jobs ==> w.m.jobs[id].id == id && id in w.issued) &&
    (forall k :: k in w.m.keys ==> w.m.keys[k] in w.issued)
  }

  /** Every active job is in exactly one place, and nothing else is anywhere. */
  ghost predicate PlacedOnce(w: World) {
    Places(w) == multiset(ActiveIds(w.m.jobs))
  }

  predicate HasStatus(jobs: map<string, Job>, id: string, status: JobStatus) {
    id in jobs && jobs[id].status == status
  }

  predicate WorkerFits(jobs: map<string, Job>, x: Worker) {
    match x
    case Idle => true
    case Exited => true
    case Dequeued(id) => HasStatus(jobs, id, Queued)
    case Doomed(id) => HasStatus(jobs, id, Queued)
    case Cleared(id) => HasStatus(jobs, id, Queued)
    case Executing(id) => HasStatus(jobs, id, Running)
  }

  ghost predicate AllFit(jobs: map<string, Job>, workers: seq<Worker>) {
    forall i :: 0 <= i < |workers| ==> WorkerFits(jobs, workers[i])
  }

  ghost predicate StatusesFit(w: World) {
    (forall i :: 0 <= i < |w.m.queue| ==> HasStatus(w.m.jobs, w.m.queue[i], Queued)) && AllFit(w.m.jobs, w.workers)
  }

  /** The fingerprint index maps the fingerprint of each active job to that job and holds nothing else. */
  ghost predicate ActiveExact(jobs: map<string, Job>, active: map<string, string>) {
    (forall f :: f in active ==> f != "" && IsActive(jobs, active[f]) && jobs[active[f]].fingerprint == f) &&
    (forall id :: IsActive(jobs, id) && jobs[id].fingerprint != "" ==>
       jobs[id].fingerprint in active && active[jobs[id].fingerprint] == id)
  }

  ghost predicate LaunchedOnce(w: World) {
    NoDuplicates(w.launched) && (forall i :: 0 <= i < |w.launched| ==> w.launched[i] in w.issued) &&
    (forall id :: HasStatus(w.m.jobs, id, Queued) ==> id !in w.launched)
  }

  ghost predicate Bounded(w: World) {
    var o := w.m.opts;
    o.workers > 0 && o.queueSize > 0 && o.historyLimit > 0 &&
    |w.m.queue| <= o.queueSize && (|w.workers| == 0 || |w.workers| == o.workers) &&
    |w.m.jobs| <= o.historyLimit + |ActiveIds(w.m.jobs)|
  }

  ghost predicate ExitsAreFinal(w: World) {
    forall i :: 0 <= i < |w.workers| && w.workers[i].Exited? ==> w.m.shuttingDown && w.m.queue == []
  }

  ghost predicate Inv(w: World) {
    OrderMatches(w.m) && Keyed(w) && PlacedOnce(w) && StatusesFit(w) && ActiveExact(w.m.jobs, w.m.active) &&
    LaunchedOnce(w) && Bounded(w) && ExitsAreFinal(w)
  }
}

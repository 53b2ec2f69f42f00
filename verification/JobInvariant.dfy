/** The job manager's invariant survives every event, in any interleaving. */
module JobInvariant {
  import opened Prelude
  import opened JobState
  import opened JobHistory
  import opened JobSystem

  // ---- Workers ----

  lemma {:induction false} HeldIsInFlight(workers: seq<Worker>, i: nat)
    requires i < |workers|
    ensures Held(workers[i]) <= InFlight(workers)
  {
    var n := |workers| - 1;
    if i < n {
      HeldIsInFlight(workers[..n], i);
    }
  }

  lemma {:induction false} Exchanged(a: multiset<string>, b: multiset<string>, h: multiset<string>, x: multiset<string>,
                                     rest: multiset<string>)
    requires a + h == b + x
    ensures (a + rest) + h == (b + rest) + x
  {
    assert (a + rest) + h == (a + h) + rest && (b + rest) + x == (b + x) + rest;
  }

  lemma {:induction false} InFlightExchange(workers: seq<Worker>, i: nat, x: Worker)
    requires i < |workers|
    ensures InFlight(workers[i := x]) + Held(workers[i]) == InFlight(workers) + Held(x)
  {
    var n := |workers| - 1;
    if i < n {
      InFlightExchange(workers[..n], i, x);
      assert workers[i := x][..n] == workers[..n][i := x];
      Exchanged(InFlight(workers[..n][i := x]), InFlight(workers[..n]), Held(workers[i]), Held(x), Held(workers[n]));
    } else {
      assert workers[i := x][..n] == workers[..n];
      assert (InFlight(workers[..n]) + Held(x)) + Held(workers[n]) ==
             (InFlight(workers[..n]) + Held(workers[n])) + Held(x);
    }
  }

  lemma {:induction false} InFlightUpdate(workers: seq<Worker>, i: nat, x: Worker)
    requires i < |workers|
    ensures Held(workers[i]) <= InFlight(workers)
    ensures InFlight(workers[i := x]) == InFlight(workers) - Held(workers[i]) + Held(x)
  {
    HeldIsInFlight(workers, i);
    InFlightExchange(workers, i, x);
    SolveExchange(InFlight(workers[i := x]), InFlight(workers), Held(workers[i]), Held(x));
  }

  lemma {:induction false} SolveExchange(a: multiset<string>, b: multiset<string>, h: multiset<string>,
                                         x: multiset<string>)
    requires a + h == b + x && h <= b
    ensures a == b - h + x
  {
    assert a == (a + h) - h;
    assert (b + x) - h == b - h + x;
  }

  lemma {:induction false} IdleHoldNothing(workers: seq<Worker>)
    requires forall i :: 0 <= i < |workers| ==> workers[i].Idle?
    ensures InFlight(workers) == multiset{}
  {
    if workers != [] {
      IdleHoldNothing(workers[..|workers| - 1]);
    }
  }

  lemma {:induction false} InFlightBound(workers: seq<Worker>)
    ensures |InFlight(workers)| <= |workers|
  {
    if workers != [] {
      InFlightBound(workers[..|workers| - 1]);
    }
  }

  // ---- Active jobs ----

  lemma {:induction false} HeldIsActive(w: World, i: nat, id: string)
    requires PlacedOnce(w) && i < |w.workers| && Held(w.workers[i]) == multiset{id}
    ensures IsActive(w.m.jobs, id) && id !in w.m.queue
    ensures forall j :: 0 <= j < |w.workers| && j != i ==> id !in Held(w.workers[j])
  {
    InFlightUpdate(w.workers, i, Idle);
    assert id in Held(w.workers[i]);
    assert id in Places(w);
    assert Places(w)[id] == 1;
    assert multiset(w.m.queue)[id] == 0;
    forall j | 0 <= j < |w.workers| && j != i ensures id !in Held(w.workers[j]) {
      InFlightUpdate(w.workers[i := Idle], j, Idle);
    }
  }

  /** Queued and held jobs are counted by the places they take. */
  lemma {:induction false} ActiveCount(w: World)
    requires PlacedOnce(w)
    ensures |ActiveIds(w.m.jobs)| == |w.m.queue| + |InFlight(w.workers)|
    ensures |ActiveIds(w.m.jobs)| <= |w.m.queue| + |w.workers|
  {
    assert |multiset(ActiveIds(w.m.jobs))| == |ActiveIds(w.m.jobs)|;
    assert |Places(w)| == |multiset(w.m.queue)| + |InFlight(w.workers)|;
    InFlightBound(w.workers);
  }

  // ---- Trimming ----

  ghost function Completed(order: seq<string>, jobs: map<string, Job>): set<string> {
    if order == [] then {}
    else Completed(order[..|order| - 1], jobs) +
         if Droppable(jobs, order[|order| - 1]) then {order[|order| - 1]} else {}
  }

  lemma {:induction false} CompletedMembers(order: seq<string>, jobs: map<string, Job>, id: string)
    ensures id in Completed(order, jobs) <==> id in order && Droppable(jobs, id)
  {
    if order != [] {
      CompletedMembers(order[..|order| - 1], jobs, id);
      assert order == order[..|order| - 1] + [order[|order| - 1]];
    }
  }

  lemma {:induction false} CountIsCompleted(order: seq<string>, jobs: map<string, Job>)
    requires NoDuplicates(order)
    ensures CountDroppable(order, jobs) == |Completed(order, jobs)|
  {
    if order != [] {
      var front, last := order[..|order| - 1], order[|order| - 1];
      CountIsCompleted(front, jobs);
      CompletedMembers(front, jobs, last);
      assert last !in front;
    }
  }

  /** Every kept job is active or completed. */
  lemma {:induction false} KeptAreActiveOrCompleted(m: Shared)
    requires OrderMatches(m)
    ensures |m.jobs| == |ActiveIds(m.jobs)| + CountDroppable(m.order, m.jobs)
  {
    var completed := Completed(m.order, m.jobs);
    CountIsCompleted(m.order, m.jobs);
    forall id ensures id in completed <==> id in m.jobs && IsTerminal(m.jobs[id].status) {
      CompletedMembers(m.order, m.jobs, id);
      assert id in m.jobs <==> id in Elements(m.order);
    }
    assert m.jobs.Keys == ActiveIds(m.jobs) + completed;
    assert ActiveIds(m.jobs) !! completed;
    assert |m.jobs| == |m.jobs.Keys|;
  }

  lemma {:induction false} TrimKeepsActive(m: Shared)
    requires OrderMatches(m)
    ensures ActiveIds(Trim(m).jobs) == ActiveIds(m.jobs)
    ensures forall id :: id in Trim(m).jobs ==> id in m.jobs && Trim(m).jobs[id] == m.jobs[id]
  {
    TrimIsOnePass(m);
    forall id | IsActive(m.jobs, id) ensures id in Trim(m).jobs {
      DropOldestMembers(m.order, m.jobs, Excess(m), id);
      assert id in Elements(m.order);
      assert id in Elements(Trim(m).order);
    }
  }

  lemma {:induction false} TrimBounds(m: Shared)
    requires OrderMatches(m) && m.opts.historyLimit > 0
    ensures |Trim(m).jobs| <= m.opts.historyLimit + |ActiveIds(m.jobs)|
  {
    TrimIsOnePass(m);
    KeptAreActiveOrCompleted(m);
  }

  /** Idempotency keys disappear only with the job they name. */
  ghost predicate KeysFollowJobs(m: Shared, m': Shared) {
    (forall k :: k in m'.keys ==> k in m.keys && m'.keys[k] == m.keys[k]) &&
    (forall k :: k in m.keys && m.keys[k] in m'.jobs ==> k in m'.keys)
  }

  lemma {:induction false} KeysFollowTwice(a: Shared, b: Shared, c: Shared)
    requires KeysFollowJobs(a, b) && KeysFollowJobs(b, c) && c.jobs.Keys <= b.jobs.Keys
    ensures KeysFollowJobs(a, c)
  {
  }

  lemma {:induction false} DropKeepsKeys(m: Shared, i: nat)
    requires i < |m.order| && m.order[i] in m.jobs
    ensures KeysFollowJobs(m, DropAt(m, i))
  {
  }

  lemma {:induction false} TrimKeepsKeys(m: Shared)
    requires OrderMatches(m)
    ensures KeysFollowJobs(m, Trim(m))
    decreases |m.order|
  {
    var i := FirstDroppable(m.order, m.jobs);
    if |m.jobs| > m.opts.historyLimit && i < |m.order| {
      DropKeepsOrderMatches(m, i);
      DropKeepsKeys(m, i);
      TrimKeepsKeys(DropAt(m, i));
      TrimIsOnePass(DropAt(m, i));
      KeysFollowTwice(m, DropAt(m, i), Trim(m));
    }
  }

  // ---- A job ends ----

  lemma {:induction false} SettleLeaves(m: Shared, id: string, status: JobStatus, error: string)
    requires IsActive(m.jobs, id) && IsTerminal(status)
    ensures ActiveIds(Settle(m, id, status, error).jobs) == ActiveIds(m.jobs) - {id}
    ensures Settle(m, id, status, error).jobs.Keys == m.jobs.Keys
  {
  }

  lemma {:induction false} FinishFacts(m: Shared, id: string, status: JobStatus, error: string)
    requires OrderMatches(m) && IsActive(m.jobs, id) && IsTerminal(status) && m.opts.historyLimit > 0
    ensures var m' := Finish(m, id, status, error);
            var m1 := Settle(m, id, status, error);
            m' == Trim(m1) && OrderMatches(m1) && OrderMatches(m') && KeysFollowJobs(m1, m') &&
            m'.active == m1.active && m'.queue == m.queue && m'.opts == m.opts && m'.shuttingDown == m.shuttingDown &&
            (forall x :: x in m'.jobs ==> x in m1.jobs && m'.jobs[x] == m1.jobs[x]) &&
            ActiveIds(m'.jobs) == ActiveIds(m.jobs) - {id} &&
            |m'.jobs| <= m.opts.historyLimit + |ActiveIds(m'.jobs)|
  {
    var m1 := Settle(m, id, status, error);
    SettleLeaves(m, id, status, error);
    assert OrderMatches(m1);
    TrimIsOnePass(m1);
    TrimKeepsActive(m1);
    TrimBounds(m1);
    TrimKeepsKeys(m1);
  }

  lemma {:induction false} SettleKeepsActiveExact(m: Shared, id: string, status: JobStatus, error: string)
    requires ActiveExact(m.jobs, m.active) && IsActive(m.jobs, id) && IsTerminal(status) && m.jobs[id].id == id
    ensures ActiveExact(Settle(m, id, status, error).jobs, Settle(m, id, status, error).active)
  {
  }

  /** The index refers only to active jobs, so dropping completed ones leaves it exact. */
  lemma {:induction false} FewerCompletedKeepsActiveExact(jobs: map<string, Job>, jobs': map<string, Job>,
                                                          active: map<string, string>)
    requires ActiveExact(jobs, active) && ActiveIds(jobs') == ActiveIds(jobs)
    requires forall x :: x in jobs' ==> x in jobs && jobs'[x] == jobs[x]
    ensures ActiveExact(jobs', active)
  {
    forall x ensures IsActive(jobs', x) <==> IsActive(jobs, x) {
      assert x in ActiveIds(jobs') <==> x in ActiveIds(jobs);
    }
  }

  /** Jobs that stay active keep their record while another one ends. */
  lemma {:induction false} OthersKeepStatus(m: Shared, id: string, status: JobStatus, error: string, x: string,
                                            s: JobStatus)
    requires OrderMatches(m) && IsActive(m.jobs, id) && IsTerminal(status) && m.opts.historyLimit > 0
    requires HasStatus(m.jobs, x, s) && x != id && !IsTerminal(s)
    ensures HasStatus(Finish(m, id, status, error).jobs, x, s)
  {
    FinishFacts(m, id, status, error);
    assert x in ActiveIds(Finish(m, id, status, error).jobs);
  }

  lemma {:induction false} FinishKeepsStatusesFit(w: World, i: nat, id: string, status: JobStatus, error: string)
    requires Inv(w) && i < |w.workers| && Held(w.workers[i]) == multiset{id} && IsTerminal(status)
    ensures StatusesFit(w.(m := Finish(w.m, id, status, error), workers := w.workers[i := Idle]))
  {
    var w' := w.(m := Finish(w.m, id, status, error), workers := w.workers[i := Idle]);
    HeldIsActive(w, i, id);
    FinishFacts(w.m, id, status, error);
    forall k | 0 <= k < |w'.m.queue| ensures HasStatus(w'.m.jobs, w'.m.queue[k], Queued) {
      OthersKeepStatus(w.m, id, status, error, w.m.queue[k], Queued);
    }
    forall j | 0 <= j < |w'.workers| ensures WorkerFits(w'.m.jobs, w'.workers[j]) {
      OtherWorkerFits(w, i, id, status, error, j);
    }
  }

  lemma {:induction false} OtherWorkerFits(w: World, i: nat, id: string, status: JobStatus, error: string, j: nat)
    requires Inv(w) && i < |w.workers| && Held(w.workers[i]) == multiset{id} && IsTerminal(status) && j < |w.workers|
    ensures WorkerFits(Finish(w.m, id, status, error).jobs, w.workers[i := Idle][j])
  {
    HeldIsActive(w, i, id);
    assert WorkerFits(w.m.jobs, w.workers[j]);
    if j != i && IsBusy(w.workers[j]) {
      var other := w.workers[j].job;
      assert other in Held(w.workers[j]);
      OthersKeepStatus(w.m, id, status, error, other, if w.workers[j].Executing? then Running else Queued);
    }
  }

  lemma {:induction false} RemovedIsPlaced(q: multiset<string>, held: multiset<string>, active: set<string>, id: string)
    requires q + held == multiset(active) && multiset{id} <= held
    ensures q + (held - multiset{id} + multiset{}) == multiset(active - {id})
  {
    assert id in q + held;
    assert q + (held - multiset{id} + multiset{}) == (q + held) - multiset{id};
    assert multiset(active - {id}) == multiset(active) - multiset{id};
  }

  lemma {:induction false} FinishKeepsPlacedOnce(w: World, i: nat, id: string, status: JobStatus, error: string)
    requires Inv(w) && i < |w.workers| && Held(w.workers[i]) == multiset{id} && IsTerminal(status)
    ensures PlacedOnce(w.(m := Finish(w.m, id, status, error), workers := w.workers[i := Idle]))
  {
    var m' := Finish(w.m, id, status, error);
    assert ActiveIds(m'.jobs) == ActiveIds(w.m.jobs) - {id} && m'.queue == w.m.queue && id in ActiveIds(w.m.jobs) by {
      HeldIsActive(w, i, id);
      FinishFacts(w.m, id, status, error);
    }
    InFlightUpdate(w.workers, i, Idle);
    RemovedIsPlaced(multiset(w.m.queue), InFlight(w.workers), ActiveIds(w.m.jobs), id);
  }

  lemma {:induction false} FinishKeepsLaunchedOnce(w: World, i: nat, id: string, status: JobStatus, error: string)
    requires Inv(w) && IsActive(w.m.jobs, id) && i < |w.workers| && IsTerminal(status)
    ensures LaunchedOnce(w.(m := Finish(w.m, id, status, error), workers := w.workers[i := Idle]))
  {
    var jobs' := Finish(w.m, id, status, error).jobs;
    assert forall x :: x in jobs' ==> x in w.m.jobs && jobs'[x] == Settle(w.m, id, status, error).jobs[x] by {
      FinishFacts(w.m, id, status, error);
    }
    forall x | HasStatus(jobs', x, Queued) ensures HasStatus(w.m.jobs, x, Queued) {
    }
  }

  lemma {:induction false} FinishKeepsBounds(w: World, i: nat, id: string, status: JobStatus, error: string)
    requires Inv(w) && IsActive(w.m.jobs, id) && i < |w.workers| && IsTerminal(status)
    ensures var w' := w.(m := Finish(w.m, id, status, error), workers := w.workers[i := Idle]);
            Keyed(w') && Bounded(w') && ExitsAreFinal(w') && OrderMatches(w'.m)
  {
    var w' := w.(m := Finish(w.m, id, status, error), workers := w.workers[i := Idle]);
    assert Bounded(w') && OrderMatches(w'.m) && KeysFollowJobs(w.m, w'.m) && w'.m.jobs.Keys <= w.m.jobs.Keys &&
           w'.m.queue == w.m.queue && w'.m.shuttingDown == w.m.shuttingDown &&
           forall x :: x in w'.m.jobs ==> w'.m.jobs[x].id == w.m.jobs[x].id by {
      FinishFacts(w.m, id, status, error);
    }
    assert ExitsAreFinal(w') by {
      ExitsStayFinal(w, w', i, Idle);
    }
  }

  lemma {:induction false} FinishKeepsInv(w: World, i: nat, id: string, status: JobStatus, error: string)
    requires Inv(w) && i < |w.workers| && Held(w.workers[i]) == multiset{id} && IsTerminal(status)
    ensures Inv(w.(m := Finish(w.m, id, status, error), workers := w.workers[i := Idle]))
  {
    var w' := w.(m := Finish(w.m, id, status, error), workers := w.workers[i := Idle]);
    HeldIsActive(w, i, id);
    assert ActiveExact(w'.m.jobs, w'.m.active) by {
      var m1 := Settle(w.m, id, status, error);
      SettleKeepsActiveExact(w.m, id, status, error);
      SettleLeaves(w.m, id, status, error);
      FinishFacts(w.m, id, status, error);
      FewerCompletedKeepsActiveExact(m1.jobs, w'.m.jobs, m1.active);
    }
    FinishKeepsStatusesFit(w, i, id, status, error);
    FinishKeepsPlacedOnce(w, i, id, status, error);
    FinishKeepsLaunchedOnce(w, i, id, status, error);
    FinishKeepsBounds(w, i, id, status, error);
  }

  // ---- A job is submitted ----

  /** With an exact fingerprint index the branch of Submit that drops a stale fingerprint is never taken. */
  lemma {:induction false} NoStaleFingerprint(m: Shared, fingerprint: string)
    requires ActiveExact(m.jobs, m.active)
    ensures WithoutStale(m.jobs, m.active, fingerprint) == m.active
    ensures Kept(m.jobs, m.active, fingerprint).None? && fingerprint != "" ==> fingerprint !in m.active
  {
  }

  /** What an accepted new job adds, and that a rejection or a reuse adds nothing. */
  lemma {:induction false} SubmitFacts(m: Shared, given: TaskSpec, id: string)
    requires ActiveExact(m.jobs, m.active)
    ensures var r, spec := Submit(m, given, id), Trimmed(given);
            var isNew := r.outcome.Success? && !r.outcome.value.reused;
            if isNew then
              |m.queue| < m.opts.queueSize && !m.shuttingDown &&
              (spec.fingerprint != "" ==> spec.fingerprint !in m.active) &&
              r.shared == m.(jobs := m.jobs[id := NewJob(spec, id)], order := m.order + [id], keys := r.shared.keys,
                             active := Remember(m.active, spec.fingerprint, id), queue := m.queue + [id])
            else r.shared == m.(keys := r.shared.keys)
    ensures var r := Submit(m, given, id);
            forall k :: k in r.shared.keys ==> r.shared.keys[k] == id || r.shared.keys[k] in m.jobs ||
                                               (k in m.keys && r.shared.keys[k] == m.keys[k])
    ensures var r := Submit(m, given, id);
            forall k :: k in m.keys && m.keys[k] in m.jobs ==> k in r.shared.keys && r.shared.keys[k] == m.keys[k]
  {
    NoStaleFingerprint(m, Trimmed(given).fingerprint);
  }

  lemma {:induction false} AppendKeepsOrderMatches(m: Shared, job: Job, m': Shared)
    requires OrderMatches(m) && job.id !in m.jobs
    requires m'.jobs == m.jobs[job.id := job] && m'.order == m.order + [job.id]
    ensures OrderMatches(m')
  {
    assert job.id !in Elements(m.order);
    ElementsSnoc(m.order, job.id);
    assert forall i :: 0 <= i < |m.order| ==> m.order[i] in Elements(m.order);
  }

  lemma {:induction false} NewJobKeepsActiveExact(jobs: map<string, Job>, active: map<string, string>, job: Job)
    requires ActiveExact(jobs, active) && job.id !in jobs && job.status == Queued
    requires job.fingerprint != "" ==> job.fingerprint !in active
    ensures ActiveExact(jobs[job.id := job], Remember(active, job.fingerprint, job.id))
  {
    var jobs' := jobs[job.id := job];
    forall x | IsActive(jobs', x) && x != job.id ensures IsActive(jobs, x) {
    }
  }

  lemma {:induction false} EnqueuedIsPlaced(w: World, w': World, id: string)
    requires PlacedOnce(w) && id !in w.m.jobs && w'.m.queue == w.m.queue + [id] && w'.workers == w.workers
    requires ActiveIds(w'.m.jobs) == ActiveIds(w.m.jobs) + {id}
    ensures PlacedOnce(w')
  {
    assert multiset(ActiveIds(w.m.jobs) + {id}) == multiset(ActiveIds(w.m.jobs)) + multiset{id};
  }

  lemma {:induction false} SubmitKeepsInv(w: World, spec: TaskSpec, id: string)
    requires Inv(w) && Allowed(w, SubmitTask(spec, id))
    ensures Inv(Step(w, SubmitTask(spec, id)))
  {
    var w' := Step(w, SubmitTask(spec, id));
    SubmitFacts(w.m, spec, id);
    assert id !in w.m.jobs;
    if id in w'.m.jobs {
      NewJobKeepsInv(w, w', NewJob(Trimmed(spec), id));
    }
  }

  lemma {:induction false} NewJobKeepsInv(w: World, w': World, job: Job)
    requires Inv(w) && job.id !in w.issued && job.status == Queued && |w.m.queue| < w.m.opts.queueSize
    requires (job.fingerprint != "" ==> job.fingerprint !in w.m.active) && !w.m.shuttingDown
    requires w'.m == w.m.(jobs := w.m.jobs[job.id := job], order := w.m.order + [job.id], keys := w'.m.keys,
                          active := Remember(w.m.active, job.fingerprint, job.id), queue := w.m.queue + [job.id])
    requires w' == w.(m := w'.m, issued := w.issued + {job.id}) && Keyed(w')
    ensures Inv(w')
  {
    assert ActiveIds(w'.m.jobs) == ActiveIds(w.m.jobs) + {job.id};
    assert job.id !in w.m.jobs;
    AppendKeepsOrderMatches(w.m, job, w'.m);
    NewJobKeepsActiveExact(w.m.jobs, w.m.active, job);
    EnqueuedIsPlaced(w, w', job.id);
    assert StatusesFit(w') by {
      NewJobFits(w.m.jobs, job, w.m.queue, w.workers);
    }
    NewJobKeepsLaunchedOnce(w, w', job);
    assert Bounded(w');
  }

  lemma {:induction false} NewJobKeepsLaunchedOnce(w: World, w': World, job: Job)
    requires LaunchedOnce(w) && job.id !in w.issued && w'.m.jobs == w.m.jobs[job.id := job]
    requires w'.issued == w.issued + {job.id} && w'.launched == w.launched
    ensures LaunchedOnce(w')
  {
    forall x | HasStatus(w'.m.jobs, x, Queued) ensures x !in w'.launched {
      assert x == job.id || HasStatus(w.m.jobs, x, Queued);
    }
  }

  lemma {:induction false} NewJobFits(jobs: map<string, Job>, job: Job, queue: seq<string>, workers: seq<Worker>)
    requires job.id !in jobs && job.status == Queued
    requires forall i :: 0 <= i < |queue| ==> HasStatus(jobs, queue[i], Queued)
    requires AllFit(jobs, workers)
    ensures forall i :: 0 <= i < |queue + [job.id]| ==> HasStatus(jobs[job.id := job], (queue + [job.id])[i], Queued)
    ensures AllFit(jobs[job.id := job], workers)
  {
    forall i | 0 <= i < |workers| ensures WorkerFits(jobs[job.id := job], workers[i]) {
      assert WorkerFits(jobs, workers[i]);
    }
  }

  // ---- Workers move ----

  /** Moving a job from the queue to a worker, or between a worker's states, moves it from one place to another. */
  lemma {:induction false} MovedIsPlaced(w: World, w': World, i: nat, x: Worker)
    requires PlacedOnce(w) && i < |w.workers| && w'.workers == w.workers[i := x]
    requires ActiveIds(w'.m.jobs) == ActiveIds(w.m.jobs)
    requires multiset(w'.m.queue) + Held(x) == multiset(w.m.queue) + Held(w.workers[i])
    ensures PlacedOnce(w')
  {
    InFlightUpdate(w.workers, i, x);
    SamePlaces(multiset(w.m.queue), multiset(w'.m.queue), InFlight(w.workers), Held(w.workers[i]), Held(x));
  }

  lemma {:induction false} SamePlaces(q: multiset<string>, q': multiset<string>, all: multiset<string>,
                                      h: multiset<string>, h': multiset<string>)
    requires q' + h' == q + h && h <= all
    ensures q' + (all - h + h') == q + all
  {
    assert q' + (all - h + h') == (q' + h') + (all - h);
    assert q + all == (q + h) + (all - h);
  }

  lemma {:induction false} WorkersStillFit(jobs: map<string, Job>, workers: seq<Worker>, i: nat, x: Worker)
    requires AllFit(jobs, workers) && i < |workers| && WorkerFits(jobs, x)
    ensures AllFit(jobs, workers[i := x])
  {
  }

  lemma {:induction false} DequeueKeepsStatusesFit(w: World, i: nat)
    requires StatusesFit(w) && Allowed(w, Event.Dequeue(i))
    ensures StatusesFit(Step(w, Event.Dequeue(i)))
  {
    var w' := Step(w, Event.Dequeue(i));
    WorkersStillFit(w.m.jobs, w.workers, i, w'.workers[i]);
    forall k | 0 <= k < |w'.m.queue| ensures HasStatus(w.m.jobs, w'.m.queue[k], Queued) {
      assert w'.m.queue[k] == w.m.queue[k + 1];
    }
  }

  lemma {:induction false} DequeueKeepsInv(w: World, i: nat)
    requires Inv(w) && Allowed(w, Event.Dequeue(i))
    ensures Inv(Step(w, Event.Dequeue(i)))
  {
    var w', id := Step(w, Event.Dequeue(i)), w.m.queue[0];
    assert PlacedOnce(w') by {
      assert w.m.queue == [id] + w.m.queue[1..];
      MovedIsPlaced(w, w', i, Worker.Dequeued(id));
    }
    DequeueKeepsStatusesFit(w, i);
    assert ExitsAreFinal(w') by {
      ExitsStayFinal(w, w', i, w'.workers[i]);
    }
  }

  lemma {:induction false} ExitsStayFinal(w: World, w': World, i: nat, x: Worker)
    requires ExitsAreFinal(w) && i < |w.workers| && w'.workers == w.workers[i := x] && !x.Exited?
    requires w'.m.shuttingDown == w.m.shuttingDown
    requires w.m.queue == [] ==> w'.m.queue == []
    ensures ExitsAreFinal(w')
  {
    forall j | 0 <= j < |w'.workers| && w'.workers[j].Exited? ensures w'.m.shuttingDown && w'.m.queue == [] {
      assert w.workers[j].Exited?;
    }
  }

  lemma {:induction false} CheckKeepsInv(w: World, i: nat)
    requires Inv(w) && Allowed(w, Check(i))
    ensures Inv(Step(w, Check(i)))
  {
    var w' := Step(w, Check(i));
    MovedIsPlaced(w, w', i, w'.workers[i]);
    assert StatusesFit(w') by {
      assert WorkerFits(w.m.jobs, w.workers[i]);
      WorkersStillFit(w.m.jobs, w.workers, i, w'.workers[i]);
    }
    assert ExitsAreFinal(w') by {
      ExitsStayFinal(w, w', i, w'.workers[i]);
    }
  }

  lemma {:induction false} RunningKeepsOthers(jobs: map<string, Job>, id: string, x: string, s: JobStatus)
    requires id in jobs && HasStatus(jobs, x, s) && x != id
    ensures HasStatus(jobs[id := jobs[id].(status := Running, started := true, finished := false)], x, s)
  {
  }

  lemma {:induction false} BeginKeepsStatusesFit(w: World, i: nat)
    requires Inv(w) && Allowed(w, Begin(i))
    ensures StatusesFit(Step(w, Begin(i)))
  {
    var w', id := Step(w, Begin(i)), w.workers[i].job;
    HeldIsActive(w, i, id);
    forall k | 0 <= k < |w'.m.queue| ensures HasStatus(w'.m.jobs, w'.m.queue[k], Queued) {
      RunningKeepsOthers(w.m.jobs, id, w.m.queue[k], Queued);
    }
    forall j | 0 <= j < |w'.workers| ensures WorkerFits(w'.m.jobs, w'.workers[j]) {
      assert WorkerFits(w.m.jobs, w.workers[j]);
      if j != i && IsBusy(w.workers[j]) {
        assert w.workers[j].job in Held(w.workers[j]);
      }
    }
  }

  lemma {:induction false} BeginKeepsLaunchedOnce(w: World, i: nat)
    requires Inv(w) && Allowed(w, Begin(i))
    ensures LaunchedOnce(Step(w, Begin(i)))
  {
    var w', id := Step(w, Begin(i)), w.workers[i].job;
    assert WorkerFits(w.m.jobs, w.workers[i]);
    forall x | HasStatus(w'.m.jobs, x, Queued) ensures x !in w'.launched {
      assert HasStatus(w.m.jobs, x, Queued) && x != id;
    }
  }

  lemma {:induction false} BeginKeepsPlacedOnce(w: World, i: nat)
    requires PlacedOnce(w) && Allowed(w, Begin(i)) && IsActive(w.m.jobs, w.workers[i].job)
    ensures PlacedOnce(Step(w, Begin(i))) && ActiveIds(Step(w, Begin(i)).m.jobs) == ActiveIds(w.m.jobs)
  {
    RunningStaysActive(w.m, w.workers[i].job);
    MovedIsPlaced(w, Step(w, Begin(i)), i, Executing(w.workers[i].job));
  }

  lemma {:induction false} RunningStaysActive(m: Shared, id: string)
    requires IsActive(m.jobs, id)
    ensures ActiveIds(StartRunning(m, id).jobs) == ActiveIds(m.jobs)
  {
  }

  lemma {:induction false} BeginKeepsInv(w: World, i: nat)
    requires Inv(w) && Allowed(w, Begin(i))
    ensures Inv(Step(w, Begin(i)))
  {
    var w', id := Step(w, Begin(i)), w.workers[i].job;
    assert IsActive(w.m.jobs, id) by {
      HeldIsActive(w, i, id);
    }
    BeginKeepsStatusesFit(w, i);
    BeginKeepsLaunchedOnce(w, i);
    BeginKeepsPlacedOnce(w, i);
    RunningKeepsActiveExact(w.m.jobs, w.m.active, id);
    assert ExitsAreFinal(w') by {
      ExitsStayFinal(w, w', i, w'.workers[i]);
    }
    BeginKeepsBounds(w, i);
  }

  lemma {:induction false} BeginKeepsBounds(w: World, i: nat)
    requires Keyed(w) && Bounded(w) && OrderMatches(w.m) && Allowed(w, Begin(i)) && IsActive(w.m.jobs, w.workers[i].job)
    ensures var w' := Step(w, Begin(i));
            Keyed(w') && Bounded(w') && OrderMatches(w'.m)
  {
    RunningStaysActive(w.m, w.workers[i].job);
    assert Step(w, Begin(i)).m.jobs.Keys == w.m.jobs.Keys;
    assert |Step(w, Begin(i)).m.jobs| == |Step(w, Begin(i)).m.jobs.Keys| && |w.m.jobs| == |w.m.jobs.Keys|;
  }

  lemma {:induction false} RunningKeepsActiveExact(jobs: map<string, Job>, active: map<string, string>, id: string)
    requires ActiveExact(jobs, active) && IsActive(jobs, id)
    ensures ActiveExact(jobs[id := jobs[id].(status := Running, started := true, finished := false)], active)
  {
    var jobs' := jobs[id := jobs[id].(status := Running, started := true, finished := false)];
    forall x ensures IsActive(jobs', x) <==> IsActive(jobs, x) {
    }
  }

  lemma {:induction false} ExitKeepsInv(w: World, i: nat)
    requires Inv(w) && Allowed(w, Exit(i))
    ensures Inv(Step(w, Exit(i)))
  {
    MovedIsPlaced(w, Step(w, Exit(i)), i, Exited);
    WorkersStillFit(w.m.jobs, w.workers, i, Exited);
  }

  lemma {:induction false} StartKeepsInv(w: World)
    requires Inv(w) && Allowed(w, Start)
    ensures Inv(Step(w, Start))
  {
    IdleHoldNothing(Step(w, Start).workers);
  }

  lemma {:induction false} RecordKeepsInv(w: World, i: nat, verdict: Verdict)
    requires Inv(w) && i < |w.workers| && (w.workers[i].Doomed? || w.workers[i].Executing?)
    ensures Inv(w.(m := Record(w.m, w.workers[i].job, verdict), workers := w.workers[i := Idle]))
  {
    var id := w.workers[i].job;
    assert Held(w.workers[i]) == multiset{id};
    match verdict
    case Done => FinishKeepsInv(w, i, id, Succeeded, "");
    case Erred(message) => FinishKeepsInv(w, i, id, Failed, message);
    case Aborted => FinishKeepsInv(w, i, id, Canceled, CONTEXT_CANCELED);
  }

  lemma {:induction false} FlagsKeepInv(w: World, shuttingDown: bool, canceled: bool)
    requires Inv(w) && (w.m.shuttingDown ==> shuttingDown)
    ensures Inv(w.(m := w.m.(shuttingDown := shuttingDown), canceled := canceled))
  {
    var w' := w.(m := w.m.(shuttingDown := shuttingDown), canceled := canceled);
    assert Places(w') == Places(w);
  }

  // ---- Every event ----

  lemma {:induction false} NewWorldSatisfiesInv(o: Options)
    ensures Inv(NewWorld(o))
  {
  }

  /** Each mutex section and each worker step, whatever came before, keeps the invariant. */
  lemma {:induction false} StepKeepsInv(w: World, e: Event)
    requires Inv(w) && Allowed(w, e)
    ensures Inv(Step(w, e))
  {
    match e
    case Start => StartKeepsInv(w);
    case SubmitTask(spec, id) => SubmitKeepsInv(w, spec, id);
    case Dequeue(i) => DequeueKeepsInv(w, i);
    case Check(i) => CheckKeepsInv(w, i);
    case Discard(i) => RecordKeepsInv(w, i, Aborted);
    case Begin(i) => BeginKeepsInv(w, i);
    case Complete(i, verdict) => RecordKeepsInv(w, i, verdict);
    case Exit(i) => ExitKeepsInv(w, i);
    case Shutdown => FlagsKeepInv(w, true, w.canceled);
    case CancelContext => FlagsKeepInv(w, w.m.shuttingDown, true);
  }
}

/** The job manager's shared state and what each of its mutex sections does to it. */
module JobState {
  import opened Prelude
  import Text

  datatype Options = Options(workers: int, queueSize: int, historyLimit: int)

  function Normalized(o: Options): (r: Options)
    ensures r.workers > 0 && r.queueSize > 0 && r.historyLimit > 0
    ensures r.workers == (if o.workers > 0 then o.workers else 2)
    ensures r.queueSize == (if o.queueSize > 0 then o.queueSize else 128)
    ensures r.historyLimit == (if o.historyLimit > 0 then o.historyLimit else 1000)
  {
    Options(if o.workers <= 0 then 2 else o.workers, if o.queueSize <= 0 then 128 else o.queueSize,
            if o.historyLimit <= 0 then 1000 else o.historyLimit)
  }

  datatype JobStatus = Queued | Running | Succeeded | Failed | Canceled

  const CONTEXT_CANCELED := "context canceled"

  predicate IsTerminal(s: JobStatus) {
    s.Succeeded? || s.Failed? || s.Canceled?
  }

  /** `started` and `finished` say whether the timestamps are present. */
  datatype Job = Job(id: string, status: JobStatus, key: string, fingerprint: string, error: string, started: bool,
                     finished: bool)

  datatype TaskSpec = TaskSpec(key: string, fingerprint: string)

  datatype Shared = Shared(
    opts: Options,
    jobs: map<string, Job>,
    order: seq<string>,
    keys: map<string, string>,
    active: map<string, string>,
    queue: seq<string>,
    shuttingDown: bool)

  // ---- Submit ----

  datatype Submission = Submission(job: Job, reused: bool)

  datatype Submitted = Submitted(shared: Shared, outcome: Outcome<Submission>)

  /** A new job was accepted. */
  predicate Created(r: Submitted) {
    r.outcome.Success? && !r.outcome.value.reused
  }

  function Trimmed(spec: TaskSpec): TaskSpec {
    TaskSpec(Text.TrimSpace(spec.key), Text.TrimSpace(spec.fingerprint))
  }

  /** The job an index names, if it is still kept. */
  function Kept(jobs: map<string, Job>, index: map<string, string>, k: string): Option<Job> {
    if k != "" && k in index && index[k] in jobs then Some(jobs[index[k]]) else None
  }

  /** An index entry whose job is gone is dropped when it is met. */
  function WithoutStale(jobs: map<string, Job>, index: map<string, string>, k: string): map<string, string> {
    if k != "" && k in index && index[k] !in jobs then index - {k} else index
  }

  function Remember(index: map<string, string>, k: string, id: string): map<string, string> {
    if k == "" then index else index[k := id]
  }

  function NewJob(spec: TaskSpec, id: string): Job {
    Job(id, Queued, spec.key, spec.fingerprint, "", false, false)
  }

  function Enqueue(m: Shared, spec: TaskSpec, id: string): Submitted {
    if |m.queue| >= m.opts.queueSize then Submitted(m, Failure(QueueFull))
    else
      Submitted(m.(jobs := m.jobs[id := NewJob(spec, id)], order := m.order + [id],
                   keys := Remember(m.keys, spec.key, id),
                   active := Remember(m.active, spec.fingerprint, id), queue := m.queue + [id]),
                Success(Submission(NewJob(spec, id), false)))
  }

  /** `id` is the identifier a new job would get. */
  function Submit(m: Shared, given: TaskSpec, id: string): Submitted {
    var spec := Trimmed(given);
    if m.shuttingDown then Submitted(m, Failure(ShuttingDown))
    else
      match Kept(m.jobs, m.keys, spec.key)
      case Some(job) => Submitted(m, Success(Submission(job, true)))
      case None =>
        var m1 := m.(keys := WithoutStale(m.jobs, m.keys, spec.key));
        match Kept(m1.jobs, m1.active, spec.fingerprint)
        case Some(job) =>
          Submitted(m1.(keys := Remember(m1.keys, spec.key, m1.active[spec.fingerprint])),
                    Success(Submission(job, true)))
        case None => Enqueue(m1.(active := WithoutStale(m1.jobs, m1.active, spec.fingerprint)), spec, id)
  }

  // ---- Starting and finishing ----

  function StartRunning(m: Shared, id: string): Shared {
    if id !in m.jobs then m
    else m.(jobs := m.jobs[id := m.jobs[id].(status := Running, started := true, finished := false)])
  }

  function Released(active: map<string, string>, job: Job): map<string, string> {
    if job.fingerprint != "" && job.fingerprint in active && active[job.fingerprint] == job.id
    then active - {job.fingerprint} else active
  }

  function Settle(m: Shared, id: string, status: JobStatus, error: string): Shared
    requires id in m.jobs
  {
    var job := m.jobs[id].(status := status, error := error, finished := true);
    m.(jobs := m.jobs[id := job], active := Released(m.active, job))
  }

  function Finish(m: Shared, id: string, status: JobStatus, error: string): Shared {
    if id !in m.jobs then m else Trim(Settle(m, id, status, error))
  }

  // ---- Trimming the history ----

  /** A job that already completed and may be dropped. */
  predicate Droppable(jobs: map<string, Job>, id: string) {
    id in jobs && IsTerminal(jobs[id].status)
  }

  /** Where the oldest completed job stands, or the end of the list. */
  function FirstDroppable(order: seq<string>, jobs: map<string, Job>): (i: nat)
    ensures i <= |order| && (i < |order| ==> Droppable(jobs, order[i]))
    ensures forall k :: 0 <= k < i ==> !Droppable(jobs, order[k])
  {
    if order == [] || Droppable(jobs, order[0]) then 0 else 1 + FirstDroppable(order[1..], jobs)
  }

  function ForgetKey(keys: map<string, string>, k: string, id: string): map<string, string> {
    if k != "" && k in keys && keys[k] == id then keys - {k} else keys
  }

  function DropAt(m: Shared, i: nat): Shared
    requires i < |m.order| && m.order[i] in m.jobs
  {
    var id := m.order[i];
    m.(jobs := m.jobs - {id}, keys := ForgetKey(m.keys, m.jobs[id].key, id), order := m.order[..i] + m.order[i + 1..])
  }

  function Trim(m: Shared): Shared
    decreases |m.order|
  {
    if |m.jobs| <= m.opts.historyLimit then m
    else
      var i := FirstDroppable(m.order, m.jobs);
      if i == |m.order| then m else Trim(DropAt(m, i))
  }
}

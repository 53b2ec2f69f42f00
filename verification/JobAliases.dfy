/** Idempotency keys that outlive their job: second names given through a fingerprint match are not removed by trimming.
    */
module JobAliases {
  import opened Prelude
  import opened JobState
  import opened JobHistory
  import opened JobSystem
  import Text

  // ---- Which keys trimming leaves behind ----

  predicate Dangles(m: Shared, k: string) {
    k in m.keys && m.keys[k] !in m.jobs
  }

  lemma {:induction false} DropKeepsKeyIff(m: Shared, i: nat, k: string)
    requires i < |m.order| && m.order[i] in m.jobs && k != ""
    ensures k in DropAt(m, i).keys <==> k in m.keys && !(m.keys[k] == m.order[i] && m.jobs[m.order[i]].key == k)
    ensures k in DropAt(m, i).keys ==> DropAt(m, i).keys[k] == m.keys[k]
  {
  }

  lemma {:induction false} TrimKeepsKeyIff(m: Shared, k: string)
    requires OrderMatches(m) && k != ""
    ensures k in Trim(m).keys <==>
              k in m.keys && (m.keys[k] !in m.jobs || m.keys[k] in Trim(m).jobs || m.jobs[m.keys[k]].key != k)
    ensures k in Trim(m).keys ==> Trim(m).keys[k] == m.keys[k]
    decreases |m.order|
  {
    var i := FirstDroppable(m.order, m.jobs);
    if |m.jobs| > m.opts.historyLimit && i < |m.order| {
      var m' := DropAt(m, i);
      assert OrderMatches(m') && m.order[i] !in m'.jobs by {
        DropKeepsOrderMatches(m, i);
      }
      assert m.order[i] !in Trim(m').jobs by {
        TrimIsOnePass(m');
      }
      DropKeepsKeyIff(m, i, k);
      TrimKeepsKeyIff(m', k);
    }
  }

  /** Trimming will drop the i-th job: it is completed, and fewer completed jobs are older than there are jobs to drop.
      */
  predicate WillGo(m: Shared, i: nat)
    requires i < |m.order|
  {
    Droppable(m.jobs, m.order[i]) && CountDroppable(m.order[..i], m.jobs) < Excess(m)
  }

  /** Trimming drops exactly these jobs. */
  lemma {:induction false} TrimDropsIff(m: Shared, i: nat)
    requires OrderMatches(m) && i < |m.order|
    ensures m.order[i] in Trim(m).jobs <==> !WillGo(m, i)
  {
    TrimIsOnePass(m);
    DropOldestKeeps(m.order, m.jobs, Excess(m), i);
    assert m.order[i] in Trim(m).jobs <==> m.order[i] in Elements(Trim(m).order);
  }

  lemma {:induction false} ListedAt(m: Shared, id: string) returns (i: nat)
    requires OrderMatches(m) && id in m.jobs
    ensures i < |m.order| && m.order[i] == id
  {
    assert id in Elements(m.order);
    i :| 0 <= i < |m.order| && m.order[i] == id;
  }

  /** After trimming a key names a job that is gone exactly if it did before, or if it is a second name of one of the
      oldest completed jobs, as many of them as the history is too long by. */
  lemma {:induction false} DanglesAfterTrimIff(m: Shared, k: string)
    requires OrderMatches(m) && k != ""
    ensures Dangles(Trim(m), k) <==>
              Dangles(m, k) ||
              (k in m.keys && m.keys[k] in m.jobs && m.jobs[m.keys[k]].key != k &&
               exists i: nat :: i < |m.order| && m.order[i] == m.keys[k] && WillGo(m, i))
  {
    TrimKeepsKeyIff(m, k);
    assert forall id :: id in Trim(m).jobs ==> id in m.jobs by {
      TrimIsOnePass(m);
    }
    if k in m.keys && m.keys[k] in m.jobs {
      var i := ListedAt(m, m.keys[k]);
      TrimDropsIff(m, i);
      forall j: nat | j < |m.order| && m.order[j] == m.keys[k] ensures j == i {
      }
    }
  }

  // ---- There is no bound on them ----

  function Numbered(i: nat): string {
    Text.FormatInt(i)
  }

  lemma {:induction false} NumbersDiffer(i: nat, j: nat)
    ensures Numbered(i) == Numbered(j) ==> i == j
  {
    Text.ValueOfDigits(i);
    Text.ValueOfDigits(j);
  }

  lemma {:induction false} NumbersAreTrimmed(i: nat)
    ensures Text.TrimSpace(Numbered(i)) == Numbered(i) != "" && Numbered(i) != "plain"
  {
    Text.FormatHasNoSpace(i);
    assert Text.IsDigit(Numbered(i)[0]) && !Text.IsDigit("plain"[0]);
  }

  /** The same task submitted again and again, each time under a new key. */
  function Resubmit(i: nat): Event {
    SubmitTask(TaskSpec(Numbered(i), "f"), Numbered(i))
  }

  function Resubmissions(n: nat): seq<Event> {
    if n == 0 then [Resubmit(0)] else Resubmissions(n - 1) + [Resubmit(n)]
  }

  function Index(n: nat): map<string, string> {
    if n == 0 then map[Numbered(0) := Numbered(0)] else Index(n - 1)[Numbered(n) := Numbered(0)]
  }

  function TheJob(): Job {
    NewJob(TaskSpec(Numbered(0), "f"), Numbered(0))
  }

  const SMALLEST := Options(1, 1, 1)

  function Resubmitted(n: nat): World {
    World(Shared(SMALLEST, map[Numbered(0) := TheJob()], [Numbered(0)], Index(n), map["f" := Numbered(0)],
                 [Numbered(0)], false), [], false, {Numbered(0)}, [])
  }

  lemma {:induction false} IndexHolds(n: nat, i: nat)
    ensures Numbered(i) in Index(n) <==> i <= n
    ensures i <= n ==> Index(n)[Numbered(i)] == Numbered(0)
  {
    NumbersDiffer(i, n);
    if n > 0 {
      IndexHolds(n - 1, i);
    }
  }

  lemma {:induction false} IndexSize(n: nat)
    ensures |Index(n)| == n + 1
  {
    if n > 0 {
      IndexSize(n - 1);
      IndexHolds(n - 1, n);
    }
  }

  lemma {:induction false} FIsTrimmed()
    ensures Text.TrimSpace("f") == "f" && Text.TrimSpace("") == ""
  {
  }

  lemma {:induction false} FirstSubmission()
    ensures Allowed(NewWorld(SMALLEST), Resubmit(0)) && Step(NewWorld(SMALLEST), Resubmit(0)) == Resubmitted(0)
  {
    NumbersAreTrimmed(0);
    FIsTrimmed();
    assert Submit(NewWorld(SMALLEST).m, TaskSpec(Numbered(0), "f"), Numbered(0)).shared == Resubmitted(0).m;
  }

  lemma {:induction false} NextSubmission(n: nat)
    requires n > 0
    ensures Allowed(Resubmitted(n - 1), Resubmit(n)) && Step(Resubmitted(n - 1), Resubmit(n)) == Resubmitted(n)
  {
    NumbersAreTrimmed(n);
    FIsTrimmed();
    NumbersDiffer(n, 0);
    IndexHolds(n - 1, n);
    assert Submit(Resubmitted(n - 1).m, TaskSpec(Numbered(n), "f"), Numbered(n)).shared == Resubmitted(n).m;
  }

  lemma {:induction false} ResubmittedIs(n: nat)
    ensures Leads(NewWorld(SMALLEST), Resubmissions(n), Resubmitted(n))
  {
    var w := NewWorld(SMALLEST);
    if n == 0 {
      FirstSubmission();
      assert Leads(w, [], w);
      LeadsOn(w, [], w, Resubmit(0));
      assert [] + [Resubmit(0)] == Resubmissions(0);
    } else {
      ResubmittedIs(n - 1);
      NextSubmission(n);
      LeadsOn(w, Resubmissions(n - 1), Resubmitted(n - 1), Resubmit(n));
    }
  }

  // ---- The job completes and is trimmed ----

  /** The one worker takes the one queued job and runs it. */
  function RunTheQueue(): seq<Event> {
    [Dequeue(0), Check(0), Begin(0), Complete(0, Done)]
  }

  function AfterQueue(w: World): World
    requires w.m.queue != [] && w.workers == [Idle] && !w.canceled
  {
    var id := w.m.queue[0];
    w.(m := Finish(JobState.StartRunning(w.m.(queue := w.m.queue[1..]), id), id, Succeeded, ""),
       launched := w.launched + [id])
  }

  lemma {:induction false} LeadsOn(w: World, events: seq<Event>, w': World, e: Event)
    requires Leads(w, events, w') && Allowed(w', e)
    ensures Leads(w, events + [e], Step(w', e))
  {
    assert (events + [e])[..|events|] == events;
  }

  lemma {:induction false} QueueIsRun(w: World, events: seq<Event>, w0: World)
    requires Leads(w0, events, w) && w.m.queue != [] && w.workers == [Idle] && !w.canceled
    ensures Leads(w0, events + RunTheQueue(), AfterQueue(w))
  {
    var id := w.m.queue[0];
    var w1 := Step(w, Dequeue(0));
    assert w1.workers == [Dequeued(id)];
    var w2 := Step(w1, Check(0));
    assert w2.workers == [Cleared(id)];
    var w3 := Step(w2, Begin(0));
    assert w3.workers == [Executing(id)];
    var w4 := Step(w3, Complete(0, Done));
    assert w4.workers == [Idle] && w4 == AfterQueue(w);
    LeadsOn(w0, events, w, Dequeue(0));
    LeadsOn(w0, events + [Dequeue(0)], w1, Check(0));
    LeadsOn(w0, events + [Dequeue(0)] + [Check(0)], w2, Begin(0));
    LeadsOn(w0, events + [Dequeue(0)] + [Check(0)] + [Begin(0)], w3, Complete(0, Done));
    assert events + RunTheQueue() ==
           events + [Dequeue(0)] + [Check(0)] + [Begin(0)] + [Complete(0, Done)];
  }

  /** A second, plain job pushes the first one out of the history. */
  function Plain(): Event {
    SubmitTask(TaskSpec("", ""), "plain")
  }

  function Finished(job: Job): Job {
    job.(status := Succeeded, error := "", started := true, finished := true)
  }

  /** The first job is done. */
  function FirstDone(n: nat): World {
    World(Shared(SMALLEST, map[Numbered(0) := Finished(TheJob())], [Numbered(0)], Index(n), map[], [], false),
          [Idle], false, {Numbered(0)}, [Numbered(0)])
  }

  /** The manager is started. */
  function Started(n: nat): World {
    Resubmitted(n).(workers := [Idle])
  }

  lemma {:induction false} StartedIs(n: nat)
    ensures Allowed(Resubmitted(n), Start) && Step(Resubmitted(n), Start) == Started(n)
  {
    assert seq(Max(0, 1), i => Idle) == [Idle];
  }

  lemma {:induction false} FirstRuns(n: nat)
    ensures AfterQueue(Started(n)) == FirstDone(n)
  {
    var m := Started(n).m;
    assert m.queue[1..] == [] && m.active - {"f"} == map[];
    assert Trim(FirstDone(n).m) == FirstDone(n).m;
    assert Settle(JobState.StartRunning(m.(queue := []), Numbered(0)), Numbered(0), Succeeded, "") == FirstDone(n).m;
  }

  lemma {:induction false} FirstDoneIs(n: nat)
    ensures Leads(NewWorld(SMALLEST), Resubmissions(n) + [Start] + RunTheQueue(), FirstDone(n))
  {
    ResubmittedIs(n);
    StartedIs(n);
    LeadsOn(NewWorld(SMALLEST), Resubmissions(n), Resubmitted(n), Start);
    QueueIsRun(Started(n), Resubmissions(n) + [Start], NewWorld(SMALLEST));
    FirstRuns(n);
  }

  /** The plain job is done too, and the history has room for one. */
  function BothDone(n: nat): Shared {
    Shared(SMALLEST, map[Numbered(0) := Finished(TheJob()), "plain" := Finished(NewJob(TaskSpec("", ""), "plain"))],
           [Numbered(0), "plain"], Index(n), map[], [], false)
  }

  lemma {:induction false} OldestIsTrimmed(n: nat)
    ensures Trim(BothDone(n)) ==
              BothDone(n).(jobs := map["plain" := Finished(NewJob(TaskSpec("", ""), "plain"))], order := ["plain"],
                           keys := Index(n) - {Numbered(0)})
  {
    NumbersAreTrimmed(0);
    IndexHolds(n, 0);
    var m := BothDone(n);
    assert Droppable(m.jobs, m.order[0]) && FirstDroppable(m.order, m.jobs) == 0;
    assert m.jobs - {Numbered(0)} == map["plain" := Finished(NewJob(TaskSpec("", ""), "plain"))];
    assert |m.jobs| == 2;
    assert m.order[..0] + m.order[1..] == ["plain"];
    assert Trim(m) == Trim(DropAt(m, 0));
  }

  /** The plain job waits. */
  function PlainWaits(n: nat): World {
    var m := FirstDone(n).m;
    FirstDone(n).(m := m.(jobs := m.jobs["plain" := NewJob(TaskSpec("", ""), "plain")], order := [Numbered(0), "plain"],
                          queue := ["plain"]),
                  issued := {Numbered(0)} + {"plain"})
  }

  lemma {:induction false} PlainWaitsIs(n: nat)
    ensures Allowed(FirstDone(n), Plain()) && Step(FirstDone(n), Plain()) == PlainWaits(n)
  {
    NumbersAreTrimmed(0);
    FIsTrimmed();
    assert [Numbered(0)] + ["plain"] == [Numbered(0), "plain"];
  }

  lemma {:induction false} PlainRuns(n: nat)
    ensures AfterQueue(PlainWaits(n)).m == Trim(BothDone(n))
  {
    NumbersAreTrimmed(0);
    var m := PlainWaits(n).m;
    assert m.queue[1..] == [];
    assert Settle(JobState.StartRunning(m.(queue := []), "plain"), "plain", Succeeded, "") == BothDone(n);
  }

  lemma {:induction false} EveryKeyDangles(n: nat)
    ensures var keys := Index(n) - {Numbered(0)};
            |keys| == n && forall k :: k in keys ==> keys[k] == Numbered(0)
  {
    IndexSize(n);
    IndexHolds(n, 0);
    assert (Index(n) - {Numbered(0)}).Keys == Index(n).Keys - {Numbered(0)};
    assert |Index(n) - {Numbered(0)}| == |(Index(n) - {Numbered(0)}).Keys| && |Index(n)| == |Index(n).Keys|;
    forall k | k in Index(n) ensures Index(n)[k] == Numbered(0) {
      IndexValues(n, k);
    }
  }

  /** For every n there is a run of the smallest manager after which one completed job is kept, nothing is queued or
      running, and the index still holds n keys, all of them naming a job that is gone. */
  lemma {:induction false} DanglingKeysAreUnbounded(n: nat) returns (events: seq<Event>, w: World)
    ensures Leads(NewWorld(SMALLEST), events, w)
    ensures |w.m.jobs| == 1 && w.m.queue == [] && w.m.active == map[] && w.workers == [Idle]
    ensures |w.m.keys| == n && forall k :: k in w.m.keys ==> Dangles(w.m, k)
  {
    var before := Resubmissions(n) + [Start] + RunTheQueue();
    FirstDoneIs(n);
    PlainWaitsIs(n);
    LeadsOn(NewWorld(SMALLEST), before, FirstDone(n), Plain());
    QueueIsRun(PlainWaits(n), before + [Plain()], NewWorld(SMALLEST));
    events, w := before + [Plain()] + RunTheQueue(), AfterQueue(PlainWaits(n));
    PlainRuns(n);
    OldestIsTrimmed(n);
    EveryKeyDangles(n);
    NumbersAreTrimmed(0);
  }

  lemma {:induction false} IndexValues(n: nat, k: string)
    requires k in Index(n)
    ensures Index(n)[k] == Numbered(0)
  {
    if n > 0 && k != Numbered(n) {
      IndexValues(n - 1, k);
    }
  }
}

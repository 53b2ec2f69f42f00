/** What trimming the job history removes: the loop that drops one job at a time against a single pass. */
module JobHistory {
  import opened Prelude
  import opened JobState

  /** The order list names every kept job once. */
  ghost predicate OrderMatches(m: Shared) {
    NoDuplicates(m.order) && Elements(m.order) == m.jobs.Keys
  }

  function CountDroppable(order: seq<string>, jobs: map<string, Job>): nat {
    if order == [] then 0
    else CountDroppable(order[..|order| - 1], jobs) + if Droppable(jobs, order[|order| - 1]) then 1 else 0
  }

  /** One pass from the oldest job: the first `k` completed jobs go, everything else stays in place. */
  function DropOldest(order: seq<string>, jobs: map<string, Job>, k: nat): seq<string> {
    if order == [] then []
    else if k > 0 && Droppable(jobs, order[0]) then DropOldest(order[1..], jobs, k - 1)
    else [order[0]] + DropOldest(order[1..], jobs, k)
  }

  /** How many jobs trimming removes. */
  function Excess(m: Shared): nat {
    Max(0, Min(CountDroppable(m.order, m.jobs), |m.jobs| - m.opts.historyLimit))
  }

  // ---- The single pass ----

  lemma {:induction false} CountFront(order: seq<string>, jobs: map<string, Job>)
    requires order != []
    ensures CountDroppable(order, jobs) ==
              (if Droppable(jobs, order[0]) then 1 else 0) + CountDroppable(order[1..], jobs)
  {
    var n := |order| - 1;
    if n == 0 {
      assert order[..0] == [] && order[1..] == [];
    } else {
      CountFront(order[..n], jobs);
      assert order[1..][..n - 1] == order[..n][1..] && order[1..][n - 1] == order[n];
    }
  }

  /** A job is dropped exactly when it is completed and fewer than `k` completed jobs are older. */
  lemma {:induction false} DropOldestKeeps(order: seq<string>, jobs: map<string, Job>, k: nat, i: nat)
    requires NoDuplicates(order) && i < |order|
    ensures order[i] in DropOldest(order, jobs, k) <==>
              !Droppable(jobs, order[i]) || CountDroppable(order[..i], jobs) >= k
  {
    var rest := order[1..];
    DropOldestMembers(rest, jobs, k, order[0]);
    if k > 0 {
      DropOldestMembers(rest, jobs, k - 1, order[0]);
    }
    assert order[0] !in rest;
    if i > 0 {
      CountFront(order[..i], jobs);
      assert order[..i][1..] == rest[..i - 1] && order[i] == rest[i - 1];
      DropOldestKeeps(rest, jobs, if k > 0 && Droppable(jobs, order[0]) then k - 1 else k, i - 1);
    }
  }

  lemma {:induction false} DropOldestMembers(order: seq<string>, jobs: map<string, Job>, k: nat, id: string)
    ensures id in DropOldest(order, jobs, k) ==> id in order
    ensures id in order && !Droppable(jobs, id) ==> id in DropOldest(order, jobs, k)
  {
    if order != [] {
      assert order == [order[0]] + order[1..];
      DropOldestMembers(order[1..], jobs, if k > 0 && Droppable(jobs, order[0]) then k - 1 else k, id);
    }
  }

  lemma {:induction false} DropNone(order: seq<string>, jobs: map<string, Job>)
    ensures DropOldest(order, jobs, 0) == order
  {
    if order != [] {
      DropNone(order[1..], jobs);
    }
  }

  /** The pass looks only at which of the listed jobs are completed. */
  lemma {:induction false} DropOldestDependsOn(order: seq<string>, jobs: map<string, Job>, jobs': map<string, Job>,
                                               k: nat)
    requires forall i :: 0 <= i < |order| ==> (Droppable(jobs, order[i]) <==> Droppable(jobs', order[i]))
    ensures DropOldest(order, jobs, k) == DropOldest(order, jobs', k)
    ensures CountDroppable(order, jobs) == CountDroppable(order, jobs')
  {
    if order != [] {
      CountFront(order, jobs);
      CountFront(order, jobs');
      DropOldestDependsOn(order[1..], jobs, jobs', if k > 0 && Droppable(jobs, order[0]) then k - 1 else k);
      DropOldestDependsOn(order[1..], jobs, jobs', k);
    }
  }

  // ---- One turn of the loop ----

  lemma {:induction false} DropFirst(order: seq<string>, jobs: map<string, Job>, k: nat)
    requires k > 0 && FirstDroppable(order, jobs) < |order|
    ensures var i := FirstDroppable(order, jobs);
            DropOldest(order, jobs, k) == DropOldest(order[..i] + order[i + 1..], jobs, k - 1) &&
            CountDroppable(order, jobs) == 1 + CountDroppable(order[..i] + order[i + 1..], jobs)
  {
    var i := FirstDroppable(order, jobs);
    var without := order[..i] + order[i + 1..];
    CountFront(order, jobs);
    if i == 0 {
      assert without == order[1..];
    } else {
      var rest := order[1..];
      DropFirst(rest, jobs, k);
      assert without[0] == order[0] && without[1..] == rest[..i - 1] + rest[i..];
      CountFront(without, jobs);
    }
  }

  lemma {:induction false} NoneDroppable(order: seq<string>, jobs: map<string, Job>)
    requires FirstDroppable(order, jobs) == |order|
    ensures CountDroppable(order, jobs) == 0
  {
    if order != [] {
      CountFront(order, jobs);
      NoneDroppable(order[1..], jobs);
    }
  }

  lemma {:induction false} SomeDroppable(order: seq<string>, jobs: map<string, Job>)
    requires FirstDroppable(order, jobs) < |order|
    ensures CountDroppable(order, jobs) > 0
  {
    DropFirst(order, jobs, 1);
  }

  lemma {:induction false} DropKeepsOrderMatches(m: Shared, i: nat)
    requires OrderMatches(m) && i < |m.order|
    ensures m.order[i] in m.jobs && OrderMatches(DropAt(m, i))
    ensures |DropAt(m, i).jobs| == |m.jobs| - 1
  {
    var id := m.order[i];
    assert id in Elements(m.order);
    RemovedAt(m.order, i);
    assert (m.jobs - {id}).Keys == m.jobs.Keys - {id};
    assert |m.jobs| == |m.jobs.Keys| && |m.jobs - {id}| == |(m.jobs - {id}).Keys|;
  }

  /** Dropping a job changes nothing about the others. */
  lemma {:induction false} OthersStayDroppable(m: Shared, i: nat)
    requires i < |m.order| && m.order[i] in m.jobs && m.order[i] !in m.order[..i] + m.order[i + 1..]
    ensures var m' := DropAt(m, i);
            forall k :: 0 <= k < |m'.order| ==> (Droppable(m.jobs, m'.order[k]) <==> Droppable(m'.jobs, m'.order[k]))
  {
    var m' := DropAt(m, i);
    forall k | 0 <= k < |m'.order| ensures m'.order[k] != m.order[i] {
      assert m'.order[k] in m.order[..i] + m.order[i + 1..];
    }
  }

  lemma {:induction false} DroppedIsGone(m: Shared, i: nat)
    requires OrderMatches(m) && i < |m.order|
    ensures m.order[i] !in m.order[..i] + m.order[i + 1..]
  {
  }

  lemma {:induction false} DropTurn(m: Shared, i: nat)
    requires i == FirstDroppable(m.order, m.jobs) < |m.order| && |m.jobs| > m.opts.historyLimit
    requires m.order[i] !in m.order[..i] + m.order[i + 1..] && |DropAt(m, i).jobs| == |m.jobs| - 1
    ensures var m' := DropAt(m, i);
            Excess(m) == 1 + Excess(m') &&
            DropOldest(m.order, m.jobs, Excess(m)) == DropOldest(m'.order, m'.jobs, Excess(m'))
  {
    var m' := DropAt(m, i);
    OthersStayDroppable(m, i);
    DropOldestDependsOn(m'.order, m.jobs, m'.jobs, Max(0, Excess(m) - 1));
    SomeDroppable(m.order, m.jobs);
    DropFirst(m.order, m.jobs, Excess(m));
  }

  // ---- The loop ----

  /** Trimming one job at a time is the single pass that drops the oldest completed jobs, as many as the history is too
      long by, or all of them if there are fewer. */
  lemma {:induction false} TrimIsOnePass(m: Shared)
    requires OrderMatches(m)
    ensures Trim(m).order == DropOldest(m.order, m.jobs, Excess(m)) && OrderMatches(Trim(m))
    ensures Trim(m) == m.(jobs := Trim(m).jobs, order := Trim(m).order, keys := Trim(m).keys)
    ensures forall id :: id in Trim(m).jobs ==> id in m.jobs && Trim(m).jobs[id] == m.jobs[id]
    ensures |Trim(m).jobs| == |m.jobs| - Excess(m)
    decreases |m.order|
  {
    var i := FirstDroppable(m.order, m.jobs);
    if |m.jobs| <= m.opts.historyLimit {
      DropNone(m.order, m.jobs);
    } else if i == |m.order| {
      NoneDroppable(m.order, m.jobs);
      DropNone(m.order, m.jobs);
    } else {
      DropKeepsOrderMatches(m, i);
      DroppedIsGone(m, i);
      DropTurn(m, i);
      TrimIsOnePass(DropAt(m, i));
    }
  }
}

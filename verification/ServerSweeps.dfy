/** A whole sweep: a bounded pool over servers in which each server's goroutine runs a bounded pool over its log files.
    */
module ServerSweeps {
  import opened Prelude
  import Pools

  /** `files` is how many active log files each server has. `inner[i]` is the log file pool of the i-th launched server,
      or None as long as that server's goroutine has not started one. */
  datatype Sweep = Sweep(files: seq<nat>, innerSize: int, outer: Pools.Pool, inner: seq<Option<Pools.Pool>>)

  /** A server's goroutine starts its log file pool, or is done without one: an inactive or locked server, one in
      backoff, one without log files, or one whose log files could not be listed. It is done with one when that pool
      returned. */
  datatype Event =
    | Outer(e: Pools.Event)
    | Open(i: nat)
    | Inner(i: nat, e: Pools.Event)

  function NewSweep(files: seq<nat>, servers: int, perServer: int): Sweep {
    Sweep(files, perServer, Pools.NewPool(|files|, servers), [])
  }

  predicate IsOpen(w: Sweep, i: nat) {
    i < |w.inner| && w.inner[i].Some?
  }

  predicate Unopened(w: Sweep, i: nat) {
    Pools.IsAt(w.outer, i, Pools.Working) && i < |w.inner| && w.inner[i].None?
  }

  predicate Allowed(w: Sweep, e: Event) {
    match e
    case Outer(o) =>
      Pools.Allowed(w.outer, o) &&
        (o.Record? ==> o.i < |w.inner| && (IsOpen(w, o.i) ==> w.inner[o.i].value.launcher.Returned?))
    case Open(i) => Unopened(w, i) && i < |w.files|
    case Inner(i, o) => IsOpen(w, i) && Pools.Allowed(w.inner[i].value, o) && !o.Cancel?
  }

  /** All pools share one context. */
  function Canceled(inner: seq<Option<Pools.Pool>>): seq<Option<Pools.Pool>> {
    seq(|inner|, i requires 0 <= i < |inner| =>
      if inner[i].None? then None else Some(inner[i].value.(canceled := true)))
  }

  function Step(w: Sweep, e: Event): Sweep
    requires Allowed(w, e)
  {
    match e
    case Outer(o) =>
      w.(outer := Pools.Step(w.outer, o),
         inner := if o.Launch? then w.inner + [None] else if o.Cancel? then Canceled(w.inner) else w.inner)
    case Open(i) =>
      w.(inner := w.inner[i := Some(Pools.NewPool(w.files[i], w.innerSize).(canceled := w.outer.canceled))])
    case Inner(i, o) => w.(inner := w.inner[i := Some(Pools.Step(w.inner[i].value, o))])
  }

  ghost predicate Leads(w: Sweep, events: seq<Event>, w': Sweep)
    decreases |events|
  {
    if events == [] then w' == w
    else
      var n := |events| - 1;
      exists before :: Leads(w, events[..n], before) && Allowed(before, events[n]) && w' == Step(before, events[n])
  }

  // ---- The invariant ----

  ghost predicate InnerFits(w: Sweep, i: nat)
    requires i < |w.inner| == |w.outer.workers| <= |w.files|
  {
    w.inner[i].Some? ==>
      var p := w.inner[i].value;
      Pools.Inv(p) && p.size == Pools.PoolSize(w.innerSize) && p.items == w.files[i] &&
        p.canceled == w.outer.canceled &&
      (!w.outer.workers[i].Working? ==> p.launcher.Returned?)
  }

  ghost predicate Inv(w: Sweep) {
    Pools.Inv(w.outer) && w.outer.items == |w.files| && |w.inner| == |w.outer.workers| &&
    forall i :: 0 <= i < |w.inner| ==> InnerFits(w, i)
  }

  lemma {:induction false} CancelKeepsInner(p: Pools.Pool)
    requires Pools.Inv(p)
    ensures Pools.Inv(p.(canceled := true))
  {
  }

  lemma {:induction false} OuterKeepsInv(w: Sweep, o: Pools.Event)
    requires Inv(w) && Allowed(w, Outer(o))
    ensures Inv(Step(w, Outer(o)))
  {
    var w' := Step(w, Outer(o));
    Pools.StepKeepsInv(w.outer, o);
    forall i | 0 <= i < |w'.inner| ensures InnerFits(w', i) {
      if i < |w.inner| {
        assert InnerFits(w, i);
        if o.Cancel? && w.inner[i].Some? {
          CancelKeepsInner(w.inner[i].value);
        }
      }
    }
  }

  lemma {:induction false} NewPoolSatisfiesInv(items: nat, configured: int, canceled: bool)
    ensures Pools.Inv(Pools.NewPool(items, configured).(canceled := canceled))
  {
  }

  lemma {:induction false} InnerStepKeepsShape(p: Pools.Pool, o: Pools.Event)
    requires Pools.Inv(p) && Pools.Allowed(p, o) && !o.Cancel?
    ensures var p' := Pools.Step(p, o);
            Pools.Inv(p') && p'.size == p.size && p'.items == p.items && p'.canceled == p.canceled &&
            (p.launcher.Returned? ==> p'.launcher.Returned?)
  {
    Pools.StepKeepsInv(p, o);
  }

  lemma {:induction false} InnerKeepsInv(w: Sweep, e: Event)
    requires Inv(w) && Allowed(w, e) && !e.Outer?
    ensures Inv(Step(w, e))
  {
    var w' := Step(w, e);
    assert InnerFits(w, e.i);
    if e.Open? {
      NewPoolSatisfiesInv(w.files[e.i], w.innerSize, w.outer.canceled);
    } else {
      InnerStepKeepsShape(w.inner[e.i].value, e.e);
    }
    forall i | 0 <= i < |w'.inner| ensures InnerFits(w', i) {
      assert InnerFits(w, i);
    }
  }

  lemma {:induction false} StepKeepsInv(w: Sweep, e: Event)
    requires Inv(w) && Allowed(w, e)
    ensures Inv(Step(w, e)) && Step(w, e).files == w.files && Step(w, e).innerSize == w.innerSize
  {
    match e
    case Outer(o) => OuterKeepsInv(w, o);
    case _ => InnerKeepsInv(w, e);
  }

  lemma {:induction false} RunKeepsInv(w: Sweep, events: seq<Event>, w': Sweep)
    requires Inv(w) && Leads(w, events, w')
    ensures Inv(w') && w'.files == w.files && w'.innerSize == w.innerSize && w'.outer.size == w.outer.size
    decreases |events|
  {
    if events != [] {
      var n := |events| - 1;
      var before :| Leads(w, events[..n], before) && Allowed(before, events[n]) && w' == Step(before, events[n]);
      RunKeepsInv(w, events[..n], before);
      StepKeepsInv(before, events[n]);
    }
  }

  // ---- How much runs at once ----

  /** Log file goroutines, over all servers, that did not free their slot yet. */
  function InFlight(inner: seq<Option<Pools.Pool>>): nat {
    if inner == [] then 0
    else
      var last := inner[|inner| - 1];
      InFlight(inner[..|inner| - 1]) + if last.Some? then Pools.CountHolding(last.value.workers) else 0
  }

  ghost predicate Bounded(inner: seq<Option<Pools.Pool>>, workers: seq<Pools.Worker>, size: nat) {
    |inner| == |workers| && forall i :: 0 <= i < |inner| && inner[i].Some? ==>
      Pools.CountHolding(inner[i].value.workers) <= if workers[i].Working? then size else 0
  }

  lemma {:induction false} InFlightIsBounded(inner: seq<Option<Pools.Pool>>, workers: seq<Pools.Worker>, size: nat)
    requires Bounded(inner, workers, size)
    ensures InFlight(inner) <= Pools.CountWorking(workers) * size
  {
    if inner != [] {
      var n := |inner| - 1;
      assert Bounded(inner[..n], workers[..n], size);
      InFlightIsBounded(inner[..n], workers[..n], size);
      OneMoreTimes(Pools.CountWorking(workers[..n]), size);
    }
  }

  lemma {:induction false} OneMoreTimes(a: nat, size: nat)
    ensures (a + 1) * size == a * size + size
  {
  }

  lemma {:induction false} TimesGrows(a: nat, b: nat, size: nat)
    requires a <= b
    ensures a * size <= b * size
  {
  }

  lemma {:induction false} PoolsAreBounded(w: Sweep)
    requires Inv(w)
    ensures Bounded(w.inner, w.outer.workers, Pools.PoolSize(w.innerSize))
  {
    forall i | 0 <= i < |w.inner| && w.inner[i].Some?
      ensures Pools.CountHolding(w.inner[i].value.workers) <=
                if w.outer.workers[i].Working? then Pools.PoolSize(w.innerSize) else 0
    {
      assert InnerFits(w, i);
      Pools.WorkingHold(w.inner[i].value.workers);
    }
  }

  lemma {:induction false} NewSweepSatisfiesInv(files: seq<nat>, servers: int, perServer: int)
    ensures Inv(NewSweep(files, servers, perServer))
  {
  }

  // ---- Every pool of a sweep runs as a pool on its own ----

  function ServersPart(events: seq<Event>): seq<Pools.Event> {
    if events == [] then []
    else
      var last := events[|events| - 1];
      ServersPart(events[..|events| - 1]) + if last.Outer? then [last.e] else []
  }

  /** What a sweep does in the log file pool of its `i`-th launched server, with the cancellations all pools share. */
  function FilesPart(events: seq<Event>, i: nat): seq<Pools.Event> {
    if events == [] then []
    else
      var last := events[|events| - 1];
      FilesPart(events[..|events| - 1], i) +
      if IsCancel(last) then [Pools.Cancel]
      else if last.Inner? && last.i == i then [last.e]
      else []
  }

  /** The pool of a server, or the one its goroutine would start now. */
  function PoolOf(w: Sweep, i: nat): Pools.Pool
    requires i < |w.files|
  {
    if IsOpen(w, i) then w.inner[i].value else Pools.NewPool(w.files[i], w.innerSize).(canceled := w.outer.canceled)
  }

  ghost predicate PoolsRun(files: seq<nat>, servers: int, perServer: int, events: seq<Event>, w: Sweep) {
    w.files == files &&
    Pools.Leads(Pools.NewPool(|files|, servers), ServersPart(events), w.outer) &&
    forall i: nat :: i < |files| ==>
      Pools.Leads(Pools.NewPool(files[i], perServer), FilesPart(events, i), PoolOf(w, i))
  }

  lemma {:induction false} LeadsOn(p: Pools.Pool, events: seq<Pools.Event>, p': Pools.Pool, e: Pools.Event)
    requires Pools.Leads(p, events, p') && Pools.Allowed(p', e)
    ensures Pools.Leads(p, events + [e], Pools.Step(p', e))
  {
    assert (events + [e])[..|events|] == events;
  }

  lemma {:induction false} StepRunsPool(w: Sweep, e: Event, i: nat)
    requires Inv(w) && Allowed(w, e) && i < |w.files|
    ensures var w' := Step(w, e);
            w'.files == w.files &&
            if IsCancel(e) then PoolOf(w', i) == Pools.Step(PoolOf(w, i), Pools.Cancel)
            else if e.Inner? && e.i == i then
              Pools.Allowed(PoolOf(w, i), e.e) && PoolOf(w', i) == Pools.Step(PoolOf(w, i), e.e)
            else PoolOf(w', i) == PoolOf(w, i)
  {
  }

  lemma {:induction false} SweepRunsPools(files: seq<nat>, servers: int, perServer: int, events: seq<Event>, w: Sweep)
    requires Leads(NewSweep(files, servers, perServer), events, w)
    ensures PoolsRun(files, servers, perServer, events, w)
    decreases |events|
  {
    var start := NewSweep(files, servers, perServer);
    NewSweepSatisfiesInv(files, servers, perServer);
    if events != [] {
      var n := |events| - 1;
      var before :| Leads(start, events[..n], before) && Allowed(before, events[n]) && w == Step(before, events[n]);
      SweepRunsPools(files, servers, perServer, events[..n], before);
      RunKeepsInv(start, events[..n], before);
      assert Pools.Leads(Pools.NewPool(|files|, servers), ServersPart(events), w.outer) by {
        if events[n].Outer? {
          LeadsOn(Pools.NewPool(|files|, servers), ServersPart(events[..n]), before.outer, events[n].e);
        } else {
          assert ServersPart(events) == ServersPart(events[..n]);
        }
      }
      forall i: nat | i < |files|
        ensures Pools.Leads(Pools.NewPool(files[i], perServer), FilesPart(events, i), PoolOf(w, i))
      {
        StepRunsPool(before, events[n], i);
        NextFilesPart(files[i], perServer, events, i, before, w);
      }
    }
  }

  lemma {:induction false} NextFilesPart(items: nat, perServer: int, events: seq<Event>, i: nat, w: Sweep, w': Sweep)
    requires events != [] && i < |w.files| == |w'.files|
    requires var n := |events| - 1;
             Pools.Leads(Pools.NewPool(items, perServer), FilesPart(events[..n], i), PoolOf(w, i)) &&
             if IsCancel(events[n]) then PoolOf(w', i) == Pools.Step(PoolOf(w, i), Pools.Cancel)
             else if events[n].Inner? && events[n].i == i then
               Pools.Allowed(PoolOf(w, i), events[n].e) && PoolOf(w', i) == Pools.Step(PoolOf(w, i), events[n].e)
             else PoolOf(w', i) == PoolOf(w, i)
    ensures Pools.Leads(Pools.NewPool(items, perServer), FilesPart(events, i), PoolOf(w', i))
  {
    var n := |events| - 1;
    if IsCancel(events[n]) {
      LeadsOn(Pools.NewPool(items, perServer), FilesPart(events[..n], i), PoolOf(w, i), Pools.Cancel);
    } else if events[n].Inner? && events[n].i == i {
      LeadsOn(Pools.NewPool(items, perServer), FilesPart(events[..n], i), PoolOf(w, i), events[n].e);
    } else {
      assert FilesPart(events, i) == FilesPart(events[..n], i);
    }
  }

  /** What the goroutine of a server has to report when its log file pool returned follows from how the log files of
      that server ended, whatever the other servers did in between. */
  lemma {:induction false} ServerReportsAreJustified(files: seq<nat>, servers: int, perServer: int, events: seq<Event>,
                                                     w: Sweep, i: nat)
    requires Leads(NewSweep(files, servers, perServer), events, w)
    requires i < |files| && IsOpen(w, i) && w.inner[i].value.launcher.Returned?
    ensures var ended := FilesPart(events, i);
            var summary := w.inner[i].value.summary;
            Pools.CountsEvents(summary, ended) &&
            Pools.Count(ended, Pools.Succeeds) + Pools.Count(ended, Pools.Fails) ==
            Pools.Count(ended, Pools.Launches) == |w.inner[i].value.workers| &&
            (Pools.CollectionReport(summary).ReportSuccess? <==> Pools.Count(ended, Pools.Fails) == 0) &&
            (Pools.IntegrityReport(summary).ReportSuccess? <==>
               Pools.Count(ended, Pools.Fails) == 0 && Pools.Count(ended, Pools.FindsTampering) == 0) &&
            (Pools.CollectionReport(summary).ReportFailure? ==>
               Pools.Count(ended, Pools.Succeeds) == 0 &&
               Pools.CollectionReport(summary).error == Pools.FirstError(ended)) &&
            (files[i] > 0 && Pools.Count(ended, Pools.Launches) == 0 ==> w.outer.canceled)
  {
    SweepRunsPools(files, servers, perServer, events, w);
    assert PoolOf(w, i) == w.inner[i].value;
    Pools.SweepsAreBoundedAndCounted(files[i], perServer, FilesPart(events, i), w.inner[i].value);
    Pools.ReportsAreJustified(files[i], perServer, FilesPart(events, i), w.inner[i].value);
    NewSweepSatisfiesInv(files, servers, perServer);
    RunKeepsInv(NewSweep(files, servers, perServer), events, w);
    assert InnerFits(w, i);
  }

  /** The pool of servers, and the one of log files inside each, run as such pools do on their own, so all that holds
      for a pool's runs holds for these. In every interleaving at most as many servers are worked on as the outer pool
      has slots, and over all of them at most the product of both sizes of log files. When the sweep returned, every log
      file pool that was started has returned, with every launched log file counted; unless it was canceled every server
      had its goroutine and every started pool launched all its log files. */
  lemma {:induction false} SweepIsBoundedAndCounted(files: seq<nat>, servers: int, perServer: int, events: seq<Event>,
                                                    w: Sweep)
    requires Leads(NewSweep(files, servers, perServer), events, w)
    ensures PoolsRun(files, servers, perServer, events, w)
    ensures Pools.CountWorking(w.outer.workers) <= Pools.PoolSize(servers)
    ensures InFlight(w.inner) <= Pools.PoolSize(servers) * Pools.PoolSize(perServer)
    ensures w.outer.launcher.Returned? ==>
              (!w.outer.canceled ==> |w.inner| == |files|) &&
              forall i :: 0 <= i < |w.inner| && w.inner[i].Some? ==> CountedAll(w.inner[i].value, w.outer.canceled)
  {
    SweepRunsPools(files, servers, perServer, events, w);
    NewSweepSatisfiesInv(files, servers, perServer);
    RunKeepsInv(NewSweep(files, servers, perServer), events, w);
    Pools.WorkingHold(w.outer.workers);
    PoolsAreBounded(w);
    InFlightIsBounded(w.inner, w.outer.workers, Pools.PoolSize(perServer));
    TimesGrows(Pools.CountWorking(w.outer.workers), Pools.PoolSize(servers), Pools.PoolSize(perServer));
    if w.outer.launcher.Returned? {
      forall i | 0 <= i < |w.inner| && w.inner[i].Some? ensures CountedAll(w.inner[i].value, w.outer.canceled) {
        assert InnerFits(w, i) && w.outer.workers[i].Finished?;
        AllFinishedWorkNoMore(w.inner[i].value.workers);
      }
    }
  }

  /** The pool returned and counted all it launched, which is all its log files unless it was canceled. */
  ghost predicate CountedAll(p: Pools.Pool, canceled: bool) {
    p.launcher.Returned? && p.summary.successCount + p.summary.failureCount == |p.workers| &&
    (!canceled ==> |p.workers| == p.items)
  }

  lemma {:induction false} AllFinishedWorkNoMore(workers: seq<Pools.Worker>)
    ensures Pools.AllFinished(workers) ==> Pools.CountWorking(workers) == 0
  {
    Pools.WorkingHold(workers);
  }

  // ---- Every sweep returns ----

  /** Steps the goroutine of server `i` has left: opening its pool, and the pool's own. */
  function ServerSteps(w: Sweep, i: nat): int
    requires i < |w.files|
  {
    if i >= |w.inner| then 6 * w.files[i] + 4
    else if w.inner[i].Some? then Pools.StepsLeft(w.inner[i].value)
    else 6 * w.files[i] + 4
  }

  function AllServerSteps(w: Sweep, n: nat): int
    requires n <= |w.files|
  {
    if n == 0 then 0 else AllServerSteps(w, n - 1) + ServerSteps(w, n - 1)
  }

  function StepsLeft(w: Sweep): int {
    Pools.StepsLeft(w.outer) + AllServerSteps(w, |w.files|)
  }

  lemma {:induction false} SameServerSteps(w: Sweep, w': Sweep, n: nat)
    requires n <= |w.files| && w'.files == w.files
    requires forall i :: 0 <= i < n ==> ServerSteps(w', i) == ServerSteps(w, i)
    ensures AllServerSteps(w', n) == AllServerSteps(w, n)
  {
    if n > 0 {
      SameServerSteps(w, w', n - 1);
    }
  }

  lemma {:induction false} OneServerSteps(w: Sweep, w': Sweep, k: nat, n: nat)
    requires k < n <= |w.files| && w'.files == w.files && ServerSteps(w', k) < ServerSteps(w, k)
    requires forall i :: 0 <= i < n && i != k ==> ServerSteps(w', i) == ServerSteps(w, i)
    ensures AllServerSteps(w', n) < AllServerSteps(w, n)
  {
    if n == k + 1 {
      SameServerSteps(w, w', k);
    } else {
      OneServerSteps(w, w', k, n - 1);
    }
  }

  lemma {:induction false} OuterStepCounts(w: Sweep, o: Pools.Event)
    requires Inv(w) && Allowed(w, Outer(o))
    ensures if o.Cancel? then StepsLeft(Step(w, Outer(o))) == StepsLeft(w)
            else StepsLeft(Step(w, Outer(o))) < StepsLeft(w)
  {
    Pools.StepsRunOut(w.outer, o);
    SameServerSteps(w, Step(w, Outer(o)), |w.files|);
  }

  lemma {:induction false} InnerStepCounts(w: Sweep, e: Event)
    requires Inv(w) && Allowed(w, e) && !e.Outer?
    ensures StepsLeft(Step(w, e)) < StepsLeft(w)
  {
    assert InnerFits(w, e.i);
    if e.Inner? {
      Pools.StepsRunOut(w.inner[e.i].value, e.e);
    }
    OneServerSteps(w, Step(w, e), e.i, |w.files|);
  }

  predicate IsCancel(e: Event) {
    e.Outer? && e.e.Cancel?
  }

  function CountSteps(events: seq<Event>): nat {
    if events == [] then 0
    else CountSteps(events[..|events| - 1]) + if IsCancel(events[|events| - 1]) then 0 else 1
  }

  lemma {:induction false} RunsAreBounded(w: Sweep, events: seq<Event>, w': Sweep)
    requires Inv(w) && Leads(w, events, w')
    ensures StepsLeft(w') + CountSteps(events) <= StepsLeft(w)
    decreases |events|
  {
    if events != [] {
      var n := |events| - 1;
      var before :| Leads(w, events[..n], before) && Allowed(before, events[n]) && w' == Step(before, events[n]);
      RunKeepsInv(w, events[..n], before);
      RunsAreBounded(w, events[..n], before);
      match events[n]
      case Outer(o) => OuterStepCounts(before, o);
      case _ => InnerStepCounts(before, events[n]);
    }
  }

  lemma {:induction false} StepsLeftIsNatural(w: Sweep, n: nat)
    requires Inv(w) && n <= |w.files|
    ensures AllServerSteps(w, n) >= 0 && Pools.StepsLeft(w.outer) >= 0
  {
    Pools.StepsLeftIsNatural(w.outer);
    if n > 0 {
      StepsLeftIsNatural(w, n - 1);
      if n - 1 < |w.inner| && w.inner[n - 1].Some? {
        assert InnerFits(w, n - 1);
        Pools.StepsLeftIsNatural(w.inner[n - 1].value);
      }
    }
  }

  /** A goroutine that is not finished can take a step, or its log file pool can. */
  lemma {:induction false} ServerNeverBlocks(w: Sweep, i: nat) returns (e: Event)
    requires Inv(w) && i < |w.outer.workers| && !w.outer.workers[i].Finished?
    ensures Allowed(w, e) && !IsCancel(e)
  {
    assert InnerFits(w, i);
    if IsOpen(w, i) && !w.inner[i].value.launcher.Returned? {
      var o := Pools.SweepsNeverBlock(w.inner[i].value);
      e := Inner(i, o);
    } else {
      if Pools.IsAt(w.outer, i, Pools.Working) {
        e := Outer(Pools.Record(i, Pools.Fine));
      } else if Pools.IsAt(w.outer, i, Pools.Recorded) {
        Pools.CountsUpdate(w.outer.workers, i, Pools.Released);
        e := Outer(Pools.Release(i));
      } else {
        e := Outer(Pools.Finish(i));
      }
    }
  }

  /** Until the whole sweep has returned some goroutine of it can take a step. */
  lemma {:induction false} SweepNeverBlocks(w: Sweep) returns (e: Event)
    requires Inv(w) && !w.outer.launcher.Returned?
    ensures Allowed(w, e) && !IsCancel(e)
  {
    match w.outer.launcher
    case Looking => e := Outer(Pools.Look);
    case Acquiring =>
      if w.outer.tokens < w.outer.size {
        e := Outer(Pools.Launch);
      } else {
        var i := Pools.SomeHolds(w.outer.workers);
        e := ServerNeverBlocks(w, i);
      }
    case Waiting =>
      if Pools.AllFinished(w.outer.workers) {
        e := Outer(Pools.Return);
      } else {
        var i: nat :| i < |w.outer.workers| && !w.outer.workers[i].Finished?;
        e := ServerNeverBlocks(w, i);
      }
  }

  function Sum(files: seq<nat>): nat {
    if files == [] then 0 else Sum(files[..|files| - 1]) + files[|files| - 1]
  }

  lemma {:induction false} StartSteps(w: Sweep, n: nat)
    requires n <= |w.files| && w.inner == []
    ensures AllServerSteps(w, n) == 6 * Sum(w.files[..n]) + 4 * n
  {
    if n > 0 {
      StartSteps(w, n - 1);
      assert w.files[..n][..n - 1] == w.files[..n - 1];
    }
  }

  /** Every sweep returns: its steps are bounded by its servers and their log files, and one that cannot be extended,
      except by canceling, has returned, both levels of it. */
  lemma {:induction false} SweepReturns(files: seq<nat>, servers: int, perServer: int, events: seq<Event>, w: Sweep)
    requires Leads(NewSweep(files, servers, perServer), events, w)
    ensures CountSteps(events) <= 6 * Sum(files) + 10 * |files| + 3
    ensures (forall e :: Allowed(w, e) ==> IsCancel(e)) ==> w.outer.launcher.Returned?
  {
    var start := NewSweep(files, servers, perServer);
    NewSweepSatisfiesInv(files, servers, perServer);
    RunKeepsInv(start, events, w);
    RunsAreBounded(start, events, w);
    StepsLeftIsNatural(w, |w.files|);
    StartSteps(start, |files|);
    assert files[..|files|] == files;
    if !w.outer.launcher.Returned? {
      var e := SweepNeverBlocks(w);
    }
  }
}

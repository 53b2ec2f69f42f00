/** The bounded worker pools of the scheduled sweeps: a launcher, a semaphore, and one goroutine per log file. */
module Pools {
  import opened Prelude

  /** How one log file ended. A tampered file was still checked successfully. */
  datatype Ending = Fine | Tampered | Broken(error: string)

  /** The launcher looks at the context, waits for a free slot, and after its loop waits for everything it launched. */
  datatype Launcher = Looking | Acquiring | Waiting | Returned

  /** A goroutine works, records its result under the mutex, frees its slot, and tells the wait group. */
  datatype Worker = Working | Recorded | Released | Finished

  datatype Summary = Summary(successCount: nat, failureCount: nat, tamperedCount: nat, firstErr: Option<string>)

  const NO_RESULTS := Summary(0, 0, 0, None)

  /** `workers` are the launched goroutines in launch order, `tokens` the occupied semaphore slots. */
  datatype Pool = Pool(items: nat, size: nat, launcher: Launcher, workers: seq<Worker>, tokens: nat, canceled: bool,
                       summary: Summary)

  datatype Event =
    | Look
    | Launch
    | Record(i: nat, ending: Ending)
    | Release(i: nat)
    | Finish(i: nat)
    | Return
    | Cancel

  /** Pool sizes below one are raised to one. */
  function PoolSize(configured: int): (size: nat)
    ensures size > 0 && (configured > 0 ==> size == configured)
  {
    if configured <= 0 then 1 else configured
  }

  function NewPool(items: nat, configured: int): Pool {
    Pool(items, PoolSize(configured), Looking, [], 0, false, NO_RESULTS)
  }

  predicate IsAt(p: Pool, i: nat, at: Worker) {
    i < |p.workers| && p.workers[i] == at
  }

  predicate AllFinished(workers: seq<Worker>) {
    forall i :: 0 <= i < |workers| ==> workers[i].Finished?
  }

  predicate Allowed(p: Pool, e: Event) {
    match e
    case Look => p.launcher.Looking?
    case Launch => p.launcher.Acquiring? && p.tokens < p.size
    case Record(i, _) => IsAt(p, i, Working)
    case Release(i) => IsAt(p, i, Recorded) && p.tokens > 0
    case Finish(i) => IsAt(p, i, Released)
    case Return => p.launcher.Waiting? && AllFinished(p.workers)
    case Cancel => true
  }

  function Add(s: Summary, ending: Ending): Summary {
    match ending
    case Fine => s.(successCount := s.successCount + 1)
    case Tampered => s.(successCount := s.successCount + 1, tamperedCount := s.tamperedCount + 1)
    case Broken(error) =>
      s.(failureCount := s.failureCount + 1, firstErr := if s.firstErr.None? then Some(error) else s.firstErr)
  }

  function Step(p: Pool, e: Event): Pool
    requires Allowed(p, e)
  {
    match e
    case Look => p.(launcher := if |p.workers| >= p.items || p.canceled then Waiting else Acquiring)
    case Launch => p.(launcher := Looking, workers := p.workers + [Working], tokens := p.tokens + 1)
    case Record(i, ending) => p.(workers := p.workers[i := Recorded], summary := Add(p.summary, ending))
    case Release(i) => p.(workers := p.workers[i := Released], tokens := p.tokens - 1)
    case Finish(i) => p.(workers := p.workers[i := Finished])
    case Return => p.(launcher := Returned)
    case Cancel => p.(canceled := true)
  }

  ghost predicate Leads(p: Pool, events: seq<Event>, p': Pool)
    decreases |events|
  {
    if events == [] then p' == p
    else
      var n := |events| - 1;
      exists before :: Leads(p, events[..n], before) && Allowed(before, events[n]) && p' == Step(before, events[n])
  }

  // ---- Counting ----

  function CountHolding(workers: seq<Worker>): nat {
    if workers == [] then 0
    else
      var last := workers[|workers| - 1];
      CountHolding(workers[..|workers| - 1]) + if last.Working? || last.Recorded? then 1 else 0
  }

  function CountWorking(workers: seq<Worker>): nat {
    if workers == [] then 0
    else CountWorking(workers[..|workers| - 1]) + if workers[|workers| - 1].Working? then 1 else 0
  }

  lemma {:induction false} CountsUpdate(workers: seq<Worker>, i: nat, x: Worker)
    requires i < |workers|
    ensures CountHolding(workers[i := x]) == CountHolding(workers)
              - (if workers[i].Working? || workers[i].Recorded? then 1 else 0) +
                (if x.Working? || x.Recorded? then 1 else 0)
    ensures CountWorking(workers[i := x]) == CountWorking(workers)
              - (if workers[i].Working? then 1 else 0) + (if x.Working? then 1 else 0)
  {
    var n := |workers| - 1;
    if i < n {
      CountsUpdate(workers[..n], i, x);
      assert workers[i := x][..n] == workers[..n][i := x];
    } else {
      assert workers[i := x][..n] == workers[..n];
    }
  }

  lemma {:induction false} CountsAppend(workers: seq<Worker>)
    ensures CountHolding(workers + [Working]) == CountHolding(workers) + 1
    ensures CountWorking(workers + [Working]) == CountWorking(workers) + 1
  {
    assert (workers + [Working])[..|workers|] == workers;
  }

  lemma {:induction false} WorkingHold(workers: seq<Worker>)
    ensures CountWorking(workers) <= CountHolding(workers) <= |workers|
    ensures AllFinished(workers) ==> CountHolding(workers) == 0
  {
    if workers != [] {
      WorkingHold(workers[..|workers| - 1]);
    }
  }

  /** Slots are held by the goroutines that did not free theirs yet, and every result counted once belongs to a
      goroutine past its mutex section. */
  ghost predicate Inv(p: Pool) {
    p.size > 0 && p.tokens == CountHolding(p.workers) && p.tokens <= p.size && |p.workers| <= p.items &&
    p.summary.successCount + p.summary.failureCount + CountWorking(p.workers) == |p.workers| &&
    p.summary.tamperedCount <= p.summary.successCount &&
    (p.summary.firstErr.Some? <==> p.summary.failureCount > 0) &&
    (p.launcher.Acquiring? ==> |p.workers| < p.items) &&
    (p.launcher.Waiting? || p.launcher.Returned? ==> |p.workers| == p.items || p.canceled) &&
    (p.launcher.Returned? ==> AllFinished(p.workers))
  }

  lemma {:induction false} RecordKeepsInv(p: Pool, i: nat, ending: Ending)
    requires Inv(p) && IsAt(p, i, Working)
    ensures Inv(p.(workers := p.workers[i := Recorded], summary := Add(p.summary, ending)))
  {
    CountsUpdate(p.workers, i, Recorded);
  }

  lemma {:induction false} ReleaseKeepsInv(p: Pool, i: nat)
    requires Inv(p) && IsAt(p, i, Recorded) && p.tokens > 0
    ensures Inv(p.(workers := p.workers[i := Released], tokens := p.tokens - 1))
  {
    CountsUpdate(p.workers, i, Released);
  }

  lemma {:induction false} FinishKeepsInv(p: Pool, i: nat)
    requires Inv(p) && IsAt(p, i, Released)
    ensures Inv(p.(workers := p.workers[i := Finished]))
  {
    CountsUpdate(p.workers, i, Finished);
  }

  lemma {:induction false} StepKeepsInv(p: Pool, e: Event)
    requires Inv(p) && Allowed(p, e)
    ensures Inv(Step(p, e))
  {
    match e
    case Launch => CountsAppend(p.workers);
    case Record(i, ending) => RecordKeepsInv(p, i, ending);
    case Release(i) => ReleaseKeepsInv(p, i);
    case Finish(i) => FinishKeepsInv(p, i);
    case Look =>
    case Return =>
    case Cancel =>
  }

  lemma {:induction false} RunKeepsInv(p: Pool, events: seq<Event>, p': Pool)
    requires Inv(p) && Leads(p, events, p')
    ensures Inv(p') && p'.items == p.items && p'.size == p.size
    decreases |events|
  {
    if events != [] {
      var n := |events| - 1;
      var before :| Leads(p, events[..n], before) && Allowed(before, events[n]) && p' == Step(before, events[n]);
      RunKeepsInv(p, events[..n], before);
      StepKeepsInv(before, events[n]);
    }
  }

  // ---- What the summary counts ----

  predicate Launches(e: Event) {
    e.Launch?
  }

  /** A log file that was processed, tampered with or not. */
  predicate Succeeds(e: Event) {
    e.Record? && !e.ending.Broken?
  }

  predicate Fails(e: Event) {
    e.Record? && e.ending.Broken?
  }

  predicate FindsTampering(e: Event) {
    e.Record? && e.ending.Tampered?
  }

  function Count(events: seq<Event>, which: Event -> bool): nat {
    if events == [] then 0
    else Count(events[..|events| - 1], which) + if which(events[|events| - 1]) then 1 else 0
  }

  /** How often a result was recorded for the `i`-th launched log file. */
  function ResultsOf(events: seq<Event>, i: nat): nat {
    if events == [] then 0
    else
      var last := events[|events| - 1];
      ResultsOf(events[..|events| - 1], i) + if last.Record? && last.i == i then 1 else 0
  }

  /** The error of the first log file that failed, in the order the results were recorded. */
  function FirstError(events: seq<Event>): Option<string> {
    if events == [] then None
    else if Fails(events[0]) then Some(events[0].ending.error)
    else FirstError(events[1..])
  }

  lemma {:induction false} FirstErrorGrows(events: seq<Event>)
    requires events != []
    ensures var n := |events| - 1;
            FirstError(events) ==
            if FirstError(events[..n]).Some? then FirstError(events[..n])
            else if Fails(events[n]) then Some(events[n].ending.error)
            else None
  {
    var n := |events| - 1;
    if n > 0 && !Fails(events[0]) {
      FirstErrorGrows(events[1..]);
      assert events[1..][..n - 1] == events[..n][1..];
    }
  }

  ghost predicate CountsEvents(s: Summary, events: seq<Event>) {
    s.successCount == Count(events, Succeeds) && s.failureCount == Count(events, Fails) &&
    s.tamperedCount == Count(events, FindsTampering) && s.firstErr == FirstError(events)
  }

  /** The summary over any run: each recorded result is counted under its own ending, and the error kept is that of the
      first log file that failed. Every launched log file is recorded at most once, and by then it no longer works. */
  lemma {:induction false} SummaryCountsEndings(p: Pool, events: seq<Event>, p': Pool)
    requires Leads(p, events, p') && p.summary == NO_RESULTS && p.workers == []
    ensures CountsEvents(p'.summary, events)
    ensures |p'.workers| == Count(events, Launches)
    decreases |events|
  {
    if events != [] {
      var n := |events| - 1;
      var before :| Leads(p, events[..n], before) && Allowed(before, events[n]) && p' == Step(before, events[n]);
      SummaryCountsEndings(p, events[..n], before);
      AddCounts(before.summary, events);
    }
  }

  lemma {:induction false} AddCounts(s: Summary, events: seq<Event>)
    requires events != [] && CountsEvents(s, events[..|events| - 1])
    ensures var e := events[|events| - 1];
            CountsEvents(if e.Record? then Add(s, e.ending) else s, events)
  {
    FirstErrorGrows(events);
  }

  lemma {:induction false} EachFileEndsOnce(p: Pool, events: seq<Event>, p': Pool, i: nat)
    requires Leads(p, events, p') && p.workers == []
    ensures ResultsOf(events, i) == if i < |p'.workers| && !p'.workers[i].Working? then 1 else 0
    decreases |events|
  {
    if events != [] {
      var n := |events| - 1;
      var before :| Leads(p, events[..n], before) && Allowed(before, events[n]) && p' == Step(before, events[n]);
      EachFileEndsOnce(p, events[..n], before, i);
    }
  }

  /** The pool is bounded in every interleaving: goroutines that are working, or did not free their slot yet, never
      outnumber the slots. The summary counts exactly the endings recorded so far, and keeps the error of the first that
      failed. On return every launched log file was recorded exactly once, and unless the sweep was canceled everything
      was launched. */
  lemma {:induction false} SweepsAreBoundedAndCounted(items: nat, configured: int, events: seq<Event>, p: Pool)
    requires Leads(NewPool(items, configured), events, p)
    ensures CountWorking(p.workers) <= CountHolding(p.workers) <= PoolSize(configured)
    ensures CountsEvents(p.summary, events) && |p.workers| == Count(events, Launches) <= items
    ensures p.launcher.Returned? ==>
              Count(events, Succeeds) + Count(events, Fails) == Count(events, Launches) &&
              (FirstError(events).Some? <==> Count(events, Fails) > 0) &&
              (!p.canceled ==> Count(events, Launches) == items) &&
              forall i: nat :: i < |p.workers| ==> ResultsOf(events, i) == 1
  {
    RunKeepsInv(NewPool(items, configured), events, p);
    WorkingHold(p.workers);
    SummaryCountsEndings(NewPool(items, configured), events, p);
    if p.launcher.Returned? {
      forall i: nat | i < |p.workers| ensures ResultsOf(events, i) == 1 {
        EachFileEndsOnce(NewPool(items, configured), events, p, i);
      }
    }
  }

  // ---- A sweep always returns ----

  function Rank(x: Worker): nat {
    match x
    case Working => 3
    case Recorded => 2
    case Released => 1
    case Finished => 0
  }

  function Ranks(workers: seq<Worker>): nat {
    if workers == [] then 0 else Ranks(workers[..|workers| - 1]) + Rank(workers[|workers| - 1])
  }

  /** Steps the sweep has left: six for each log file not launched yet. */
  function StepsLeft(p: Pool): int {
    6 * (p.items - |p.workers|) + Ranks(p.workers) +
    match p.launcher
    case Looking => 3
    case Acquiring => 2
    case Waiting => 1
    case Returned => 0
  }

  lemma {:induction false} RanksUpdate(workers: seq<Worker>, i: nat, x: Worker)
    requires i < |workers|
    ensures Ranks(workers[i := x]) == Ranks(workers) - Rank(workers[i]) + Rank(x)
  {
    var n := |workers| - 1;
    if i < n {
      RanksUpdate(workers[..n], i, x);
      assert workers[i := x][..n] == workers[..n][i := x];
    } else {
      assert workers[i := x][..n] == workers[..n];
    }
  }

  lemma {:induction false} StepsRunOut(p: Pool, e: Event)
    requires Inv(p) && Allowed(p, e)
    ensures if e.Cancel? then StepsLeft(Step(p, e)) == StepsLeft(p) else StepsLeft(Step(p, e)) < StepsLeft(p)
  {
    StepKeepsInv(p, e);
    match e
    case Launch => assert (p.workers + [Working])[..|p.workers|] == p.workers;
    case Record(i, _) => RanksUpdate(p.workers, i, Recorded);
    case Release(i) => RanksUpdate(p.workers, i, Released);
    case Finish(i) => RanksUpdate(p.workers, i, Finished);
    case Look =>
    case Return =>
    case Cancel =>
  }

  lemma {:induction false} SomeHolds(workers: seq<Worker>) returns (i: nat)
    requires CountHolding(workers) > 0
    ensures i < |workers| && (workers[i].Working? || workers[i].Recorded?)
  {
    var n := |workers| - 1;
    if workers[n].Working? || workers[n].Recorded? {
      i := n;
    } else {
      i := SomeHolds(workers[..n]);
    }
  }

  lemma {:induction false} AdvanceWorker(p: Pool, i: nat) returns (e: Event)
    requires Inv(p) && i < |p.workers| && !p.workers[i].Finished?
    ensures Allowed(p, e) && !e.Cancel?
  {
    match p.workers[i]
    case Working => e := Record(i, Fine);
    case Recorded =>
      CountsUpdate(p.workers, i, Released);
      e := Release(i);
    case Released => e := Finish(i);
  }

  /** Until it has returned, a sweep can always take a step, so the bound above makes it return. */
  lemma {:induction false} SweepsNeverBlock(p: Pool) returns (e: Event)
    requires Inv(p) && !p.launcher.Returned?
    ensures Allowed(p, e) && !e.Cancel?
  {
    match p.launcher
    case Looking => e := Look;
    case Acquiring =>
      if p.tokens < p.size {
        e := Launch;
      } else {
        var i := SomeHolds(p.workers);
        e := AdvanceWorker(p, i);
      }
    case Waiting =>
      if AllFinished(p.workers) {
        e := Return;
      } else {
        var i: nat :| i < |p.workers| && !p.workers[i].Finished?;
        e := AdvanceWorker(p, i);
      }
  }

  function CountSteps(events: seq<Event>): nat {
    if events == [] then 0
    else CountSteps(events[..|events| - 1]) + if events[|events| - 1].Cancel? then 0 else 1
  }

  lemma {:induction false} RunsAreBounded(p: Pool, events: seq<Event>, p': Pool)
    requires Inv(p) && Leads(p, events, p')
    ensures StepsLeft(p') + CountSteps(events) <= StepsLeft(p)
    decreases |events|
  {
    if events != [] {
      var n := |events| - 1;
      var before :| Leads(p, events[..n], before) && Allowed(before, events[n]) && p' == Step(before, events[n]);
      RunKeepsInv(p, events[..n], before);
      RunsAreBounded(p, events[..n], before);
      StepsRunOut(before, events[n]);
    }
  }

  lemma {:induction false} StepsLeftIsNatural(p: Pool)
    requires |p.workers| <= p.items
    ensures StepsLeft(p) >= 0
  {
  }

  /** Every sweep returns: a run takes at most as many steps as there are for its log files, and one that cannot be
      extended, except by canceling, has returned. */
  lemma {:induction false} SweepsReturn(items: nat, configured: int, events: seq<Event>, p: Pool)
    requires Leads(NewPool(items, configured), events, p)
    ensures CountSteps(events) <= 6 * items + 3
    ensures (forall e :: Allowed(p, e) ==> e.Cancel?) ==> p.launcher.Returned?
  {
    RunKeepsInv(NewPool(items, configured), events, p);
    RunsAreBounded(NewPool(items, configured), events, p);
    StepsLeftIsNatural(p);
    if !p.launcher.Returned? {
      var e := SweepsNeverBlock(p);
    }
  }

  // ---- What a sweep reports about its server ----

  datatype ServerReport = ReportSuccess | ReportFailure(error: Option<string>) | ReportDegraded

  function CollectionReport(s: Summary): ServerReport {
    if s.failureCount == 0 then ReportSuccess
    else if s.successCount == 0 then ReportFailure(s.firstErr)
    else ReportDegraded
  }

  function IntegrityReport(s: Summary): ServerReport {
    if s.failureCount == 0 && s.tamperedCount == 0 then ReportSuccess
    else if s.successCount == 0 then ReportFailure(s.firstErr)
    else ReportDegraded
  }

  /** A returned sweep reports success exactly when no log file ended broken (nor, for checks, tampered with), failure
      exactly when some were launched and all of them ended broken, then with the error of the first, and degraded
      otherwise. */
  lemma {:induction false} ReportsAreJustified(items: nat, configured: int, events: seq<Event>, p: Pool)
    requires Leads(NewPool(items, configured), events, p) && p.launcher.Returned?
    ensures var report := CollectionReport(p.summary);
            (report.ReportSuccess? <==> Count(events, Fails) == 0) &&
            (report.ReportFailure? <==> Count(events, Launches) == Count(events, Fails) > 0) &&
            (report.ReportFailure? ==> report.error == FirstError(events) && report.error.Some?) &&
            (report.ReportDegraded? <==> Count(events, Fails) > 0 && Count(events, Succeeds) > 0)
    ensures var report := IntegrityReport(p.summary);
            (report.ReportSuccess? <==> Count(events, Fails) == 0 && Count(events, FindsTampering) == 0) &&
            (report.ReportFailure? <==> Count(events, Launches) == Count(events, Fails) > 0) &&
            (report.ReportFailure? ==> report.error == FirstError(events) && report.error.Some?) &&
            (report.ReportDegraded? <==>
               Count(events, Succeeds) > 0 && (Count(events, Fails) > 0 || Count(events, FindsTampering) > 0))
  {
    RunKeepsInv(NewPool(items, configured), events, p);
    SweepsAreBoundedAndCounted(items, configured, events, p);
  }

  // ---- Sweeps that did nothing ----

  ghost predicate HasLook(events: seq<Event>) {
    exists i :: 0 <= i < |events| && events[i].Look?
  }

  ghost predicate CancelsAt(events: seq<Event>, i: nat) {
    i < |events| && events[i].Cancel? && !HasLook(events[..i])
  }

  /** The context ends before the launcher looks at it for the first time. */
  ghost predicate CanceledFirst(events: seq<Event>) {
    exists i: nat :: CancelsAt(events, i)
  }

  lemma {:induction false} OneMoreEvent(events: seq<Event>)
    requires events != []
    ensures var n := |events| - 1;
            (HasLook(events) <==> HasLook(events[..n]) || events[n].Look?) &&
            (CanceledFirst(events) <==> CanceledFirst(events[..n]) || (events[n].Cancel? && !HasLook(events[..n])))
  {
    var n := |events| - 1;
    if i :| 0 <= i < n && events[..n][i].Look? {
      assert events[i].Look?;
    }
    if CanceledFirst(events[..n]) {
      var i: nat :| CancelsAt(events[..n], i);
      assert events[..n][..i] == events[..i];
      assert CancelsAt(events, i);
    }
    if CanceledFirst(events) {
      var i: nat :| CancelsAt(events, i);
      assert i < n ==> events[..n][..i] == events[..i] && CancelsAt(events[..n], i);
    }
    if events[n].Cancel? && !HasLook(events[..n]) {
      assert CancelsAt(events, n);
    }
  }

  ghost predicate FollowsFirstLook(p: Pool, events: seq<Event>) {
    (!HasLook(events) ==> p.launcher.Looking? && p.workers == [] && (p.canceled ==> CanceledFirst(events))) &&
    (CanceledFirst(events) ==> p.canceled && p.workers == [] && !p.launcher.Acquiring?) &&
    (HasLook(events) && !CanceledFirst(events) ==> p.workers != [] || p.launcher.Acquiring?)
  }

  lemma {:induction false} RunFollowsFirstLook(p: Pool, events: seq<Event>, p': Pool)
    requires Leads(p, events, p') && p.launcher.Looking? && p.workers == [] && !p.canceled && p.items > 0
    ensures FollowsFirstLook(p', events) && p'.items == p.items
    decreases |events|
  {
    if events == [] {
      assert forall i: nat :: !CancelsAt(events, i);
    } else {
      var n := |events| - 1;
      var before :| Leads(p, events[..n], before) && Allowed(before, events[n]) && p' == Step(before, events[n]);
      RunFollowsFirstLook(p, events[..n], before);
      OneMoreEvent(events);
    }
  }

  /** Success does not mean something was done. A returned sweep over at least one log file launched none exactly if the
      context had ended before the launcher first looked at it; then it reports success all the same, for collections
      and for checks. In every other case success is backed by a log file whose processing ended well, and by none that
      ended broken. */
  lemma {:induction false} SuccessIsBackedIff(items: nat, configured: int, events: seq<Event>, p: Pool)
    requires items > 0 && Leads(NewPool(items, configured), events, p) && p.launcher.Returned?
    ensures Count(events, Launches) == 0 <==> CanceledFirst(events)
    ensures CanceledFirst(events) ==>
              CollectionReport(p.summary).ReportSuccess? && IntegrityReport(p.summary).ReportSuccess?
    ensures CollectionReport(p.summary).ReportSuccess? ==>
              Count(events, Fails) == 0 && (Count(events, Succeeds) > 0 <==> !CanceledFirst(events))
    ensures IntegrityReport(p.summary).ReportSuccess? ==>
              Count(events, Fails) == 0 && Count(events, FindsTampering) == 0 &&
              (Count(events, Succeeds) > 0 <==> !CanceledFirst(events))
  {
    SweepsAreBoundedAndCounted(items, configured, events, p);
    ReportsAreJustified(items, configured, events, p);
    RunFollowsFirstLook(NewPool(items, configured), events, p);
  }

  lemma {:induction false} CanceledSweepReportsSuccess(items: nat, configured: int)
    ensures var canceled := Step(NewPool(items, configured), Cancel);
            var returned := Step(Step(canceled, Look), Return);
            returned.launcher.Returned? && returned.workers == [] &&
              CollectionReport(returned.summary).ReportSuccess? &&
            IntegrityReport(returned.summary).ReportSuccess?
  {
  }
}

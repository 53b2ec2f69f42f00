/** Collection runs and integrity checks of different log files on one repository, interleaved call by call: each comes
    to what it would have come to alone. */
module InterleavedTasks {
  import opened Prelude
  import opened Models
  import opened Chunking
  import opened Collector
  import opened Tables
  import opened TableOps
  import opened Views
  import opened Storage
  import opened RunSteps
  import opened RunTurns
  import opened CheckSteps
  import opened CheckTurns
  import CollectorService
  import EndToEnd
  import IntegrityService
  import Verdicts

  datatype Task = Collecting(run: Run) | Checking(check: CheckRun)

  function FileOf(task: Task): string {
    match task
    case Collecting(run) => run.file.id
    case Checking(check) => check.file.id
  }

  predicate IsOver(task: Task) {
    match task
    case Collecting(run) => run.phase.Over?
    case Checking(check) => check.phase.Recorded?
  }

  // ---- What one turn leaves alone ----

  /** Everything but the rows of this log file and new history rows is as before. */
  ghost predicate TouchedOnly(t: Tables, t': Tables, file: string) {
    t'.servers == t.servers && t'.logFiles.Keys == t.logFiles.Keys &&
    (forall other :: other != file && other in t.logFiles ==> t'.logFiles[other] == t.logFiles[other]) &&
    (forall other :: other != file ==> View(t', other) == View(t, other)) &&
    (forall id :: id in t.checks ==> id in t'.checks && t'.checks[id] == t.checks[id])
  }

  lemma {:induction false} CheckRowChangesNoView(t: Tables, row: CheckResult, file: string)
    ensures View(PutCheck(t, row), file) == View(t, file)
  {
    EntryRowsDependOn(t, PutCheck(t, row), file);
    ChunkRowsDependOn(t, PutCheck(t, row), file);
  }

  /** The history after a turn: as before, or with the row of a check that recorded its report just now. */
  ghost predicate HistoryGrows(t: Tables, task: Task, t': Tables, task': Task) {
    match task'
    case Collecting(_) => t'.checks == t.checks
    case Checking(check') =>
      t'.checks == if check'.phase.Recorded? && !IsOver(task) then t.checks[check'.phase.row.id := check'.phase.row]
                   else t.checks
  }

  // ---- Where a task stands ----

  ghost predicate TaskFits(t: Tables, task: Task) {
    match task
    case Collecting(run) => Fits(t, run)
    case Checking(check) => CheckFits(t, check)
  }

  /** The same task, somewhere on its way. */
  ghost predicate Same(task0: Task, task: Task) {
    match task0
    case Collecting(run0) => task.Collecting? && task.run == run0.(phase := task.run.phase)
    case Checking(check0) => task.Checking? && task.check == check0.(phase := task.check.phase)
  }

  /** The rest of a run is the run alone. */
  ghost predicate RunOnTrack(t0: Tables, t: Tables, run: Run) {
    Fits(t, run) && Rest(run.cfg, run.c, Now(run, t)) == Collect(run.cfg, View(t0, run.file.id), run.c)
  }

  /** The log file is as at the start, the report to come is the report alone, and once recorded it stands in the
      history. */
  ghost predicate CheckOnTrack(t0: Tables, t: Tables, check: CheckRun) {
    var fs := View(t0, check.file.id);
    CheckFits(t, check) && View(t, check.file.id) == fs &&
    CheckRest(check.q, fs, check.phase) ==
      EndToEnd.Check(check.q.h, fs.(identity := check.file.identity), check.q.inspected, check.q.now) &&
    (check.phase.Recorded? ==>
       IsRowOf(t0, check, check.phase.report, check.phase.row) && check.phase.row.id in t.checks &&
       t.checks[check.phase.row.id] == check.phase.row)
  }

  ghost function LeftOf(t: Tables, task: Task): nat {
    match task
    case Collecting(run) => if ValidConfig(run.cfg) then TurnsLeft(run.cfg, run.c, Now(run, t)) else 0
    case Checking(check) => CheckTurnsLeft(View(t, check.file.id), check.phase)
  }

  ghost predicate OnTrack(t0: Tables, task0: Task, t: Tables, task: Task, turns: nat) {
    Same(task0, task) && (IsOver(task) || LeftOf(t, task) + turns <= LeftOf(t0, task0)) &&
    match task
    case Collecting(run) => RunOnTrack(t0, t, run)
    case Checking(check) => CheckOnTrack(t0, t, check)
  }

  // ---- Another task's turn ----

  lemma {:induction false} OtherTaskStaysOnTrack(t0: Tables, task0: Task, t: Tables, task: Task, turns: nat, t': Tables,
                                                 file: string)
    requires OnTrack(t0, task0, t, task, turns) && TouchedOnly(t, t', file) && FileOf(task) != file
    ensures OnTrack(t0, task0, t', task, turns)
  {
    assert View(t', FileOf(task)) == View(t, FileOf(task));
  }

  // ---- Its own turn ----

  ghost predicate TookOwnTurn(t: Tables, task: Task, t': Tables, task': Task) {
    match task
    case Collecting(run) => ValidConfig(run.cfg) && task'.Collecting? && TookTurn(t, run, t', task'.run)
    case Checking(check) => task'.Checking? && TookCheckTurn(t, check, t', task'.check)
  }

  lemma {:induction false} RunTurnStaysOnTrack(t0: Tables, t: Tables, run: Run, t': Tables, run': Run)
    requires RunOnTrack(t0, t, run) && TookTurn(t, run, t', run')
    ensures RunOnTrack(t0, t', run') && (!run.phase.Over? ==> LeftOf(t', Collecting(run')) < LeftOf(t, Collecting(run)))
    ensures run.phase.Over? ==> run'.phase.Over?
  {
    RunTurnKeepsRest(t, run, t', run');
    RunTurnCounts(t, run, t', run');
  }

  lemma {:induction false} RunTurnKeepsRest(t: Tables, run: Run, t': Tables, run': Run)
    requires ValidConfig(run.cfg) && TookTurn(t, run, t', run')
    ensures Rest(run'.cfg, run'.c, Now(run', t')) == Rest(run.cfg, run.c, Now(run, t))
  {
    TurnKeepsRest(run.cfg, run.c, Now(run, t));
  }

  lemma {:induction false} RunTurnCounts(t: Tables, run: Run, t': Tables, run': Run)
    requires ValidConfig(run.cfg) && TookTurn(t, run, t', run')
    ensures run.phase.Over? ==> run'.phase.Over?
    ensures !run.phase.Over? ==> LeftOf(t', Collecting(run')) < LeftOf(t, Collecting(run))
  {
    if !run.phase.Over? {
      TurnCounts(run.cfg, run.c, Now(run, t));
    }
  }

  lemma {:induction false} LookStaysOnTrack(t0: Tables, t: Tables, check: CheckRun, check': CheckRun)
    requires CheckOnTrack(t0, t, check) && TookCheckTurn(t, check, t, check')
    requires !check.phase.Recording? && !check.phase.Recorded?
    ensures CheckOnTrack(t0, t, check') && LeftOf(t, Checking(check')) < LeftOf(t, Checking(check))
  {
    CheckTurnKeepsRest(check.q, View(t, check.file.id), check.phase);
    CheckTurnCounts(check.q, View(t, check.file.id), check.phase);
    assert !check'.phase.Recorded?;
  }

  lemma {:induction false} RecordStaysOnTrack(t0: Tables, t: Tables, check: CheckRun, t': Tables, check': CheckRun)
    requires CheckOnTrack(t0, t, check) && TookCheckTurn(t, check, t', check') && check.phase.Recording?
    requires forall id :: id in t0.checks ==> id in t.checks
    ensures CheckOnTrack(t0, t', check')
  {
    CheckRowChangesNoView(t, check'.phase.row, check.file.id);
  }

  lemma {:induction false} OwnTurnStaysOnTrack(t0: Tables, task0: Task, t: Tables, task: Task, turns: nat, t': Tables,
                                               task': Task)
    requires OnTrack(t0, task0, t, task, turns) && TookOwnTurn(t, task, t', task')
    requires forall id :: id in t0.checks ==> id in t.checks
    ensures OnTrack(t0, task0, t', task', turns + 1)
  {
    match task
    case Collecting(run) => RunTurnStaysOnTrack(t0, t, run, t', task'.run);
    case Checking(check) =>
      if check.phase.Recording? {
        RecordStaysOnTrack(t0, t, check, t', task'.check);
      } else if !check.phase.Recorded? {
        LookStaysOnTrack(t0, t, check, task'.check);
      }
  }

  lemma {:induction false} OthersUntouchedIsEnough(t: Tables, t': Tables, file: string)
    requires CollectorService.OthersUntouched(t, t', file)
    ensures TouchedOnly(t, t', file) && t'.checks == t.checks
  {
  }

  lemma {:induction false} RecordTouchesOnly(t: Tables, row: CheckResult, file: string)
    requires row.id !in t.checks
    ensures TouchedOnly(t, PutCheck(t, row), file)
  {
    forall x ensures View(PutCheck(t, row), x) == View(t, x) {
      CheckRowChangesNoView(t, row, x);
    }
  }

  lemma {:induction false} CheckTurnTouchesOnly(t: Tables, check: CheckRun, t': Tables, check': CheckRun)
    requires TookCheckTurn(t, check, t', check')
    ensures TouchedOnly(t, t', check.file.id) && HistoryGrows(t, Checking(check), t', Checking(check'))
  {
    if check.phase.Recording? {
      RecordTouchesOnly(t, check'.phase.row, check.file.id);
    } else {
      assert t' == t && TouchedOnly(t, t, check.file.id);
      assert check'.phase.Recorded? ==> check.phase.Recorded?;
    }
  }

  lemma {:induction false} OwnTurnTouchesOnly(t: Tables, task: Task, t': Tables, task': Task)
    requires TookOwnTurn(t, task, t', task')
    ensures TouchedOnly(t, t', FileOf(task)) && HistoryGrows(t, task, t', task')
  {
    match task
    case Collecting(run) => OthersUntouchedIsEnough(t, t', run.file.id);
    case Checking(check) => CheckTurnTouchesOnly(t, check, t', task'.check);
  }

  /** A turn is the same task's, and a task that is over stays as it is. */
  lemma {:induction false} TurnsKeepTheTask(t: Tables, task: Task, t': Tables, task': Task)
    requires TookOwnTurn(t, task, t', task')
    ensures FileOf(task') == FileOf(task) && (task.Collecting? <==> task'.Collecting?)
    ensures IsOver(task) && task.Checking? ==> task' == task
  {
  }

  // ---- Any interleaving ----

  function Turns(schedule: seq<nat>, i: nat): nat {
    if schedule == [] then 0
    else Turns(schedule[..|schedule| - 1], i) + if schedule[|schedule| - 1] == i then 1 else 0
  }

  ghost predicate DistinctFiles(tasks: seq<Task>) {
    forall i, j :: 0 <= i < j < |tasks| ==> FileOf(tasks[i]) != FileOf(tasks[j])
  }

  ghost predicate Starts(t: Tables, task: Task) {
    TaskFits(t, task) &&
    match task
    case Collecting(run) => run.phase.Beginning?
    case Checking(check) => check.phase.Inspecting?
  }

  ghost predicate AllOnTrack(t0: Tables, tasks0: seq<Task>, t: Tables, tasks: seq<Task>, schedule: seq<nat>) {
    |tasks| == |tasks0| && forall i :: 0 <= i < |tasks| ==> OnTrack(t0, tasks0[i], t, tasks[i], Turns(schedule, i))
  }

  predicate IsRowAmong(tasks: seq<Task>, row: CheckResult) {
    exists i :: 0 <= i < |tasks| && tasks[i].Checking? && tasks[i].check.phase.Recorded? &&
      tasks[i].check.phase.row == row
  }

  /** No task is about this log file. */
  ghost predicate Stranger(tasks: seq<Task>, file: string) {
    forall i :: 0 <= i < |tasks| ==> FileOf(tasks[i]) != file
  }

  /** Log files that no task is about are untouched, and the history has the old rows and those of checks that recorded
      their report. */
  ghost predicate RestUntouched(t0: Tables, t: Tables, tasks: seq<Task>) {
    t.servers == t0.servers && t.logFiles.Keys == t0.logFiles.Keys &&
    (forall x :: Stranger(tasks, x) ==> View(t, x) == View(t0, x)) &&
    (forall id :: id in t0.checks ==> id in t.checks && t.checks[id] == t0.checks[id]) &&
    (forall id :: id in t.checks && id !in t0.checks ==> IsRowAmong(tasks, t.checks[id]))
  }

  lemma {:induction false} TurnKeepsAllOnTrack(t0: Tables, tasks0: seq<Task>, t: Tables, tasks: seq<Task>,
                                               schedule: seq<nat>, t': Tables, k: nat, task': Task)
    requires AllOnTrack(t0, tasks0, t, tasks, schedule) && DistinctFiles(tasks0) && k < |tasks|
    requires TookOwnTurn(t, tasks[k], t', task') && RestUntouched(t0, t, tasks)
    ensures AllOnTrack(t0, tasks0, t', tasks[k := task'], schedule + [k])
  {
    assert (schedule + [k])[..|schedule|] == schedule;
    assert OnTrack(t0, tasks0[k], t, tasks[k], Turns(schedule, k));
    OwnTurnTouchesOnly(t, tasks[k], t', task');
    forall i | 0 <= i < |tasks| ensures OnTrack(t0, tasks0[i], t', tasks[k := task'][i], Turns(schedule + [k], i)) {
      assert OnTrack(t0, tasks0[i], t, tasks[i], Turns(schedule, i));
      if i == k {
        OwnTurnStaysOnTrack(t0, tasks0[k], t, tasks[k], Turns(schedule, k), t', task');
      } else {
        assert FileOf(tasks0[i]) != FileOf(tasks0[k]);
        OtherTaskStaysOnTrack(t0, tasks0[i], t, tasks[i], Turns(schedule, i), t', FileOf(tasks[k]));
      }
    }
  }

  lemma {:induction false} IdleTurn(t0: Tables, tasks0: seq<Task>, t: Tables, tasks: seq<Task>, schedule: seq<nat>,
                                    k: nat)
    requires AllOnTrack(t0, tasks0, t, tasks, schedule) && k >= |tasks|
    ensures AllOnTrack(t0, tasks0, t, tasks, schedule + [k])
  {
    assert (schedule + [k])[..|schedule|] == schedule;
    forall i | 0 <= i < |tasks| ensures OnTrack(t0, tasks0[i], t, tasks[i], Turns(schedule + [k], i)) {
      assert OnTrack(t0, tasks0[i], t, tasks[i], Turns(schedule, i));
    }
  }

  lemma {:induction false} StrangersStay(t0: Tables, t: Tables, tasks: seq<Task>, t': Tables, k: nat, task': Task)
    requires RestUntouched(t0, t, tasks) && k < |tasks| && TouchedOnly(t, t', FileOf(tasks[k]))
    requires FileOf(task') == FileOf(tasks[k])
    ensures forall x :: Stranger(tasks[k := task'], x) ==> View(t', x) == View(t0, x)
  {
    var tasks' := tasks[k := task'];
    forall x | Stranger(tasks', x) ensures View(t', x) == View(t0, x) {
      assert FileOf(tasks'[k]) != x;
      forall i | 0 <= i < |tasks| ensures FileOf(tasks[i]) != x {
        assert FileOf(tasks'[i]) != x;
      }
    }
  }

  lemma {:induction false} HistoryStays(t0: Tables, t: Tables, tasks: seq<Task>, t': Tables, k: nat, task': Task)
    requires RestUntouched(t0, t, tasks) && k < |tasks|
    requires TouchedOnly(t, t', FileOf(tasks[k])) && HistoryGrows(t, tasks[k], t', task')
    requires (tasks[k].Collecting? <==> task'.Collecting?) &&
             (IsOver(tasks[k]) && tasks[k].Checking? ==> task' == tasks[k])
    ensures forall id :: id in t0.checks ==> id in t'.checks && t'.checks[id] == t0.checks[id]
    ensures forall id :: id in t'.checks && id !in t0.checks ==> IsRowAmong(tasks[k := task'], t'.checks[id])
  {
    forall id | id in t'.checks && id !in t0.checks ensures IsRowAmong(tasks[k := task'], t'.checks[id]) {
      HistoryRowIsAmong(t0, t, tasks, t', k, task', id);
    }
  }

  lemma {:induction false} RestStaysUntouched(t0: Tables, t: Tables, tasks: seq<Task>, t': Tables, k: nat, task': Task)
    requires RestUntouched(t0, t, tasks) && k < |tasks| && TookOwnTurn(t, tasks[k], t', task')
    ensures RestUntouched(t0, t', tasks[k := task'])
  {
    assert TouchedOnly(t, t', FileOf(tasks[k])) && HistoryGrows(t, tasks[k], t', task') by {
      OwnTurnTouchesOnly(t, tasks[k], t', task');
    }
    TurnsKeepTheTask(t, tasks[k], t', task');
    StrangersStay(t0, t, tasks, t', k, task');
    HistoryStays(t0, t, tasks, t', k, task');
  }

  lemma {:induction false} HistoryRowIsAmong(t0: Tables, t: Tables, tasks: seq<Task>, t': Tables, k: nat, task': Task,
                                             id: string)
    requires RestUntouched(t0, t, tasks) && k < |tasks| && HistoryGrows(t, tasks[k], t', task')
    requires (tasks[k].Collecting? <==> task'.Collecting?) &&
             (IsOver(tasks[k]) && tasks[k].Checking? ==> task' == tasks[k])
    requires id in t'.checks && id !in t0.checks
    ensures IsRowAmong(tasks[k := task'], t'.checks[id])
  {
    var tasks' := tasks[k := task'];
    if id in t.checks && t'.checks[id] == t.checks[id] {
      var i :| 0 <= i < |tasks| && tasks[i].Checking? && tasks[i].check.phase.Recorded? &&
               tasks[i].check.phase.row == t.checks[id];
      assert tasks'[i] == tasks[i];
    } else {
      assert tasks'[k] == task' && task'.check.phase.row == t'.checks[id];
    }
  }

  method TakeTaskTurn(store: Store, task: Task) returns (task': Task)
    requires store.Valid() && TaskFits(store.State(), task)
    modifies store
    ensures store.Valid()
    ensures TookOwnTurn(old(store.State()), task, store.State(), task')
  {
    match task
    case Collecting(run) =>
      var run' := TakeTurn(store, run);
      task' := Collecting(run');
    case Checking(check) =>
      var check' := TakeCheckTurn(store, check);
      task' := Checking(check');
  }

  method NextTurn(store: Store, ghost t0: Tables, ghost tasks0: seq<Task>, tasks: seq<Task>, ghost done: seq<nat>,
                  k: nat)
    returns (tasks': seq<Task>)
    requires store.Valid() && DistinctFiles(tasks0) && AllOnTrack(t0, tasks0, store.State(), tasks, done)
    requires RestUntouched(t0, store.State(), tasks)
    modifies store
    ensures store.Valid() && AllOnTrack(t0, tasks0, store.State(), tasks', done + [k])
    ensures RestUntouched(t0, store.State(), tasks')
  {
    ghost var t := store.State();
    if k >= |tasks| {
      IdleTurn(t0, tasks0, t, tasks, done, k);
      return tasks;
    }
    assert TaskFits(t, tasks[k]) by {
      assert OnTrack(t0, tasks0[k], t, tasks[k], Turns(done, k));
    }
    var task' := TakeTaskTurn(store, tasks[k]);
    TurnKeepsAllOnTrack(t0, tasks0, t, tasks, done, store.State(), k, task');
    RestStaysUntouched(t0, t, tasks, store.State(), k, task');
    tasks' := tasks[k := task'];
  }

  // ---- How they end ----

  /** The task is over and came to what it would have come to alone: a run left its log file and reported; a check left
      the log file as it was, reported, and recorded exactly that. */
  ghost predicate EndedAsAlone(t0: Tables, task0: Task, t: Tables, task: Task) {
    match task0
    case Collecting(run0) =>
      task.Collecting? && task.run.phase.Over? && ValidConfig(run0.cfg) &&
      RunResult(View(t, run0.file.id), task.run.phase.outcome) == Collect(run0.cfg, View(t0, run0.file.id), run0.c)
    case Checking(check0) =>
      task.Checking? && task.check.phase.Recorded? && View(t, check0.file.id) == View(t0, check0.file.id) &&
      task.check.phase.report == EndToEnd.Check(check0.q.h, View(t0, check0.file.id).(identity := check0.file.identity),
                                                check0.q.inspected, check0.q.now) &&
      IsRowOf(t0, check0, task.check.phase.report, task.check.phase.row) &&
      Verdicts.RowTells(check0.q.h, View(t0, check0.file.id), check0.file, check0.q.inspected, check0.q.now,
                        check0.readError, task.check.phase.row) &&
      task.check.phase.row.id in t.checks && t.checks[task.check.phase.row.id] == task.check.phase.row
  }

  ghost predicate AllEnd(t0: Tables, tasks0: seq<Task>, t: Tables, tasks: seq<Task>, schedule: seq<nat>) {
    |tasks| == |tasks0| && forall i :: 0 <= i < |tasks| ==>
      (IsOver(tasks[i]) ==> EndedAsAlone(t0, tasks0[i], t, tasks[i])) &&
      (LeftOf(t0, tasks0[i]) <= Turns(schedule, i) ==> IsOver(tasks[i]))
  }

  lemma {:induction false} RecordedRowTells(t0: Tables, t: Tables, check: CheckRun)
    requires CheckOnTrack(t0, t, check) && check.phase.Recorded? && Consistent(t0)
    ensures Verdicts.RowTells(check.q.h, View(t0, check.file.id), check.file, check.q.inspected, check.q.now,
                              check.readError, check.phase.row)
  {
    IntegrityService.ViewAscends(t0, check.file.id);
    Verdicts.CarriedReportTells(check.q.h, View(t0, check.file.id), check.file, check.q.inspected, check.q.now,
                                check.readError, check.phase.row);
  }

  lemma {:induction false} RunEnded(t0: Tables, t: Tables, run: Run)
    requires RunOnTrack(t0, t, run) && run.phase.Over?
    ensures RunResult(View(t, run.file.id), run.phase.outcome) == Collect(run.cfg, View(t0, run.file.id), run.c)
  {
  }

  lemma {:induction false} CheckEnded(t0: Tables, t: Tables, check: CheckRun)
    requires CheckOnTrack(t0, t, check) && check.phase.Recorded?
    ensures View(t, check.file.id) == View(t0, check.file.id)
    ensures check.phase.report == EndToEnd.Check(check.q.h, View(t0, check.file.id).(identity := check.file.identity),
                                                 check.q.inspected, check.q.now)
  {
  }

  lemma {:induction false} TaskEndedAsAlone(t0: Tables, task0: Task, t: Tables, task: Task, turns: nat)
    requires OnTrack(t0, task0, t, task, turns) && Consistent(t0) && IsOver(task)
    ensures EndedAsAlone(t0, task0, t, task)
  {
    match task
    case Collecting(run) => RunEnded(t0, t, run);
    case Checking(check) =>
      CheckEnded(t0, t, check);
      RecordedRowTells(t0, t, check);
  }

  lemma {:induction false} TurnsAreLeft(t0: Tables, task0: Task, t: Tables, task: Task, turns: nat)
    requires OnTrack(t0, task0, t, task, turns) && !IsOver(task)
    ensures LeftOf(t, task) > 0
  {
    if task.Collecting? {
      TurnCounts(task.run.cfg, task.run.c, Now(task.run, t));
    }
  }

  lemma {:induction false} TaskEnds(t0: Tables, task0: Task, t: Tables, task: Task, turns: nat)
    requires OnTrack(t0, task0, t, task, turns) && Consistent(t0)
    ensures IsOver(task) ==> EndedAsAlone(t0, task0, t, task)
    ensures LeftOf(t0, task0) <= turns ==> IsOver(task)
  {
    if IsOver(task) {
      TaskEndedAsAlone(t0, task0, t, task, turns);
    } else {
      TurnsAreLeft(t0, task0, t, task, turns);
    }
  }

  lemma {:induction false} AllTasksEnd(t0: Tables, tasks0: seq<Task>, t: Tables, tasks: seq<Task>, schedule: seq<nat>)
    requires AllOnTrack(t0, tasks0, t, tasks, schedule) && Consistent(t0)
    ensures AllEnd(t0, tasks0, t, tasks, schedule)
  {
    forall i | 0 <= i < |tasks|
      ensures IsOver(tasks[i]) ==> EndedAsAlone(t0, tasks0[i], t, tasks[i])
      ensures LeftOf(t0, tasks0[i]) <= Turns(schedule, i) ==> IsOver(tasks[i])
    {
      assert OnTrack(t0, tasks0[i], t, tasks[i], Turns(schedule, i));
      TaskEnds(t0, tasks0[i], t, tasks[i], Turns(schedule, i));
    }
  }

  lemma {:induction false} AllStartOnTrack(t: Tables, tasks: seq<Task>)
    requires forall i :: 0 <= i < |tasks| ==> Starts(t, tasks[i])
    ensures AllOnTrack(t, tasks, t, tasks, []) && RestUntouched(t, t, tasks)
  {
    forall i | 0 <= i < |tasks| ensures OnTrack(t, tasks[i], t, tasks[i], Turns([], i)) {
      assert Starts(t, tasks[i]);
    }
  }

  /** The tasks take turns in any order, each turn one repository call. However they interleave, a task that is over has
      come to what it would have come to alone, it is over once it had as many turns as it needs alone, log files that
      no task is about stay as they were, and the history gains exactly the rows of the checks that are over. */
  method RunInterleaved(store: Store, tasks: seq<Task>, schedule: seq<nat>) returns (after: seq<Task>)
    requires store.Valid() && DistinctFiles(tasks) && forall i :: 0 <= i < |tasks| ==> Starts(store.State(), tasks[i])
    modifies store
    ensures store.Valid() && AllEnd(old(store.State()), tasks, store.State(), after, schedule)
    ensures RestUntouched(old(store.State()), store.State(), after)
  {
    ghost var t := store.State();
    after := tasks;
    assert schedule[..0] == [];
    AllStartOnTrack(t, tasks);
    for n := 0 to |schedule|
      invariant store.Valid() && AllOnTrack(t, tasks, store.State(), after, schedule[..n])
      invariant RestUntouched(t, store.State(), after)
    {
      assert schedule[..n + 1] == schedule[..n] + [schedule[n]];
      after := NextTurn(store, t, tasks, after, schedule[..n], schedule[n]);
    }
    assert schedule[..|schedule|] == schedule;
    AllTasksEnd(t, tasks, store.State(), after, schedule);
  }
}

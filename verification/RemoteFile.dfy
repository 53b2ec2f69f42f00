/** Collecting one remote file, with the collector's reads interleaved with everything that happens to the file. */
module RemoteFile {
  import opened Prelude
  import opened Models
  import opened Hashing
  import opened Text
  import opened Chunking
  import opened Batches
  import opened Collector
  import opened StoreFacts
  import opened Integrity
  import opened FastPath
  import opened History
  import opened EndToEnd
  import opened FileReadings

  // ---- The file and the collector side by side ----

  datatype Remote = Remote(identity: FileIdentity, content: seq<string>)

  /** `pending` is the identity a run in progress has inspected (None inside Some: inspection failed). The other fields
      are history variables: whether the file was replaced since its rows were stored, what lines held that were last
      in the read that stored them, and every content the path has had. */
  datatype World = World(fs: FileStore, remote: Remote, pending: Option<Option<FileIdentity>>,
                         stale: bool, tails: map<int, string>, versions: set<seq<string>>)

  /** The file grows, is replaced by another one, or is cut and rewritten in place; a run reads its lines some time
      after it inspected the identity. */
  datatype Event =
    | Append(rest: string, lines: seq<string>, size: int, modTime: int)
    | Rotate(identity: FileIdentity, content: seq<string>)
    | Truncate(content: seq<string>, size: int, modTime: int)
    | Inspect(readable: bool)
    | Read(readable: bool, budget: nat)

  function Start(remote: Remote): World {
    World(EMPTY_STORE, remote, None, false, map[], {remote.content})
  }

  function Replaced(w: World, remote: Remote): World {
    w.(remote := remote, stale := w.stale || w.fs.entries != [], versions := w.versions + {remote.content})
  }

  function ReadCircumstances(w: World, readable: bool, budget: nat): Circumstances
    requires w.pending.Some?
  {
    Circumstances(w.pending.value, Reader(w.remote.content, readable), budget)
  }

  ghost function ReadResult(cfg: Config, w: World, readable: bool, budget: nat): RunResult
    requires ValidConfig(cfg) && w.pending.Some?
  {
    Collect(cfg, w.fs, ReadCircumstances(w, readable, budget))
  }

  /** A run that could read its lines. */
  ghost function AfterRead(cfg: Config, w: World, budget: nat): World
    requires ValidConfig(cfg) && w.pending.Some?
  {
    var c := ReadCircumstances(w, true, budget);
    var fs := Collect(cfg, w.fs, c).fs;
    var tails := if Resets(w.fs, c) then map[] else w.tails;
    w.(fs := fs, pending := None, stale := w.stale && !Resets(w.fs, c),
       tails := TailsOf(w.remote.content, tails, MaxLine(BaseStore(w.fs, c).entries), MaxLine(fs.entries)))
  }

  /** Events that cannot happen (a second inspection, a read without one, growth to a smaller size) change nothing. */
  ghost function Step(cfg: Config, w: World, e: Event): World
    requires ValidConfig(cfg)
  {
    match e
    case Append(rest, lines, size, modTime) =>
      if size < w.remote.identity.sizeBytes then w else
        var remote := Remote(w.remote.identity.(sizeBytes := size, modTimeUnix := modTime),
                             Grown(w.remote.content, rest, lines));
        w.(remote := remote, versions := w.versions + {remote.content})
    case Rotate(identity, content) => Replaced(w, Remote(identity, content))
    case Truncate(content, size, modTime) =>
      Replaced(w, Remote(w.remote.identity.(sizeBytes := size, modTimeUnix := modTime), content))
    case Inspect(readable) =>
      if w.pending.Some? then w else w.(pending := Some(if readable then Some(w.remote.identity) else None))
    case Read(readable, budget) =>
      if w.pending.None? then w
      else if !readable then w.(pending := None)
      else AfterRead(cfg, w, budget)
  }

  /** The world after a history of events. */
  ghost function After(cfg: Config, remote: Remote, events: seq<Event>): World
    requires ValidConfig(cfg)
  {
    if events == [] then Start(remote)
    else Step(cfg, After(cfg, remote, events[..|events| - 1]), events[|events| - 1])
  }

  /** Each event met a world in which `rule` allows it. */
  ghost predicate Follows(cfg: Config, remote: Remote, events: seq<Event>, rule: (World, Event) -> bool)
    requires ValidConfig(cfg)
  {
    events == [] ||
    (Follows(cfg, remote, events[..|events| - 1], rule) &&
     rule(After(cfg, remote, events[..|events| - 1]), events[|events| - 1]))
  }

  // ---- What every history keeps ----

  /** The store is well grouped, and unless the file was replaced its rows are readings of the file. */
  ghost predicate Sound(cfg: Config, w: World) {
    WellGrouped(cfg, w.fs) && w.remote.content in w.versions && (w.stale ==> w.fs.entries != []) &&
    (!w.stale ==> Readings(cfg, w.fs.entries, w.remote.content, w.tails))
  }

  lemma {:induction false} WellGroupedAscends(cfg: Config, fs: FileStore)
    requires WellGrouped(cfg, fs)
    ensures StrictlyAscending(fs.entries)
  {
    var groups :| Grouped(cfg, fs, groups);
  }

  lemma {:induction false} SeenIsSorted(content: seq<string>, n: int)
    ensures SortedLines(Seen(content, n))
  {
  }

  lemma {:induction false} FileReadsAreSorted(inspected: Option<FileIdentity>, content: seq<string>, budget: nat)
    ensures SortedReads(Circumstances(inspected, Reader(content, true), budget))
  {
    var c := Circumstances(inspected, Reader(content, true), budget);
    forall n ensures SortedLines(c.read(n).value) {
      SeenIsSorted(content, n);
    }
  }

  lemma {:induction false} ReadKeepsGroups(cfg: Config, w: World, budget: nat)
    requires ValidConfig(cfg) && WellGrouped(cfg, w.fs) && w.pending.Some?
    ensures WellGrouped(cfg, AfterRead(cfg, w, budget).fs)
  {
    FileReadsAreSorted(w.pending.value, w.remote.content, budget);
    CollectKeepsGroups(cfg, w.fs, ReadCircumstances(w, true, budget));
  }

  /** A run on readings of the file, or one that starts over, leaves readings of the file. */
  lemma {:induction false} ReadKeepsReadings(cfg: Config, w: World, budget: nat)
    requires ValidConfig(cfg) && Sound(cfg, w) && w.pending.Some?
    requires !w.stale || Resets(w.fs, ReadCircumstances(w, true, budget))
    ensures var w' := AfterRead(cfg, w, budget);
            !w'.stale && Readings(cfg, w'.fs.entries, w.remote.content, w'.tails)
  {
    var c := ReadCircumstances(w, true, budget);
    var base, content := BaseStore(w.fs, c), w.remote.content;
    var tails := if Resets(w.fs, c) then map[] else w.tails;
    WellGroupedAscends(cfg, w.fs);
    var m := RunOnFile(cfg, w.fs, w.pending.value, content, budget);
    assert Readings(cfg, base.entries, content, tails);
    ReadingsAscend(cfg, base.entries, content, tails);
    ReadOn(cfg, base.entries, content, tails, m);
    var w' := AfterRead(cfg, w, budget);
    var tails' := if m > 0 then TailsAfter(content, tails, |w'.fs.entries|) else tails;
    ReadingsAscend(cfg, w'.fs.entries, content, tails');
    assert w'.tails == tails';
  }

  lemma {:induction false} AppendKeepsSound(cfg: Config, w: World, e: Event)
    requires ValidConfig(cfg) && Sound(cfg, w) && e.Append?
    ensures Sound(cfg, Step(cfg, w, e))
  {
    if !w.stale {
      GrowthKeepsReadings(cfg, w.fs.entries, w.remote.content, w.tails, e.rest, e.lines);
    }
  }

  lemma {:induction false} ReplacementKeepsSound(cfg: Config, w: World, remote: Remote)
    requires Sound(cfg, w)
    ensures Sound(cfg, Replaced(w, remote))
  {
  }

  lemma {:induction false} StaleRowsStay(cfg: Config, w: World, budget: nat)
    requires ValidConfig(cfg) && Sound(cfg, w) && w.pending.Some? && w.stale
    requires !Resets(w.fs, ReadCircumstances(w, true, budget))
    ensures AfterRead(cfg, w, budget).fs.entries != []
  {
    WellGroupedAscends(cfg, w.fs);
    var m := RunOnFile(cfg, w.fs, w.pending.value, w.remote.content, budget);
  }

  lemma {:induction false} StepKeepsSound(cfg: Config, w: World, e: Event)
    requires ValidConfig(cfg) && Sound(cfg, w)
    ensures Sound(cfg, Step(cfg, w, e))
  {
    match e
    case Append(_, _, _, _) => AppendKeepsSound(cfg, w, e);
    case Rotate(identity, content) => ReplacementKeepsSound(cfg, w, Remote(identity, content));
    case Truncate(content, size, modTime) =>
      ReplacementKeepsSound(cfg, w, Remote(w.remote.identity.(sizeBytes := size, modTimeUnix := modTime), content));
    case Inspect(_) =>
    case Read(readable, budget) =>
      if w.pending.Some? && readable {
        ReadKeepsGroups(cfg, w, budget);
        if w.stale && !Resets(w.fs, ReadCircumstances(w, true, budget)) {
          StaleRowsStay(cfg, w, budget);
        } else {
          ReadKeepsReadings(cfg, w, budget);
        }
      }
  }

  /** Whatever happens to the file, and wherever runs fail, while its rows are not stale they are the first lines of the
      present file, each as some read saw it. */
  lemma {:induction false} HistoriesAreSound(cfg: Config, remote: Remote, events: seq<Event>)
    requires ValidConfig(cfg)
    ensures Sound(cfg, After(cfg, remote, events))
  {
    if events == [] {
      EmptyStoreIsWellGrouped(cfg, NO_IDENTITY);
    } else {
      HistoriesAreSound(cfg, remote, events[..|events| - 1]);
      StepKeepsSound(cfg, After(cfg, remote, events[..|events| - 1]), events[|events| - 1]);
    }
  }

  // ---- A file that only grows ----

  predicate OnlyGrows(w: World, e: Event) {
    !e.Rotate? && !e.Truncate?
  }

  /** The same source at an earlier time. */
  predicate Older(a: FileIdentity, b: FileIdentity) {
    a.(sizeBytes := 0, modTimeUnix := 0) == b.(sizeBytes := 0, modTimeUnix := 0) && a.sizeBytes <= b.sizeBytes
  }

  lemma {:induction false} GrowthIsNotRotation(previous: FileIdentity, current: FileIdentity)
    requires previous == NO_IDENTITY || Older(previous, current)
    ensures !ShouldReset(previous, current)
  {
  }

  ghost predicate Unrotated(w: World) {
    !w.stale && (w.fs.identity == NO_IDENTITY || Older(w.fs.identity, w.remote.identity)) &&
    (w.pending.Some? && w.pending.value.Some? ==>
       Older(w.pending.value.value, w.remote.identity) &&
       (w.fs.identity == NO_IDENTITY || Older(w.fs.identity, w.pending.value.value)))
  }

  lemma {:induction false} UnrotatedNeverResets(w: World, readable: bool, budget: nat)
    requires Unrotated(w) && w.pending.Some?
    ensures !Resets(w.fs, ReadCircumstances(w, readable, budget))
  {
    if w.pending.value.Some? {
      GrowthIsNotRotation(w.fs.identity, w.pending.value.value);
    }
  }

  lemma {:induction false} GrowthKeepsUnrotated(cfg: Config, w: World, e: Event)
    requires ValidConfig(cfg) && Sound(cfg, w) && Unrotated(w) && OnlyGrows(w, e)
    ensures Unrotated(Step(cfg, w, e))
  {
    if e.Read? && e.readable && w.pending.Some? {
      UnrotatedNeverResets(w, true, e.budget);
      WellGroupedAscends(cfg, w.fs);
      var m := RunOnFile(cfg, w.fs, w.pending.value, w.remote.content, e.budget);
    }
  }

  /** While a file only grows, nothing is ever reset, and the stored rows are always its first lines. */
  lemma {:induction false} GrowingFileIsMirrored(cfg: Config, remote: Remote, events: seq<Event>)
    requires ValidConfig(cfg) && Follows(cfg, remote, events, OnlyGrows)
    ensures var w := After(cfg, remote, events);
            Sound(cfg, w) && Unrotated(w) && Readings(cfg, w.fs.entries, w.remote.content, w.tails)
  {
    HistoriesAreSound(cfg, remote, events);
    if events != [] {
      var front := events[..|events| - 1];
      GrowingFileIsMirrored(cfg, remote, front);
      GrowthKeepsUnrotated(cfg, After(cfg, remote, front), events[|events| - 1]);
    }
  }

  // ---- What a check says about a growing file ----

  function Current(w: World): map<int, string> {
    ContentByLine(Seen(w.remote.content, 0))
  }

  function CheckNow(cfg: Config, w: World, readable: bool): CheckReport {
    Check(cfg.hasher, w.fs, if readable then Some(w.remote.identity) else None, Some(Seen(w.remote.content, 0)))
  }

  /** Lines that were last when they were stored and read differently now. */
  predicate ReadsDifferently(w: World, n: int) {
    n in w.tails && 1 <= n <= |w.remote.content| && !ReadsAsStored(w.remote.content, w.tails, n)
  }

  /** None of the contents compared for these lines collide. */
  ghost predicate NoTailCollisions(h: Hasher, w: World) {
    forall n :: ReadsDifferently(w, n) ==>
      h.line(SeenLine(w.remote.content, n - 1)) != h.line(StoredAs(w.remote.content, w.tails, n))
  }

  lemma {:induction false} ContentOfNumbered(lines: seq<Line>, n: int)
    requires forall i :: 0 <= i < |lines| ==> lines[i].number == i + 1
    ensures n in ContentByLine(lines) <==> 1 <= n <= |lines|
    ensures 1 <= n <= |lines| ==> ContentByLine(lines)[n] == lines[n - 1].content
  {
    if lines != [] {
      ContentOfNumbered(lines[..|lines| - 1], n);
    }
  }

  /** A stored row differs from what a check reads exactly if it is one of these lines. */
  lemma {:induction false} RowDiffersIff(cfg: Config, w: World, i: nat)
    requires Readings(cfg, w.fs.entries, w.remote.content, w.tails) && i < |w.fs.entries|
    ensures w.fs.entries[i].lineNumber == i + 1
    ensures Differs(cfg.hasher, Current(w), w.fs.entries[i]) ==> ReadsDifferently(w, i + 1)
    ensures ReadsDifferently(w, i + 1) && NoTailCollisions(cfg.hasher, w) ==>
              Differs(cfg.hasher, Current(w), w.fs.entries[i])
  {
    var content := w.remote.content;
    assert ReadingAt(cfg, w.fs.entries, content, w.tails, i);
    ContentOfNumbered(Seen(content, 0), i + 1);
    assert Current(w)[i + 1] == SeenLine(content, i);
    if i + 1 !in w.tails {
      OtherLinesReadAsStored(cfg, w.fs.entries, content, w.tails, i + 1);
    }
  }

  lemma {:induction false} GrowingSourceIsNotReplaced(cfg: Config, w: World, readable: bool)
    requires Unrotated(w)
    ensures CheckNow(cfg, w, readable).Compared?
    ensures var tampered := FindTampered(cfg.hasher, w.fs.entries, w.fs.chunks, Current(w));
            CheckNow(cfg, w, readable) ==
              Compared(if tampered == [] then CheckOk else CheckTampered, |w.fs.entries|, tampered)
  {
    GrowthIsNotRotation(w.fs.identity, w.remote.identity);
  }

  /** No false alarm while every such line still reads the same, at any moment between, during or after runs, whatever
      hash collides. */
  lemma {:induction false} SettledFileChecksOk(cfg: Config, remote: Remote, events: seq<Event>, readable: bool)
    requires ValidConfig(cfg) && Follows(cfg, remote, events, OnlyGrows)
    requires forall n :: !ReadsDifferently(After(cfg, remote, events), n)
    ensures var w := After(cfg, remote, events);
            CheckNow(cfg, w, readable) == Compared(CheckOk, |w.fs.entries|, [])
  {
    var w := After(cfg, remote, events);
    GrowingFileIsMirrored(cfg, remote, events);
    GrowingSourceIsNotReplaced(cfg, w, readable);
    forall i | 0 <= i < |w.fs.entries| ensures !Differs(cfg.hasher, Current(w), w.fs.entries[i]) {
      RowDiffersIff(cfg, w, i);
    }
    WellGroupedAscends(cfg, w.fs);
    NothingDiffers(cfg.hasher, w.fs.entries, Current(w));
    var found := FindTampered(cfg.hasher, w.fs.entries, w.fs.chunks, Current(w));
    assert found == [] || found[0] in found;
    FastPathIsSound(cfg.hasher, w.fs.entries, w.fs.chunks, Current(w));
  }

  lemma {:induction false} ReadingsAreDigests(cfg: Config, entries: seq<LogEntry>, content: seq<string>,
                                              tails: map<int, string>)
    requires ProducesDigests(cfg.hasher) && Readings(cfg, entries, content, tails)
    ensures StoredDigests(entries)
  {
    forall i | 0 <= i < |entries| ensures NewlineFree(entries[i].hash) {
      assert ReadingAt(cfg, entries, content, tails, i);
    }
  }

  /** What a check reports about a file that only grew: exactly the lines that were last in the read that stored them
      and read differently now. */
  lemma {:induction false} GrowingFileCheckIsExact(cfg: Config, remote: Remote, events: seq<Event>, readable: bool)
    requires ValidConfig(cfg) && Follows(cfg, remote, events, OnlyGrows) && ProducesDigests(cfg.hasher)
    requires var w := After(cfg, remote, events);
             NoTailCollisions(cfg.hasher, w) && NoAggregateCollisions(cfg.hasher, w.fs, Current(w))
    ensures var w := After(cfg, remote, events);
            var report := CheckNow(cfg, w, readable);
            report.Compared? && (forall n :: Reported(report.tampered, n) <==> ReadsDifferently(w, n)) &&
            (report.status == CheckOk <==> forall n :: !ReadsDifferently(w, n))
  {
    var w := After(cfg, remote, events);
    GrowingFileIsMirrored(cfg, remote, events);
    GrowingSourceIsNotReplaced(cfg, w, readable);
    ReadingsAreDigests(cfg, w.fs.entries, w.remote.content, w.tails);
    CheckEqualsFlatComparison(cfg, w.fs, Current(w));
    var tampered := CompareStored(cfg.hasher, w.fs.entries, Current(w));
    forall n ensures Reported(tampered, n) <==> ReadsDifferently(w, n) {
      ReportedIffReadsDifferently(cfg, w, n);
    }
    assert tampered != [] ==> Reported(tampered, tampered[0].lineNumber);
  }

  lemma {:induction false} ReportedIffReadsDifferently(cfg: Config, w: World, n: int)
    requires Readings(cfg, w.fs.entries, w.remote.content, w.tails) && NoTailCollisions(cfg.hasher, w)
    ensures Reported(CompareStored(cfg.hasher, w.fs.entries, Current(w)), n) <==> ReadsDifferently(w, n)
  {
    var rows := w.fs.entries;
    ComparedLine(cfg.hasher, rows, Current(w), n);
    if ReadsDifferently(w, n) {
      assert TailAt(rows, w.remote.content, w.tails, n);
      RowDiffersIff(cfg, w, n - 1);
      assert rows[n - 1] in rows;
    }
    if e :| e in rows && Differs(cfg.hasher, Current(w), e) && e.lineNumber == n {
      var i :| 0 <= i < |rows| && rows[i] == e;
      RowDiffersIff(cfg, w, i);
    }
  }

  // ---- Growth by whole lines ----

  /** Lines are complete when they are first seen. */
  predicate AppendsLines(w: World, e: Event) {
    OnlyGrows(w, e) && (e.Append? ==> e.rest == "")
  }

  ghost predicate TailsAreComplete(w: World) {
    forall n :: n in w.tails ==> 1 <= n <= |w.remote.content| && w.tails[n] == w.remote.content[n - 1]
  }

  lemma {:induction false} GrowthByLines(content: seq<string>, lines: seq<string>)
    ensures Grown(content, "", lines) == content + lines
  {
    if content != [] {
      assert content[|content| - 1] + "" == content[|content| - 1];
    }
  }

  lemma {:induction false} ReadKeepsCompleteTails(cfg: Config, w: World, budget: nat)
    requires ValidConfig(cfg) && TailsAreComplete(w) && w.pending.Some?
    ensures TailsAreComplete(AfterRead(cfg, w, budget))
  {
    var c := ReadCircumstances(w, true, budget);
    CompleteTailsOf(w.remote.content, if Resets(w.fs, c) then map[] else w.tails, MaxLine(BaseStore(w.fs, c).entries),
                    MaxLine(AfterRead(cfg, w, budget).fs.entries));
  }

  lemma {:induction false} CompleteTailsOf(content: seq<string>, tails: map<int, string>, before: int, after: nat)
    requires forall n :: n in tails ==> 1 <= n <= |content| && tails[n] == content[n - 1]
    ensures forall n :: n in TailsOf(content, tails, before, after) ==>
              1 <= n <= |content| && TailsOf(content, tails, before, after)[n] == content[n - 1]
  {
  }

  lemma {:induction false} AppendingKeepsTails(cfg: Config, w: World, e: Event)
    requires ValidConfig(cfg) && TailsAreComplete(w) && AppendsLines(w, e)
    ensures TailsAreComplete(Step(cfg, w, e))
  {
    if e.Append? {
      GrowthByLines(w.remote.content, e.lines);
    } else if e.Read? && w.pending.Some? {
      ReadKeepsCompleteTails(cfg, w, e.budget);
    }
  }

  lemma {:induction false} AppendingOnlyGrows(cfg: Config, remote: Remote, events: seq<Event>)
    requires ValidConfig(cfg) && Follows(cfg, remote, events, AppendsLines)
    ensures Follows(cfg, remote, events, OnlyGrows) && TailsAreComplete(After(cfg, remote, events))
  {
    if events != [] {
      var front := events[..|events| - 1];
      AppendingOnlyGrows(cfg, remote, front);
      AppendingKeepsTails(cfg, After(cfg, remote, front), events[|events| - 1]);
    }
  }

  /** A line that was last when it was stored, is no longer, and has trailing white space beyond returns. */
  predicate Exposed(w: World, n: int) {
    n in w.tails && 1 <= n < |w.remote.content| && HasTrailingSpace(w.remote.content[n - 1])
  }

  /** For a file that only gains whole lines the check says "ok" exactly when every line that was last in the read that
      stored it is still the last line or has no trailing white space beyond returns. */
  lemma {:induction false} AppendedFileChecksOkIff(cfg: Config, remote: Remote, events: seq<Event>, readable: bool)
    requires ValidConfig(cfg) && Follows(cfg, remote, events, AppendsLines) && ProducesDigests(cfg.hasher)
    requires var w := After(cfg, remote, events);
             NoTailCollisions(cfg.hasher, w) && NoAggregateCollisions(cfg.hasher, w.fs, Current(w))
    ensures var w := After(cfg, remote, events);
            CheckNow(cfg, w, readable) == Compared(CheckOk, |w.fs.entries|, []) <==> forall n :: !Exposed(w, n)
  {
    var w := After(cfg, remote, events);
    AppendingOnlyGrows(cfg, remote, events);
    forall n ensures ReadsDifferently(w, n) <==> Exposed(w, n) {
      if n in w.tails {
        ReadsAsStoredIff(w.remote.content, w.tails, n);
      }
    }
    GrowingFileCheckIsExact(cfg, remote, events, readable);
    if forall n :: !Exposed(w, n) {
      SettledFileChecksOk(cfg, remote, events, readable);
    }
  }

  // ---- Incremental collection against one full collection ----

  /** Collecting the same file once, from nothing. */
  ghost function OneShot(cfg: Config, content: seq<string>, budget: nat): RunResult
    requires ValidConfig(cfg)
  {
    Collect(cfg, EMPTY_STORE, Circumstances(None, Reader(content, true), budget))
  }

  lemma {:induction false} OneShotHoldsFile(cfg: Config, content: seq<string>, budget: nat)
    requires ValidConfig(cfg) && OneShot(cfg, content, budget).outcome.Success?
    ensures OneShot(cfg, content, budget).fs.entries == FileRows(cfg, content)
  {
    var m := RunOnFile(cfg, EMPTY_STORE, None, content, budget);
    var rows := RowsAbove(cfg, content, 0);
    assert rows == FileRows(cfg, content);
    assert [] + rows[..|rows|] == rows;
  }

  /** A completed run over a growing file leaves one row for each of its lines. */
  lemma {:induction false} CompletedRunHoldsEveryLine(cfg: Config, w: World, budget: nat)
    requires ValidConfig(cfg) && Sound(cfg, w) && Unrotated(w) && w.pending.Some?
    requires ReadResult(cfg, w, true, budget).outcome.Success?
    ensures |AfterRead(cfg, w, budget).fs.entries| == |w.remote.content|
  {
    UnrotatedNeverResets(w, true, budget);
    WellGroupedAscends(cfg, w.fs);
    ReadingsAscend(cfg, w.fs.entries, w.remote.content, w.tails);
    var m := RunOnFile(cfg, w.fs, w.pending.value, w.remote.content, budget);
  }

  lemma {:induction false} RowsEqualFileIff(cfg: Config, w: World)
    requires Readings(cfg, w.fs.entries, w.remote.content, w.tails) && |w.fs.entries| == |w.remote.content|
    ensures (forall n :: !ReadsDifferently(w, n)) ==> w.fs.entries == FileRows(cfg, w.remote.content)
    ensures NoTailCollisions(cfg.hasher, w) && w.fs.entries == FileRows(cfg, w.remote.content) ==>
              forall n :: !ReadsDifferently(w, n)
  {
    var content, rows := w.remote.content, FileRows(cfg, w.remote.content);
    forall i | 0 <= i < |content|
      ensures !ReadsDifferently(w, i + 1) ==> w.fs.entries[i] == rows[i]
      ensures ReadsDifferently(w, i + 1) && NoTailCollisions(cfg.hasher, w) ==> w.fs.entries[i] != rows[i]
    {
      assert ReadingAt(cfg, w.fs.entries, content, w.tails, i);
      if i + 1 !in w.tails {
        OtherLinesReadAsStored(cfg, w.fs.entries, content, w.tails, i + 1);
      }
    }
    forall n | ReadsDifferently(w, n) && NoTailCollisions(cfg.hasher, w) ensures w.fs.entries != rows {
      assert w.fs.entries[n - 1] != rows[n - 1];
    }
  }

  /** Incremental collection and one full collection store the same numbered hashes, however many runs failed part-way
      before, exactly when every line that was last in the read that stored it still reads the same. */
  lemma {:induction false} IncrementalEqualsOneShotIff(cfg: Config, remote: Remote, events: seq<Event>, budget: nat,
                                                       once: nat)
    requires ValidConfig(cfg) && Follows(cfg, remote, events, OnlyGrows) && After(cfg, remote, events).pending.Some?
    requires ReadResult(cfg, After(cfg, remote, events), true, budget).outcome.Success?
    requires OneShot(cfg, After(cfg, remote, events).remote.content, once).outcome.Success?
    ensures var w := AfterRead(cfg, After(cfg, remote, events), budget);
            var same := w.fs.entries == OneShot(cfg, w.remote.content, once).fs.entries;
            ((forall n :: !ReadsDifferently(w, n)) ==> same) &&
            (NoTailCollisions(cfg.hasher, w) ==> (same <==> forall n :: !ReadsDifferently(w, n)))
  {
    var before := After(cfg, remote, events);
    GrowingFileIsMirrored(cfg, remote, events);
    CompletedRunHoldsEveryLine(cfg, before, budget);
    ReadKeepsReadings(cfg, before, budget);
    OneShotHoldsFile(cfg, before.remote.content, once);
    RowsEqualFileIff(cfg, AfterRead(cfg, before, budget));
  }

  // ---- Growing files that are reported ----

  /** A run with a repository that takes everything. */
  ghost function RunNow(cfg: Config, w: World): World
    requires ValidConfig(cfg)
  {
    Step(cfg, Step(cfg, w, Inspect(true)), Read(true, EnoughFor(cfg, w)))
  }

  ghost function EnoughFor(cfg: Config, w: World): nat
    requires ValidConfig(cfg)
  {
    1 + BatchCount(cfg, w.fs, Circumstances(Some(w.remote.identity), Reader(w.remote.content, true), 0))
  }

  function RunEvents(budget: nat): seq<Event> {
    [Inspect(true), Read(true, budget)]
  }

  lemma {:induction false} AfterEvent(cfg: Config, remote: Remote, events: seq<Event>, e: Event,
                                      rule: (World, Event) -> bool)
    requires ValidConfig(cfg)
    ensures After(cfg, remote, events + [e]) == Step(cfg, After(cfg, remote, events), e)
    ensures Follows(cfg, remote, events + [e], rule) <==>
              Follows(cfg, remote, events, rule) && rule(After(cfg, remote, events), e)
  {
    assert (events + [e])[..|events|] == events;
  }

  lemma {:induction false} AfterRunNow(cfg: Config, remote: Remote, events: seq<Event>, rule: (World, Event) -> bool)
    requires ValidConfig(cfg)
    ensures var w := After(cfg, remote, events);
            var more := events + RunEvents(EnoughFor(cfg, w));
            After(cfg, remote, more) == RunNow(cfg, w) &&
            (Follows(cfg, remote, more, rule) <==>
               Follows(cfg, remote, events, rule) && rule(w, Inspect(true)) &&
               rule(Step(cfg, w, Inspect(true)), Read(true, EnoughFor(cfg, w))))
  {
    var w := After(cfg, remote, events);
    AfterEvent(cfg, remote, events, Inspect(true), rule);
    AfterEvent(cfg, remote, events + [Inspect(true)], Read(true, EnoughFor(cfg, w)), rule);
    assert events + RunEvents(EnoughFor(cfg, w)) == events + [Inspect(true)] + [Read(true, EnoughFor(cfg, w))];
  }

  lemma {:induction false} RunNowReads(cfg: Config, w: World)
    requires ValidConfig(cfg) && w.pending.None?
    ensures RunNow(cfg, w) == AfterRead(cfg, w.(pending := Some(Some(w.remote.identity))), EnoughFor(cfg, w))
  {
  }

  /** What such a run leaves. */
  lemma {:induction false} RunNowIs(cfg: Config, w: World)
    requires ValidConfig(cfg) && StrictlyAscending(w.fs.entries) && w.pending.None?
    ensures var resets := ShouldReset(w.fs.identity, w.remote.identity);
            var kept := if resets then [] else w.fs.entries;
            var all := kept + RowsAbove(cfg, w.remote.content, MaxLine(kept));
            var w' := RunNow(cfg, w);
            w'.fs.entries == all && w'.fs.identity == w.remote.identity && w'.pending.None? &&
            w'.remote == w.remote && w'.versions == w.versions && w'.stale == (w.stale && !resets) &&
            (MaxLine(kept) < MaxLine(all) ==>
               w'.tails == TailsAfter(w.remote.content, if resets then map[] else w.tails, MaxLine(all)))
  {
    RunNowReads(cfg, w);
    var c := Circumstances(Some(w.remote.identity), Reader(w.remote.content, true), EnoughFor(cfg, w));
    assert BatchCount(cfg, w.fs, c) < EnoughFor(cfg, w);
    var m := RunOnFile(cfg, w.fs, Some(w.remote.identity), w.remote.content, EnoughFor(cfg, w));
  }

  /** The history of a file of one line that is collected, grows and is collected no more. */
  ghost function CollectedThenGrown(cfg: Config, identity: FileIdentity, line: string, rest: string,
                                    lines: seq<string>): seq<Event>
    requires ValidConfig(cfg)
  {
    RunEvents(EnoughFor(cfg, Start(Remote(identity, [line])))) +
    [Append(rest, lines, identity.sizeBytes + |rest| + |lines|, identity.modTimeUnix)]
  }

  lemma {:induction false} CollectedThenGrownIs(cfg: Config, identity: FileIdentity, line: string, rest: string,
                                                lines: seq<string>)
    requires ValidConfig(cfg)
    ensures var remote, events := Remote(identity, [line]), CollectedThenGrown(cfg, identity, line, rest, lines);
            var w := After(cfg, remote, events);
            Follows(cfg, remote, events, OnlyGrows) && (rest == "" ==> Follows(cfg, remote, events, AppendsLines)) &&
            w.remote.content == [line + rest] + lines && w.tails == map[1 := line]
  {
    var remote := Remote(identity, [line]);
    var first := RunEvents(EnoughFor(cfg, Start(remote)));
    var growth := Append(rest, lines, identity.sizeBytes + |rest| + |lines|, identity.modTimeUnix);
    CollectedOnce(cfg, remote, line);
    AfterEvent(cfg, remote, first, growth, OnlyGrows);
    AfterEvent(cfg, remote, first, growth, AppendsLines);
    assert Grown([line], rest, lines) == [line + rest] + lines;
  }

  lemma {:induction false} CollectedOnce(cfg: Config, remote: Remote, line: string)
    requires ValidConfig(cfg) && remote.content == [line]
    ensures var events := RunEvents(EnoughFor(cfg, Start(remote)));
            var w := After(cfg, remote, events);
            Follows(cfg, remote, events, OnlyGrows) && Follows(cfg, remote, events, AppendsLines) &&
            w.remote == remote && w.tails == map[1 := line]
  {
    GrowthIsNotRotation(NO_IDENTITY, remote.identity);
    RunNowIs(cfg, Start(remote));
    assert RunEvents(EnoughFor(cfg, Start(remote))) == [] + RunEvents(EnoughFor(cfg, Start(remote)));
    AfterRunNow(cfg, remote, [], OnlyGrows);
    AfterRunNow(cfg, remote, [], AppendsLines);
  }

  lemma {:induction false} DifferentLineIsReported(cfg: Config, remote: Remote, events: seq<Event>, readable: bool,
                                                   n: int)
    requires ValidConfig(cfg) && ProducesDigests(cfg.hasher) && Follows(cfg, remote, events, OnlyGrows)
    requires ReadsDifferently(After(cfg, remote, events), n)
    ensures var w := After(cfg, remote, events);
            NoTailCollisions(cfg.hasher, w) && NoAggregateCollisions(cfg.hasher, w.fs, Current(w)) ==>
              CheckNow(cfg, w, readable).Compared? && Reported(CheckNow(cfg, w, readable).tampered, n)
  {
    var w := After(cfg, remote, events);
    if NoTailCollisions(cfg.hasher, w) && NoAggregateCollisions(cfg.hasher, w.fs, Current(w)) {
      GrowingFileCheckIsExact(cfg, remote, events, readable);
    }
  }

  /** A line with a trailing blank is collected while it is the last one, and read with its blank once another line
      follows: nobody touched it, and the check reports it. */
  lemma {:induction false} TrailingBlankIsReported(cfg: Config, identity: FileIdentity, readable: bool)
    returns (events: seq<Event>)
    requires ValidConfig(cfg) && ProducesDigests(cfg.hasher)
    ensures Follows(cfg, Remote(identity, ["a "]), events, AppendsLines)
    ensures var w := After(cfg, Remote(identity, ["a "]), events);
            w.remote.content == ["a ", "b"] &&
            (NoTailCollisions(cfg.hasher, w) && NoAggregateCollisions(cfg.hasher, w.fs, Current(w)) ==>
               CheckNow(cfg, w, readable).Compared? && Reported(CheckNow(cfg, w, readable).tampered, 1))
  {
    events := CollectedThenGrown(cfg, identity, "a ", "", ["b"]);
    CollectedThenGrownIs(cfg, identity, "a ", "", ["b"]);
    var w := After(cfg, Remote(identity, ["a "]), events);
    assert "a " + "" == "a ";
    assert ReadsDifferently(w, 1) by {
      assert HasTrailingSpace("a ");
      ReadsAsStoredIff(w.remote.content, w.tails, 1);
    }
    DifferentLineIsReported(cfg, Remote(identity, ["a "]), events, readable, 1);
  }

  lemma {:induction false} HalfLineReadsDifferently(w: World)
    requires w.remote.content == ["partial"] && w.tails == map[1 := "par"]
    ensures ReadsDifferently(w, 1)
  {
    assert SeenLine(w.remote.content, 0) == TrimRight("partial", IsSpace) == "partial";
    assert StoredAs(w.remote.content, w.tails, 1) == TrimRight("par", IsSpace) == "par";
  }

  /** A line that is collected half-written is reported once it is complete. */
  lemma {:induction false} HalfLineIsReported(cfg: Config, identity: FileIdentity, readable: bool)
    returns (events: seq<Event>)
    requires ValidConfig(cfg) && ProducesDigests(cfg.hasher)
    ensures Follows(cfg, Remote(identity, ["par"]), events, OnlyGrows)
    ensures var w := After(cfg, Remote(identity, ["par"]), events);
            w.remote.content == ["partial"] &&
            (NoTailCollisions(cfg.hasher, w) && NoAggregateCollisions(cfg.hasher, w.fs, Current(w)) ==>
               CheckNow(cfg, w, readable).Compared? && Reported(CheckNow(cfg, w, readable).tampered, 1))
  {
    events := CollectedThenGrown(cfg, identity, "par", "tial", []);
    CollectedThenGrownIs(cfg, identity, "par", "tial", []);
    var w := After(cfg, Remote(identity, ["par"]), events);
    assert "par" + "tial" == "partial" && ["partial"] + [] == ["partial"];
    HalfLineReadsDifferently(w);
    DifferentLineIsReported(cfg, Remote(identity, ["par"]), events, readable, 1);
  }
}

/** One collection run as a function on the stored state of one log file, and what every run keeps. */
module Collector {
  import opened Prelude
  import opened Models
  import opened Hashing
  import opened Chunking
  import opened Batches

  // ---- Source identity ----

  predicate HasIdentity(i: FileIdentity) {
    i.deviceId != "" || i.inode != "" || i.volumeId != "" || i.fileId != "" || i.eventLog != "" || i.sizeBytes > 0
  }

  predicate FileShrank(previous: FileIdentity, current: FileIdentity) {
    previous.sizeBytes > 0 && current.sizeBytes > 0 && current.sizeBytes < previous.sizeBytes
  }

  /** Whether the collected baseline no longer belongs to the current source. */
  predicate ShouldReset(previous: FileIdentity, current: FileIdentity) {
    if !HasIdentity(previous) || !HasIdentity(current) then false
    else if previous.eventLog != "" || current.eventLog != "" then previous.eventLog != current.eventLog
    else if previous.deviceId != "" && previous.inode != "" && current.deviceId != "" && current.inode != "" then
      previous.deviceId != current.deviceId || previous.inode != current.inode || FileShrank(previous, current)
    else if previous.fileId != "" && current.fileId != "" then
      previous.fileId != current.fileId || FileShrank(previous, current)
    else FileShrank(previous, current)
  }

  // ---- The stored state of one log file ----

  /** What the repository holds for one log file, with row ids erased: entries by line number, chunks by chunk number,
      and the source identity of the last completed run. */
  datatype FileStore = FileStore(entries: seq<LogEntry>, chunks: seq<LogChunk>, identity: FileIdentity)

  const EMPTY_STORE := FileStore([], [], NO_IDENTITY)

  /** Line numbers start above zero, so zero stands for "nothing stored". */
  function MaxLine(entries: seq<LogEntry>): int {
    if entries == [] || entries[|entries| - 1].lineNumber < 0 then 0 else entries[|entries| - 1].lineNumber
  }

  function NextChunkNumber(chunks: seq<LogChunk>): int {
    if chunks == [] then 0 else chunks[|chunks| - 1].chunkNumber + 1
  }

  function EntryFor(cfg: Config, line: Line): LogEntry {
    LogEntry("", cfg.logFileId, line.number, if cfg.options.storeRawContent then line.content else "",
             cfg.hasher.line(line.content))
  }

  /** The entries a run adds: lines numbered above what is already stored. */
  function NewEntries(cfg: Config, lines: seq<Line>, maxLine: int): seq<LogEntry> {
    if lines == [] then [] else
      var last := lines[|lines| - 1];
      NewEntries(cfg, lines[..|lines| - 1], maxLine) + if last.number <= maxLine then [] else [EntryFor(cfg, last)]
  }

  /** The row of a line, column by column: hashed from the content in any case, and keeping the content exactly if raw
      content is to be stored. */
  ghost predicate IsRowOfLine(cfg: Config, e: LogEntry, line: Line) {
    e.id == "" && e.logFileId == cfg.logFileId && e.lineNumber == line.number &&
    e.hash == cfg.hasher.line(line.content) &&
    (cfg.options.storeRawContent ==> e.content == line.content) &&
    (!cfg.options.storeRawContent ==> e.content == "")
  }

  /** The lines numbered above `maxLine`, in read order. */
  function LinesAbove(lines: seq<Line>, maxLine: int): seq<Line> {
    if lines == [] then [] else (if lines[0].number > maxLine then [lines[0]] else []) + LinesAbove(lines[1..], maxLine)
  }

  ghost predicate RowsOfLines(cfg: Config, entries: seq<LogEntry>, lines: seq<Line>) {
    |entries| == |lines| && forall i :: 0 <= i < |entries| ==> IsRowOfLine(cfg, entries[i], lines[i])
  }

  lemma {:induction false} LinesAboveSnoc(lines: seq<Line>, last: Line, maxLine: int)
    ensures LinesAbove(lines + [last], maxLine) ==
              LinesAbove(lines, maxLine) + if last.number > maxLine then [last] else []
  {
    if lines == [] {
      assert [last][1..] == [];
    } else {
      assert (lines + [last])[1..] == lines[1..] + [last];
      LinesAboveSnoc(lines[1..], last, maxLine);
    }
  }

  /** A run adds one row for each line above the stored ones, in order, and no other row. */
  lemma {:induction false} NewEntriesAreRows(cfg: Config, lines: seq<Line>, maxLine: int)
    ensures RowsOfLines(cfg, NewEntries(cfg, lines, maxLine), LinesAbove(lines, maxLine))
  {
    if lines != [] {
      var front, last := lines[..|lines| - 1], lines[|lines| - 1];
      assert lines == front + [last];
      NewEntriesAreRows(cfg, front, maxLine);
      LinesAboveSnoc(front, last, maxLine);
    }
  }

  ghost predicate SortedLines(lines: seq<Line>) {
    forall i, j :: 0 <= i < j < |lines| ==> lines[i].number <= lines[j].number
  }

  // ---- Saving ----

  /** The repository takes a batch whole or not at all; it takes it when its lines continue the stored ones. */
  ghost function SaveBatch(fs: FileStore, b: Batch): Option<FileStore> {
    if StrictlyAscending(fs.entries + b.entries)
    then Some(fs.(entries := fs.entries + b.entries, chunks := fs.chunks + b.chunks))
    else None
  }

  datatype Saved = Saved(fs: FileStore, complete: bool)

  /** Batches are saved one by one. `budget` is how many repository writes succeed before the repository fails. */
  ghost function SaveAll(fs: FileStore, batches: seq<Batch>, budget: nat): Saved
    decreases |batches|
  {
    if batches == [] then Saved(fs, true)
    else if budget == 0 then Saved(fs, false)
    else
      match SaveBatch(fs, batches[0])
      case None => Saved(fs, false)
      case Some(next) => SaveAll(next, batches[1..], budget - 1)
  }

  // ---- A whole run ----

  /** What one run meets outside the repository: the source identity (None when it cannot be read), the remote lines
      by the line number they are requested after (None when the read fails), and the repository's write budget. */
  datatype Circumstances = Circumstances(inspected: Option<FileIdentity>, read: int -> Option<seq<Line>>, budget: nat)

  datatype RunResult = RunResult(fs: FileStore, outcome: Outcome<nat>)

  ghost predicate Resets(fs: FileStore, c: Circumstances) {
    c.inspected.Some? && ShouldReset(fs.identity, c.inspected.value)
  }

  /** The line number a run reads after. */
  ghost function StartLine(fs: FileStore, c: Circumstances): int {
    if Resets(fs, c) then 0 else MaxLine(fs.entries)
  }

  /** The stored state a run builds on: emptied when the source was rotated, otherwise untouched. */
  ghost function BaseStore(fs: FileStore, c: Circumstances): FileStore {
    if Resets(fs, c) then fs.(entries := [], chunks := []) else fs
  }

  ghost function Collect(cfg: Config, fs: FileStore, c: Circumstances): RunResult
    requires ValidConfig(cfg)
  {
    var start := StartLine(fs, c);
    match c.read(start)
    case None => RunResult(fs, Failure(Unavailable))
    case Some(lines) =>
      var base := BaseStore(fs, c);
      var added := NewEntries(cfg, lines, start);
      var batches := BatchesFor(cfg, added, NextChunkNumber(base.chunks));
      var saved := SaveAll(base, batches, c.budget);
      if !saved.complete then RunResult(saved.fs, Failure(Unavailable))
      else if c.budget <= |batches| then RunResult(saved.fs, Failure(Unavailable))
      else RunResult(saved.fs.(identity := if c.inspected.Some? then c.inspected.value else fs.identity),
                     Success(|added|))
  }

  // ---- Well-formed stores ----

  /** The stored entries are the given groups one after the other, and the i-th chunk, numbered i, was computed from
      the i-th group. */
  ghost predicate Grouped(cfg: Config, fs: FileStore, groups: seq<seq<LogEntry>>) {
    BuiltFrom(cfg, fs.entries, groups, fs.chunks) && StrictlyAscending(fs.entries) &&
    (forall i :: 0 <= i < |fs.chunks| ==> fs.chunks[i].chunkNumber == i && |groups[i]| <= cfg.options.chunkSize) &&
    (fs.entries != [] ==> fs.entries[0].lineNumber > 0)
  }

  ghost predicate WellGrouped(cfg: Config, fs: FileStore) {
    exists groups :: Grouped(cfg, fs, groups)
  }

  lemma {:induction false} EmptyStoreIsWellGrouped(cfg: Config, identity: FileIdentity)
    ensures WellGrouped(cfg, FileStore([], [], identity))
  {
    assert Grouped(cfg, FileStore([], [], identity), []);
  }

  /** Saving a batch whose rows are groups p to q of the run extends the groups of the store. */
  lemma {:induction false} SaveOneKeepsGroups(cfg: Config, fs: FileStore, stored: seq<seq<LogEntry>>, b: Batch,
                                              added: seq<seq<LogEntry>>)
    requires Grouped(cfg, fs, stored) && StrictlyAscending(fs.entries + b.entries)
    requires BuiltFrom(cfg, b.entries, added, b.chunks)
    requires forall i :: 0 <= i < |b.chunks| ==>
               b.chunks[i].chunkNumber == |stored| + i && |added[i]| <= cfg.options.chunkSize
    requires b.entries != [] ==> b.entries[0].lineNumber > 0
    ensures Grouped(cfg, fs.(entries := fs.entries + b.entries, chunks := fs.chunks + b.chunks), stored + added)
  {
    var groups, chunks := stored + added, fs.chunks + b.chunks;
    JoinedBuiltFrom(cfg, fs.entries, stored, fs.chunks, b.entries, added, b.chunks);
    forall i | 0 <= i < |chunks| ensures chunks[i].chunkNumber == i && |groups[i]| <= cfg.options.chunkSize {
      if i >= |stored| {
        assert b.chunks[i - |stored|].chunkNumber == |stored| + (i - |stored|);
      }
    }
  }

  lemma {:induction false} JoinedBuiltFrom(cfg: Config, a: seq<LogEntry>, ga: seq<seq<LogEntry>>, ca: seq<LogChunk>,
                                           b: seq<LogEntry>, gb: seq<seq<LogEntry>>, cb: seq<LogChunk>)
    requires BuiltFrom(cfg, a, ga, ca) && BuiltFrom(cfg, b, gb, cb)
    ensures BuiltFrom(cfg, a + b, ga + gb, ca + cb)
  {
    ConcatAppend(ga, gb);
    forall i | 0 <= i < |ga + gb| ensures DescribesGroup(cfg, ga + gb, ca + cb, i) {
      if i < |ga| {
        assert DescribesGroup(cfg, ga, ca, i);
      } else {
        assert DescribesGroup(cfg, gb, cb, i - |ga|);
      }
    }
  }

  /** A run's plan: new entries in read order, their groups, and chunks numbered from `first`. */
  ghost predicate Plan(cfg: Config, entries: seq<LogEntry>, groups: seq<seq<LogEntry>>, chunks: seq<LogChunk>,
                       first: int)
  {
    Ascending(entries) && BuiltFrom(cfg, entries, groups, chunks) &&
    (forall i :: 0 <= i < |chunks| ==> chunks[i].chunkNumber == first + i && |groups[i]| <= cfg.options.chunkSize) &&
    (forall i :: 0 <= i < |entries| ==> entries[i].lineNumber > 0)
  }

  lemma {:induction false} SliceBuiltFrom(cfg: Config, entries: seq<LogEntry>, groups: seq<seq<LogEntry>>,
                                          chunks: seq<LogChunk>, p: nat, q: nat)
    requires BuiltFrom(cfg, entries, groups, chunks) && p <= q <= |groups|
    ensures BuiltFrom(cfg, Concat(groups[p..q]), groups[p..q], chunks[p..q])
  {
    forall i | 0 <= i < q - p ensures DescribesGroup(cfg, groups[p..q], chunks[p..q], i) {
      assert DescribesGroup(cfg, groups, chunks, p + i);
    }
  }

  lemma {:induction false} FirstOfSlice(entries: seq<LogEntry>, groups: seq<seq<LogEntry>>, p: nat, q: nat)
    requires Concat(groups) == entries && p <= q <= |groups|
    requires forall i :: 0 <= i < |entries| ==> entries[i].lineNumber > 0
    ensures Concat(groups[p..q]) != [] ==> Concat(groups[p..q])[0].lineNumber > 0
  {
    assert groups == groups[..p] + (groups[p..q] + groups[q..]);
    ConcatAppend(groups[..p], groups[p..q] + groups[q..]);
    ConcatAppend(groups[p..q], groups[q..]);
    if Concat(groups[p..q]) != [] {
      assert entries[|Concat(groups[..p])|] == Concat(groups[p..q])[0];
    }
  }

  /** The first remaining batch of a plan, if the repository takes it, holds whole groups of the plan. */
  lemma {:induction false} AcceptedBatch(cfg: Config, entries: seq<LogEntry>, groups: seq<seq<LogEntry>>,
                                         chunks: seq<LogChunk>, first: int, p: nat, b: Batch)
    requires Plan(cfg, entries, groups, chunks, first) && p + |b.chunks| <= |chunks|
    requires b.chunks == chunks[p..p + |b.chunks|] && CarriesOwnRows(entries, b) && StrictlyAscending(b.entries)
    ensures b.entries == Concat(groups[p..p + |b.chunks|])
    ensures BuiltFrom(cfg, b.entries, groups[p..p + |b.chunks|], b.chunks)
    ensures b.entries != [] ==> b.entries[0].lineNumber > 0
  {
    var q := p + |b.chunks|;
    RowsOfBuiltChunks(cfg, entries, groups, chunks, p, q);
    SliceBuiltFrom(cfg, entries, groups, chunks, p, q);
    FirstOfSlice(entries, groups, p, q);
  }

  lemma {:induction false} FirstBatch(batches: seq<Batch>, chunks: seq<LogChunk>, p: nat)
    requires batches != [] && p <= |chunks| && Concat(ChunkLists(batches)) == chunks[p..]
    ensures var q := p + |batches[0].chunks|;
            q <= |chunks| && batches[0].chunks == chunks[p..q] && Concat(ChunkLists(batches[1..])) == chunks[q..]
  {
    var own, rest := batches[0].chunks, Concat(ChunkLists(batches[1..]));
    assert ChunkLists(batches)[0] == own && ChunkLists(batches)[1..] == ChunkLists(batches[1..]);
    assert own + rest == chunks[p..];
    assert own == chunks[p..][..|own|] && rest == chunks[p..][|own|..];
  }

  lemma {:induction false} SaveFirstBatch(cfg: Config, fs: FileStore, stored: seq<seq<LogEntry>>,
                                          entries: seq<LogEntry>,
                       groups: seq<seq<LogEntry>>, chunks: seq<LogChunk>, first: int, p: nat, b: Batch)
    requires Grouped(cfg, fs, stored) && |stored| == first + p
    requires Plan(cfg, entries, groups, chunks, first) && p + |b.chunks| <= |chunks|
    requires b.chunks == chunks[p..p + |b.chunks|] && CarriesOwnRows(entries, b) && SaveBatch(fs, b).Some?
    ensures Grouped(cfg, SaveBatch(fs, b).value, stored + groups[p..p + |b.chunks|])
  {
    StrictlyAscendingParts(fs.entries, b.entries);
    AcceptedBatch(cfg, entries, groups, chunks, first, p, b);
    SaveOneKeepsGroups(cfg, fs, stored, b, groups[p..p + |b.chunks|]);
  }

  /** Whatever the write budget, and even when some line number was read twice, saving a plan stops at a store made of
      whole groups. */
  lemma {:induction false} SaveAllKeepsGroups(
      cfg: Config, fs: FileStore, stored: seq<seq<LogEntry>>, entries: seq<LogEntry>, groups: seq<seq<LogEntry>>,
      chunks: seq<LogChunk>, first: int, p: nat, batches: seq<Batch>, budget: nat)
    requires Grouped(cfg, fs, stored) && |stored| == first + p
    requires Plan(cfg, entries, groups, chunks, first) && p <= |chunks|
    requires Concat(ChunkLists(batches)) == chunks[p..] && AllCarryOwnRows(entries, batches)
    ensures WellGrouped(cfg, SaveAll(fs, batches, budget).fs)
    decreases |batches|
  {
    if batches == [] || budget == 0 || SaveBatch(fs, batches[0]).None? {
      assert Grouped(cfg, fs, stored);
    } else {
      var q := p + |batches[0].chunks|;
      FirstBatch(batches, chunks, p);
      assert CarriesOwnRows(entries, batches[0]);
      SaveFirstBatch(cfg, fs, stored, entries, groups, chunks, first, p, batches[0]);
      SaveAllKeepsGroups(cfg, SaveBatch(fs, batches[0]).value, stored + groups[p..q], entries, groups, chunks, first, q,
                         batches[1..], budget - 1);
    }
  }

  // ---- New entries ----

  lemma {:induction false} NewEntriesSorted(cfg: Config, lines: seq<Line>, maxLine: int)
    requires SortedLines(lines)
    ensures Ascending(NewEntries(cfg, lines, maxLine))
    ensures forall i :: 0 <= i < |NewEntries(cfg, lines, maxLine)| ==>
              maxLine < NewEntries(cfg, lines, maxLine)[i].lineNumber <= lines[|lines| - 1].number
  {
    if lines != [] {
      var front := lines[..|lines| - 1];
      NewEntriesSorted(cfg, front, maxLine);
      var rest := NewEntries(cfg, front, maxLine);
      var all := NewEntries(cfg, lines, maxLine);
      assert front != [] ==> front[|front| - 1].number <= lines[|lines| - 1].number;
      forall i, j | 0 <= i < j < |all| ensures NotAfter(all, i, j) {
        if j < |rest| {
          assert NotAfter(rest, i, j);
        }
      }
    }
  }

  // ---- Every run keeps the store well formed ----

  /** A run may meet any sorted lines, with gaps and repeated numbers, any identity and any write budget. */
  ghost predicate SortedReads(c: Circumstances) {
    forall n :: c.read(n).Some? ==> SortedLines(c.read(n).value)
  }

  lemma {:induction false} NextNumberOfGrouped(cfg: Config, fs: FileStore, groups: seq<seq<LogEntry>>)
    requires Grouped(cfg, fs, groups)
    ensures NextChunkNumber(fs.chunks) == |groups|
  {
  }

  lemma {:induction false} BaseIsGrouped(cfg: Config, fs: FileStore, c: Circumstances)
    requires WellGrouped(cfg, fs)
    ensures WellGrouped(cfg, BaseStore(fs, c))
  {
    EmptyStoreIsWellGrouped(cfg, fs.identity);
  }

  lemma {:induction false} SavedIsGrouped(cfg: Config, base: FileStore, lines: seq<Line>, start: int, budget: nat)
    requires ValidConfig(cfg) && WellGrouped(cfg, base) && SortedLines(lines) && start >= 0
    ensures WellGrouped(cfg, SaveAll(base, BatchesFor(cfg, NewEntries(cfg, lines, start), NextChunkNumber(base.chunks)),
                                     budget).fs)
  {
    if NewEntries(cfg, lines, start) != [] {
      var stored :| Grouped(cfg, base, stored);
      SaveRunKeepsGroups(cfg, base, stored, lines, start, budget);
    }
  }

  lemma {:induction false} IdentityKeepsGroups(cfg: Config, fs: FileStore, identity: FileIdentity)
    requires WellGrouped(cfg, fs)
    ensures WellGrouped(cfg, fs.(identity := identity))
  {
    var groups :| Grouped(cfg, fs, groups);
    assert Grouped(cfg, fs.(identity := identity), groups);
  }

  /** One run, complete or failed anywhere, keeps the store well grouped. */
  lemma {:induction false} CollectKeepsGroups(cfg: Config, fs: FileStore, c: Circumstances)
    requires ValidConfig(cfg) && WellGrouped(cfg, fs) && SortedReads(c)
    ensures WellGrouped(cfg, Collect(cfg, fs, c).fs)
  {
    var start, base := StartLine(fs, c), BaseStore(fs, c);
    if c.read(start).Some? {
      var added := NewEntries(cfg, c.read(start).value, start);
      var saved := SaveAll(base, BatchesFor(cfg, added, NextChunkNumber(base.chunks)), c.budget);
      BaseIsGrouped(cfg, fs, c);
      SavedIsGrouped(cfg, base, c.read(start).value, start, c.budget);
      IdentityKeepsGroups(cfg, saved.fs, Collect(cfg, fs, c).fs.identity);
    }
  }

  lemma {:induction false} RunFollowsPlan(cfg: Config, lines: seq<Line>, start: int, first: int)
    requires ValidConfig(cfg) && SortedLines(lines) && start >= 0 && NewEntries(cfg, lines, start) != []
    ensures var added := NewEntries(cfg, lines, start);
            var groups := Split(added, cfg.options.chunkSize);
            BoundedGroups(groups, cfg.options.chunkSize) &&
            Plan(cfg, added, groups, ChunksOf(cfg, groups, first), first)
  {
    NewEntriesSorted(cfg, lines, start);
    SplitBuildsFrom(cfg, NewEntries(cfg, lines, start), first);
  }

  lemma {:induction false} RunSavesPlan(cfg: Config, added: seq<LogEntry>, first: int)
    requires ValidConfig(cfg) && added != []
    ensures var groups := Split(added, cfg.options.chunkSize);
            BoundedGroups(groups, cfg.options.chunkSize) &&
            Concat(ChunkLists(BatchesFor(cfg, added, first))) == ChunksOf(cfg, groups, first) &&
            AllCarryOwnRows(added, BatchesFor(cfg, added, first))
  {
    SplitPartitions(added, cfg.options.chunkSize);
    var chunks := ChunksOf(cfg, Split(added, cfg.options.chunkSize), first);
    PackChunks(added, chunks, cfg.options.batchSize);
    PackRows(added, chunks, cfg.options.batchSize);
  }

  lemma {:induction false} SaveRunKeepsGroups(cfg: Config, base: FileStore, stored: seq<seq<LogEntry>>,
                                              lines: seq<Line>, start: int, budget: nat)
    requires ValidConfig(cfg) && Grouped(cfg, base, stored) && SortedLines(lines) && start >= 0
    requires NewEntries(cfg, lines, start) != []
    ensures WellGrouped(cfg, SaveAll(base, BatchesFor(cfg, NewEntries(cfg, lines, start), NextChunkNumber(base.chunks)),
                                     budget).fs)
  {
    var added, first := NewEntries(cfg, lines, start), NextChunkNumber(base.chunks);
    var groups, batches := Split(added, cfg.options.chunkSize), BatchesFor(cfg, added, first);
    RunFollowsPlan(cfg, lines, start, first);
    RunSavesPlan(cfg, added, first);
    var chunks := ChunksOf(cfg, groups, first);
    assert first == |stored| by {
      NextNumberOfGrouped(cfg, base, stored);
    }
    assert chunks[0..] == chunks;
    SaveAllKeepsGroups(cfg, base, stored, added, groups, chunks, first, 0, batches, budget);
  }
}

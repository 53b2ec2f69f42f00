/** The collector running on the in-memory repository: saving and collecting are proved equal to the functions on one
    log file's stored state, and to leave every other log file alone. */
module CollectorService {
  import opened Prelude
  import opened Models
  import opened Chunking
  import opened Batches
  import opened Collector
  import opened StoreFacts
  import opened Tables
  import opened TableOps
  import opened BatchRules
  import opened Views
  import opened Storage
  import History

  // ---- What may be saved next ----

  ghost predicate RowsFor(file: string, es: seq<LogEntry>) {
    forall i :: 0 <= i < |es| ==> es[i].logFileId == file && es[i].id == ""
  }

  ghost predicate ChunksFollow(file: string, stored: seq<LogChunk>, cs: seq<LogChunk>) {
    forall i :: 0 <= i < |cs| ==>
      cs[i].logFileId == file && cs[i].id == "" && cs[i].chunkNumber == NextChunkNumber(stored) + i
  }

  /** The batch continues what is stored: rows in ascending order, chunks numbered on. A line number may still occur
      twice, in which case the repository refuses the batch. */
  ghost predicate Continues(file: string, fs: FileStore, b: Batch) {
    Ascending(fs.entries + b.entries) && RowsFor(file, b.entries) && ChunksFollow(file, fs.chunks, b.chunks)
  }

  predicate HasLine(rows: seq<LogEntry>, line: int) {
    exists k :: 0 <= k < |rows| && rows[k].lineNumber == line
  }

  /** The lines an index holds for a log file are those of its rows. */
  ghost predicate LinesAre(t: Tables, file: string, rows: seq<LogEntry>) {
    forall line :: LineTaken(t, file, line) <==> HasLine(rows, line)
  }

  lemma {:induction false} TakenLinesAreRows(t: Tables, file: string)
    requires Consistent(t)
    ensures LinesAre(t, file, EntryRows(t, file)) && StrictlyAscending(EntryRows(t, file))
  {
    var rows := EntryRows(t, file);
    EntryRowsFacts(t, file);
    forall line ensures LineTaken(t, file, line) <==> HasLine(rows, line) {
      if LineTaken(t, file, line) {
        assert LineResolves(t.entries, t.entriesByLogFile, file, line);
        var id := t.entriesByLogFile[file][line];
        assert EntryListed(t.entries, t.entriesByLogFile, id);
        assert t.entries[id] in rows;
      }
      if k :| 0 <= k < |rows| && rows[k].lineNumber == line {
        assert rows[k] in rows;
        assert EntryListed(t.entries, t.entriesByLogFile, rows[k].id);
      }
    }
  }

  lemma {:induction false} StrictEntriesAreAccepted(t: Tables, file: string, rows: seq<LogEntry>, es: seq<LogEntry>,
                                                    i: nat)
    requires LinesAre(t, file, rows) && file in t.logFiles && RowsFor(file, es) && i < |es|
    requires StrictlyAscending(rows + es)
    ensures !EntryRejected(t, Given(es), i)
  {
    var all := rows + es;
    forall k | 0 <= k < |rows| ensures rows[k].lineNumber != es[i].lineNumber {
      assert Before(all, k, |rows| + i);
    }
    forall j | 0 <= j < i ensures !RepeatsEntry(Given(es), j, i) {
      assert Before(all, |rows| + j, |rows| + i);
    }
    assert !LineTaken(t, file, es[i].lineNumber);
  }

  lemma {:induction false} AcceptedEntryIsLater(t: Tables, file: string, rows: seq<LogEntry>, es: seq<LogEntry>,
                                                i: nat, j: nat)
    requires LinesAre(t, file, rows) && StrictlyAscending(rows) && RowsFor(file, es)
    requires i < j < |rows + es| && NotAfter(rows + es, i, j)
    requires j >= |rows| ==> !EntryRejected(t, Given(es), j - |rows|)
    ensures Before(rows + es, i, j)
  {
    var all := rows + es;
    if j < |rows| {
      assert Before(rows, i, j);
    } else if i < |rows| {
      assert HasLine(rows, rows[i].lineNumber);
      assert !LineTaken(t, file, es[j - |rows|].lineNumber);
    } else {
      assert !RepeatsEntry(Given(es), i - |rows|, j - |rows|);
    }
  }

  /** Row by row: an ascending batch is taken exactly when it is strictly ascending after the stored rows. */
  lemma {:induction false} EntriesAcceptedIff(t: Tables, file: string, rows: seq<LogEntry>, es: seq<LogEntry>)
    requires LinesAre(t, file, rows) && StrictlyAscending(rows) && file in t.logFiles
    requires RowsFor(file, es) && Ascending(rows + es)
    ensures (forall i :: 0 <= i < |es| ==> !EntryRejected(t, Given(es), i)) <==> StrictlyAscending(rows + es)
  {
    if StrictlyAscending(rows + es) {
      forall i | 0 <= i < |es| ensures !EntryRejected(t, Given(es), i) {
        StrictEntriesAreAccepted(t, file, rows, es, i);
      }
    }
    if forall i :: 0 <= i < |es| ==> !EntryRejected(t, Given(es), i) {
      forall i, j | 0 <= i < j < |rows + es| ensures Before(rows + es, i, j) {
        assert NotAfter(rows + es, i, j);
        assert j >= |rows| ==> !EntryRejected(t, Given(es), j - |rows|);
        AcceptedEntryIsLater(t, file, rows, es, i, j);
      }
    }
  }

  ghost predicate NumbersBelow(t: Tables, file: string, bound: int) {
    forall n :: NumberTaken(t, file, n) ==> n < bound
  }

  lemma {:induction false} TakenNumbersAreBelowNext(t: Tables, file: string)
    requires ChunksIndexed(t.logFiles.Keys, t.chunks, t.chunksByLogFile)
    ensures NumbersBelow(t, file, NextChunkNumber(ChunkRows(t, file)))
  {
    var rows := ChunkRows(t, file);
    ChunkRowsFacts(t, file);
    forall n | NumberTaken(t, file, n) ensures n < NextChunkNumber(rows) {
      var id :| id in t.chunks && t.chunks[id].logFileId == file && t.chunks[id].chunkNumber == n;
      assert IsChunkOf(t, file, t.chunks[id]);
      LastChunkIsLatest(t, file);
    }
  }

  lemma {:induction false} FollowingChunksAreAccepted(t: Tables, file: string, stored: seq<LogChunk>, cs: seq<LogChunk>)
    requires NumbersBelow(t, file, NextChunkNumber(stored)) && file in t.logFiles && ChunksFollow(file, stored, cs)
    ensures forall i :: 0 <= i < |cs| ==> !ChunkRejected(t, Given(cs), i)
  {
    forall i | 0 <= i < |cs| ensures !ChunkRejected(t, Given(cs), i) {
      assert !NumberTaken(t, file, cs[i].chunkNumber);
      forall j | 0 <= j < i ensures !RepeatsChunk(Given(cs), j, i) {
        assert cs[j].chunkNumber != cs[i].chunkNumber;
      }
    }
  }

  lemma {:induction false} ViewOrder(rows: seq<LogEntry>, es: seq<LogEntry>)
    requires EraseEntryIds(es) == es
    ensures Ascending(EraseEntryIds(rows) + es) <==> Ascending(rows + es)
    ensures StrictlyAscending(EraseEntryIds(rows) + es) <==> StrictlyAscending(rows + es)
  {
    EraseEntryIdsConcat(rows, es);
    ErasingKeepsOrder(rows + es);
    ErasingKeepsAscending(rows + es);
  }

  /** The repository takes a continuing batch exactly when the collector's model says so. */
  lemma {:induction false} AcceptedIff(t: Tables, file: string, b: Batch)
    requires Consistent(t) && file in t.logFiles && Continues(file, View(t, file), b)
    ensures BatchAccepted(t, Given(b.entries), Given(b.chunks)) <==> SaveBatch(View(t, file), b).Some?
  {
    BatchEntriesAcceptedIff(t, file, b);
    BatchChunksAccepted(t, file, b);
  }

  lemma {:induction false} BatchChunksAccepted(t: Tables, file: string, b: Batch)
    requires Consistent(t) && file in t.logFiles && Continues(file, View(t, file), b)
    ensures forall i :: 0 <= i < |Given(b.chunks)| ==> !ChunkRejected(t, Given(b.chunks), i)
  {
    var stored := EraseChunkIds(ChunkRows(t, file));
    assert NumbersBelow(t, file, NextChunkNumber(stored)) by {
      TakenNumbersAreBelowNext(t, file);
      MeasuresIgnoreIds([], ChunkRows(t, file));
    }
    FollowingChunksAreAccepted(t, file, stored, b.chunks);
  }

  lemma {:induction false} BatchEntriesAcceptedIff(t: Tables, file: string, b: Batch)
    requires Consistent(t) && file in t.logFiles && Continues(file, View(t, file), b)
    ensures (forall i :: 0 <= i < |Given(b.entries)| ==> !EntryRejected(t, Given(b.entries), i)) <==>
              StrictlyAscending(View(t, file).entries + b.entries)
  {
    var rows := EntryRows(t, file);
    assert EraseEntryIds(b.entries) == b.entries;
    ViewOrder(rows, b.entries);
    TakenLinesAreRows(t, file);
    EntriesAcceptedIff(t, file, rows, b.entries);
  }

  lemma {:induction false} ErasingKeepsAscending(rows: seq<LogEntry>)
    ensures Ascending(EraseEntryIds(rows)) <==> Ascending(rows)
  {
    var erased := EraseEntryIds(rows);
    if Ascending(rows) {
      forall i, j | 0 <= i < j < |erased| ensures NotAfter(erased, i, j) {
        assert NotAfter(rows, i, j);
      }
    }
    if Ascending(erased) {
      forall i, j | 0 <= i < j < |rows| ensures NotAfter(rows, i, j) {
        assert NotAfter(erased, i, j);
      }
    }
  }

  // ---- What a saved batch does to the views ----

  lemma {:induction false} CompletedEntries(es: seq<LogEntry>, stored: seq<LogEntry>)
    requires EntriesCompleted(Given(es), stored) && EraseEntryIds(es) == es
    ensures EraseEntryIds(stored) == es
  {
    forall i | 0 <= i < |es| ensures stored[i].(id := "") == es[i] {
      assert Given(es)[i] == Some(es[i]) && EraseEntryIds(es)[i] == es[i];
    }
  }

  lemma {:induction false} CompletedChunks(cs: seq<LogChunk>, stored: seq<LogChunk>)
    requires ChunksCompleted(Given(cs), stored) && EraseChunkIds(cs) == cs
    ensures EraseChunkIds(stored) == cs
  {
    forall i | 0 <= i < |cs| ensures stored[i].(id := "") == cs[i] {
      assert Given(cs)[i] == Some(cs[i]) && EraseChunkIds(cs)[i] == cs[i];
    }
  }

  lemma {:induction false} StoredRowsFollow(rows: seq<LogEntry>, stored: seq<LogEntry>)
    requires StrictlyAscending(EraseEntryIds(rows) + EraseEntryIds(stored))
    ensures StrictlyAscending(rows + stored)
  {
    EraseEntryIdsConcat(rows, stored);
    ErasingKeepsOrder(rows + stored);
  }

  lemma {:induction false} FollowingNumbersAscend(file: string, rows: seq<LogChunk>, cs: seq<LogChunk>)
    requires NumbersAscend(rows) && ChunksFollow(file, rows, EraseChunkIds(cs))
    ensures NumbersAscend(rows + cs)
  {
    var all := rows + cs;
    forall j | 0 <= j < |cs| ensures cs[j].chunkNumber == NextChunkNumber(rows) + j {
      assert EraseChunkIds(cs)[j].chunkNumber == cs[j].chunkNumber;
    }
    forall i, j | 0 <= i < j < |all| ensures NumberBelow(all, i, j) {
      if j < |rows| {
        assert NumberBelow(rows, i, j);
      } else if i < |rows| - 1 {
        assert NumberBelow(rows, i, |rows| - 1);
      }
    }
  }

  lemma {:induction false} EntriesOfFile(file: string, es: seq<LogEntry>, stored: seq<LogEntry>)
    requires RowsFor(file, es) && EraseEntryIds(stored) == es
    ensures forall i :: 0 <= i < |stored| ==> stored[i].logFileId == file
  {
    forall i | 0 <= i < |stored| ensures stored[i].logFileId == file {
      assert EraseEntryIds(stored)[i] == es[i];
    }
  }

  lemma {:induction false} ChunksOfFile(file: string, rows: seq<LogChunk>, cs: seq<LogChunk>, stored: seq<LogChunk>)
    requires ChunksFollow(file, rows, cs) && EraseChunkIds(stored) == cs
    ensures forall i :: 0 <= i < |stored| ==> stored[i].logFileId == file
  {
    forall i | 0 <= i < |stored| ensures stored[i].logFileId == file {
      assert EraseChunkIds(stored)[i] == cs[i];
    }
  }

  /** Everything about a repository that saving rows for a log file must leave alone. */
  ghost predicate OthersUntouched(t: Tables, t': Tables, file: string) {
    t'.servers == t.servers && t'.checks == t.checks && t'.logFiles.Keys == t.logFiles.Keys &&
    (forall other :: other != file && other in t.logFiles ==> t'.logFiles[other] == t.logFiles[other]) &&
    (forall other :: other != file ==> View(t', other) == View(t, other))
  }

  lemma {:induction false} ViewAfterEntries(t: Tables, file: string, b: Batch, stored: seq<LogEntry>)
    requires Consistent(t) && Continues(file, View(t, file), b) && SaveBatch(View(t, file), b).Some?
    requires EntriesCompleted(Given(b.entries), stored) && EntriesFit(t, stored)
    ensures EntryRows(PutEntries(t, stored), file) == EntryRows(t, file) + stored
    ensures EraseEntryIds(EntryRows(t, file) + stored) == View(t, file).entries + b.entries
    ensures forall other :: other != file ==> EntryRows(PutEntries(t, stored), other) == EntryRows(t, other)
  {
    assert EraseEntryIds(b.entries) == b.entries;
    CompletedEntries(b.entries, stored);
    StoredRowsFollow(EntryRows(t, file), stored);
    EntriesOfFile(file, b.entries, stored);
    EntriesAfterPut(t, stored, file);
    EraseEntryIdsConcat(EntryRows(t, file), stored);
    forall other | other != file ensures EntryRows(PutEntries(t, stored), other) == EntryRows(t, other) {
      OtherEntriesAfterPut(t, stored, file, other);
    }
  }

  lemma {:induction false} ViewAfterChunks(t: Tables, file: string, b: Batch, stored: seq<LogChunk>)
    requires Consistent(t) && ChunksFollow(file, View(t, file).chunks, b.chunks)
    requires ChunksCompleted(Given(b.chunks), stored) && ChunksFit(t, stored)
    ensures ChunkRows(PutChunks(t, stored), file) == ChunkRows(t, file) + stored
    ensures EraseChunkIds(ChunkRows(t, file) + stored) == View(t, file).chunks + b.chunks
    ensures forall other :: other != file ==> ChunkRows(PutChunks(t, stored), other) == ChunkRows(t, other)
  {
    assert EraseChunkIds(b.chunks) == b.chunks;
    CompletedChunks(b.chunks, stored);
    ChunksOfFile(file, View(t, file).chunks, b.chunks, stored);
    assert ChunkRows(PutChunks(t, stored), file) == ChunkRows(t, file) + stored by {
      ChunkRowsFacts(t, file);
      FollowingNumbersAscend(file, ChunkRows(t, file), stored);
      ChunksAfterPut(t, stored, file);
    }
    EraseChunkIdsConcat(ChunkRows(t, file), stored);
    forall other | other != file ensures ChunkRows(PutChunks(t, stored), other) == ChunkRows(t, other) {
      OtherChunksAfterPut(t, stored, file, other);
    }
  }

  ghost predicate OtherRowsKept(t: Tables, t': Tables, file: string) {
    forall other :: other != file ==>
      EntryRows(t', other) == EntryRows(t, other) && ChunkRows(t', other) == ChunkRows(t, other)
  }

  lemma {:induction false} RowsFollowTables(t: Tables, mid: Tables, t': Tables)
    requires OnlyEntriesDiffer(t, mid) && OnlyChunksDiffer(mid, t')
    ensures forall x :: EntryRows(t', x) == EntryRows(mid, x)
    ensures forall x :: ChunkRows(mid, x) == ChunkRows(t, x)
  {
    forall x ensures EntryRows(t', x) == EntryRows(mid, x) && ChunkRows(mid, x) == ChunkRows(t, x) {
      EntryRowsDependOn(mid, t', x);
      ChunkRowsDependOn(t, mid, x);
    }
  }

  lemma {:induction false} RowsAfterBatch(t: Tables, file: string, b: Batch, stored: Batch)
    requires Consistent(t) && Continues(file, View(t, file), b) && SaveBatch(View(t, file), b).Some?
    requires EntriesCompleted(Given(b.entries), stored.entries) && EntriesFit(t, stored.entries)
    requires ChunksCompleted(Given(b.chunks), stored.chunks) && ChunksFit(t, stored.chunks)
    ensures var t' := PutChunks(PutEntries(t, stored.entries), stored.chunks);
            EraseEntryIds(EntryRows(t', file)) == View(t, file).entries + b.entries &&
            EraseChunkIds(ChunkRows(t', file)) == View(t, file).chunks + b.chunks &&
            OtherRowsKept(t, t', file)
  {
    var mid := PutEntries(t, stored.entries);
    var t' := PutChunks(mid, stored.chunks);
    assert Consistent(mid) && OnlyEntriesDiffer(t, mid) && ChunksFit(mid, stored.chunks) by {
      PutEntriesKeepsConsistent(t, stored.entries);
      ChunkFitIgnoresEntries(mid, t, stored.chunks);
    }
    assert OnlyChunksDiffer(mid, t') by {
      PutChunksKeepsIndexed(mid, stored.chunks);
    }
    RowsFollowTables(t, mid, t');
    ViewAfterEntries(t, file, b, stored.entries);
    ViewAfterChunks(mid, file, b, stored.chunks);
  }

  ghost predicate OnlyRowsDiffer(t: Tables, t': Tables) {
    t' == t.(entries := t'.entries, entriesByLogFile := t'.entriesByLogFile, chunks := t'.chunks,
             chunksByLogFile := t'.chunksByLogFile)
  }

  lemma {:induction false} PutEntriesTouches(t: Tables, es: seq<LogEntry>)
    ensures OnlyEntriesDiffer(t, PutEntries(t, es))
  {
    if es != [] {
      PutEntriesTouches(t, es[..|es| - 1]);
    }
  }

  lemma {:induction false} PutChunksTouches(t: Tables, cs: seq<LogChunk>)
    ensures OnlyChunksDiffer(t, PutChunks(t, cs))
  {
    if cs != [] {
      PutChunksTouches(t, cs[..|cs| - 1]);
    }
  }

  lemma {:induction false} ViewsFromRows(t: Tables, t': Tables, file: string, b: Batch)
    requires OnlyRowsDiffer(t, t') && OtherRowsKept(t, t', file) && SaveBatch(View(t, file), b).Some?
    requires EraseEntryIds(EntryRows(t', file)) == View(t, file).entries + b.entries
    requires EraseChunkIds(ChunkRows(t', file)) == View(t, file).chunks + b.chunks
    ensures View(t', file) == SaveBatch(View(t, file), b).value && OthersUntouched(t, t', file)
  {
  }

  /** A written batch is the model's saved batch, and no other log file sees it. */
  lemma {:induction false} WrittenBatchIsSaved(t: Tables, file: string, b: Batch, stored: Batch, t': Tables)
    requires Consistent(t) && Continues(file, View(t, file), b) && SaveBatch(View(t, file), b).Some?
    requires BatchWritten(t, Given(b.entries), Given(b.chunks), stored.entries, stored.chunks, t')
    ensures View(t', file) == SaveBatch(View(t, file), b).value && OthersUntouched(t, t', file)
    ensures t'.logFiles == t.logFiles
  {
    PutEntriesTouches(t, stored.entries);
    PutChunksTouches(PutEntries(t, stored.entries), stored.chunks);
    assert OnlyRowsDiffer(t, t');
    RowsAfterBatch(t, file, b, stored);
    ViewsFromRows(t, t', file, b);
  }

  // ---- A run's plan can be saved batch by batch ----

  /** What is left to save continues what is stored. */
  ghost predicate Saveable(file: string, fs: FileStore, batches: seq<Batch>) {
    Ascending(fs.entries + Concat(EntryLists(batches))) && RowsFor(file, Concat(EntryLists(batches))) &&
    ChunksFollow(file, fs.chunks, Concat(ChunkLists(batches))) &&
    forall i :: 0 <= i < |batches| ==> batches[i].chunks != []
  }

  lemma {:induction false} AscendingParts(a: seq<LogEntry>, b: seq<LogEntry>, c: seq<LogEntry>)
    requires Ascending(a + (b + c))
    ensures Ascending(a + b) && Ascending((a + b) + c)
  {
    var all := a + (b + c);
    assert all == (a + b) + c;
    forall i, j | 0 <= i < j < |a + b| ensures NotAfter(a + b, i, j) {
      assert NotAfter(all, i, j);
    }
  }

  lemma {:induction false} ChunksFollowParts(file: string, stored: seq<LogChunk>, b: seq<LogChunk>, c: seq<LogChunk>)
    requires ChunksFollow(file, stored, b + c) && b != []
    ensures ChunksFollow(file, stored, b) && ChunksFollow(file, stored + b, c)
  {
    forall i | 0 <= i < |b| ensures b[i] == (b + c)[i] {
    }
    forall i | 0 <= i < |c| ensures c[i] == (b + c)[|b| + i] {
    }
  }

  lemma {:induction false} RowsForParts(file: string, b: seq<LogEntry>, c: seq<LogEntry>)
    requires RowsFor(file, b + c)
    ensures RowsFor(file, b) && RowsFor(file, c)
  {
    forall i | 0 <= i < |b| ensures b[i] == (b + c)[i] {
    }
    forall i | 0 <= i < |c| ensures c[i] == (b + c)[|b| + i] {
    }
  }

  lemma {:induction false} SaveNext(file: string, fs: FileStore, batches: seq<Batch>)
    requires Saveable(file, fs, batches) && batches != []
    ensures Continues(file, fs, batches[0])
    ensures SaveBatch(fs, batches[0]).Some? ==> Saveable(file, SaveBatch(fs, batches[0]).value, batches[1..])
  {
    var b := batches[0];
    var rows, chunks := Concat(EntryLists(batches[1..])), Concat(ChunkLists(batches[1..]));
    assert EntryLists(batches)[1..] == EntryLists(batches[1..]) && ChunkLists(batches)[1..] == ChunkLists(batches[1..]);
    AscendingParts(fs.entries, b.entries, rows);
    RowsForParts(file, b.entries, rows);
    ChunksFollowParts(file, fs.chunks, b.chunks, chunks);
  }

  lemma {:induction false} InRangeAscends(entries: seq<LogEntry>, from: int, to: int)
    requires Ascending(entries)
    ensures Ascending(InRange(entries, from, to))
  {
    if entries != [] {
      var front, last := entries[..|entries| - 1], entries[|entries| - 1];
      forall i, j | 0 <= i < j < |front| ensures NotAfter(front, i, j) {
        assert NotAfter(entries, i, j);
      }
      InRangeAscends(front, from, to);
      forall e | e in InRange(front, from, to) ensures e.lineNumber <= last.lineNumber {
        InRangeMembers(front, from, to, e);
        var i :| 0 <= i < |front| && front[i] == e;
        assert NotAfter(entries, i, |front|);
      }
      if from <= last.lineNumber <= to {
        AppendAscending(InRange(front, from, to), [last]);
      } else {
        assert InRange(entries, from, to) == InRange(front, from, to);
      }
    }
  }

  lemma {:induction false} AppendAscending(a: seq<LogEntry>, b: seq<LogEntry>)
    requires Ascending(a) && Ascending(b)
    requires forall x, y :: x in a && y in b ==> x.lineNumber <= y.lineNumber
    ensures Ascending(a + b)
  {
    var all := a + b;
    forall i, j | 0 <= i < j < |all| ensures NotAfter(all, i, j) {
      if j < |a| {
        assert NotAfter(a, i, j);
      } else if i >= |a| {
        assert NotAfter(b, i - |a|, j - |a|);
      } else {
        assert a[i] in a && b[j - |a|] in b;
      }
    }
  }

  lemma {:induction false} NeighbouringRanges(cfg: Config, entries: seq<LogEntry>, groups: seq<seq<LogEntry>>,
                                              chunks: seq<LogChunk>, k: nat)
    requires Ascending(entries) && BuiltFrom(cfg, entries, groups, chunks) && 0 < k < |chunks|
    ensures chunks[k - 1].toLine <= chunks[k].fromLine
  {
    assert DescribesGroup(cfg, groups, chunks, k - 1) && DescribesGroup(cfg, groups, chunks, k);
    var a := GroupPosition(entries, groups, k - 1);
    var b := GroupPosition(entries, groups, k);
    assert b == a + |groups[k - 1]| by {
      assert groups[..k] == groups[..k - 1] + [groups[k - 1]];
      ConcatSnoc(groups[..k - 1], groups[k - 1]);
    }
    assert entries[a..b][|groups[k - 1]| - 1] == entries[b - 1] && entries[b..b + |groups[k]|][0] == entries[b];
    assert NotAfter(entries, b - 1, b);
  }

  /** Even when the chunks' ranges touch, reading their rows chunk after chunk never goes back. */
  lemma {:induction false} BuiltRowsAscend(cfg: Config, entries: seq<LogEntry>, groups: seq<seq<LogEntry>>,
                                           chunks: seq<LogChunk>, k: nat)
    requires Ascending(entries) && BuiltFrom(cfg, entries, groups, chunks) && k <= |chunks|
    ensures Ascending(RowsOf(entries, chunks[..k]))
    ensures forall e :: e in RowsOf(entries, chunks[..k]) ==> k > 0 && e.lineNumber <= chunks[k - 1].toLine
  {
    if k > 0 {
      var c := chunks[k - 1];
      var before, own := RowsOf(entries, chunks[..k - 1]), InRange(entries, c.fromLine, c.toLine);
      assert RowsOf(entries, chunks[..k]) == before + own by {
        assert chunks[..k] == chunks[..k - 1] + [c];
        RowsOfSnoc(entries, chunks[..k - 1], c);
      }
      BuiltRowsAscend(cfg, entries, groups, chunks, k - 1);
      InRangeAscends(entries, c.fromLine, c.toLine);
      forall y | y in own ensures c.fromLine <= y.lineNumber <= c.toLine {
        InRangeMembers(entries, c.fromLine, c.toLine, y);
      }
      assert DescribesGroup(cfg, groups, chunks, k - 1);
      if k > 1 {
        NeighbouringRanges(cfg, entries, groups, chunks, k - 1);
      }
      assert c.fromLine <= c.toLine by {
        var a := GroupPosition(entries, groups, k - 1);
        var n := |groups[k - 1]|;
        assert entries[a..a + n][0] == entries[a] && entries[a..a + n][n - 1] == entries[a + n - 1];
        assert n == 1 || NotAfter(entries, a, a + n - 1);
      }
      AppendAscending(before, own);
    }
  }

  lemma {:induction false} NewEntriesAreFor(cfg: Config, lines: seq<Line>, start: int)
    ensures RowsFor(cfg.logFileId, NewEntries(cfg, lines, start))
  {
    if lines != [] {
      NewEntriesAreFor(cfg, lines[..|lines| - 1], start);
    }
  }

  lemma {:induction false} SelectedRowsAreFor(file: string, added: seq<LogEntry>, chunks: seq<LogChunk>)
    requires RowsFor(file, added)
    ensures RowsFor(file, RowsOf(added, chunks))
  {
    var rows := RowsOf(added, chunks);
    forall i | 0 <= i < |rows| ensures rows[i].logFileId == file && rows[i].id == "" {
      History.RowsOfMembers(added, chunks, rows[i]);
    }
  }

  lemma {:induction false} MaxLineBounds(entries: seq<LogEntry>, e: LogEntry)
    requires StrictlyAscending(entries) && e in entries
    ensures e.lineNumber <= MaxLine(entries)
  {
    var i :| 0 <= i < |entries| && entries[i] == e;
    assert i == |entries| - 1 || Before(entries, i, |entries| - 1);
  }

  lemma {:induction false} RowsFollowBase(cfg: Config, base: FileStore, lines: seq<Line>, chunks: seq<LogChunk>)
    requires StrictlyAscending(base.entries) && SortedLines(lines)
    requires Ascending(RowsOf(NewEntries(cfg, lines, MaxLine(base.entries)), chunks))
    ensures Ascending(base.entries + RowsOf(NewEntries(cfg, lines, MaxLine(base.entries)), chunks))
  {
    var added := NewEntries(cfg, lines, MaxLine(base.entries));
    var rows := RowsOf(added, chunks);
    StrictlyAscendingIsAscending(base.entries);
    NewEntriesSorted(cfg, lines, MaxLine(base.entries));
    forall x, y | x in base.entries && y in rows ensures x.lineNumber <= y.lineNumber {
      MaxLineBounds(base.entries, x);
      History.RowsOfMembers(added, chunks, y);
    }
    AppendAscending(base.entries, rows);
  }

  /** Whatever was read, even with repeated line numbers, the planned batches continue the store. */
  lemma {:induction false} PlanIsSaveable(cfg: Config, base: FileStore, lines: seq<Line>)
    requires ValidConfig(cfg) && StrictlyAscending(base.entries) && SortedLines(lines)
    ensures Saveable(cfg.logFileId, base, BatchesFor(cfg, NewEntries(cfg, lines, MaxLine(base.entries)),
                                                     NextChunkNumber(base.chunks)))
  {
    var start, first := MaxLine(base.entries), NextChunkNumber(base.chunks);
    var added := NewEntries(cfg, lines, start);
    var bs := BatchesFor(cfg, added, first);
    if added == [] {
      NothingIsSaveable(cfg.logFileId, base);
    } else {
      RunSavesPlan(cfg, added, first);
      RowsOfBatches(added, bs);
      ChunksOfFollow(cfg, base.chunks, Split(added, cfg.options.chunkSize));
      PlannedRowsContinue(cfg, base, lines);
      OwnRowsMeanChunks(added, bs);
    }
  }

  lemma {:induction false} ChunksOfFollow(cfg: Config, stored: seq<LogChunk>, groups: seq<seq<LogEntry>>)
    requires BoundedGroups(groups, cfg.options.chunkSize)
    ensures ChunksFollow(cfg.logFileId, stored, ChunksOf(cfg, groups, NextChunkNumber(stored)))
  {
  }

  lemma {:induction false} OwnRowsMeanChunks(added: seq<LogEntry>, bs: seq<Batch>)
    requires AllCarryOwnRows(added, bs)
    ensures forall i :: 0 <= i < |bs| ==> bs[i].chunks != []
  {
    forall i | 0 <= i < |bs| ensures bs[i].chunks != [] {
      assert CarriesOwnRows(added, bs[i]);
    }
  }

  lemma {:induction false} NothingIsSaveable(file: string, base: FileStore)
    requires StrictlyAscending(base.entries)
    ensures Saveable(file, base, [])
  {
    StrictlyAscendingIsAscending(base.entries);
    assert base.entries + [] == base.entries && EntryLists([]) == [] && ChunkLists([]) == [];
  }

  lemma {:induction false} PlannedRowsContinue(cfg: Config, base: FileStore, lines: seq<Line>)
    requires ValidConfig(cfg) && StrictlyAscending(base.entries) && SortedLines(lines)
    requires NewEntries(cfg, lines, MaxLine(base.entries)) != []
    ensures var added := NewEntries(cfg, lines, MaxLine(base.entries));
            var groups := Split(added, cfg.options.chunkSize);
            BoundedGroups(groups, cfg.options.chunkSize) &&
            var rows := RowsOf(added, ChunksOf(cfg, groups, NextChunkNumber(base.chunks)));
            Ascending(base.entries + rows) && RowsFor(cfg.logFileId, rows)
  {
    var added, first := NewEntries(cfg, lines, MaxLine(base.entries)), NextChunkNumber(base.chunks);
    var groups := Split(added, cfg.options.chunkSize);
    SplitBuildsFrom(cfg, added, first);
    var chunks := ChunksOf(cfg, groups, first);
    assert Ascending(base.entries + RowsOf(added, chunks)) by {
      assert Ascending(RowsOf(added, chunks)) by {
        NewEntriesSorted(cfg, lines, MaxLine(base.entries));
        BuiltRowsAscend(cfg, added, groups, chunks, |chunks|);
        assert chunks[..|chunks|] == chunks;
      }
      RowsFollowBase(cfg, base, lines, chunks);
    }
    assert RowsFor(cfg.logFileId, RowsOf(added, chunks)) by {
      NewEntriesAreFor(cfg, lines, MaxLine(base.entries));
      SelectedRowsAreFor(cfg.logFileId, added, chunks);
    }
  }

  // ---- Saving ----

  lemma {:induction false} OthersUntouchedTwice(a: Tables, b: Tables, c: Tables, file: string)
    requires OthersUntouched(a, b, file) && OthersUntouched(b, c, file)
    ensures OthersUntouched(a, c, file)
  {
  }

  /** One turn of the saving loop, on the model's side. */
  lemma {:induction false} SaveStep(file: string, fs: FileStore, batches: seq<Batch>, i: nat, left: nat)
    requires i < |batches| && Saveable(file, fs, batches[i..])
    ensures Continues(file, fs, batches[i])
    ensures left == 0 ==> SaveAll(fs, batches[i..], left) == Saved(fs, false)
    ensures left > 0 && SaveBatch(fs, batches[i]).None? ==> SaveAll(fs, batches[i..], left) == Saved(fs, false)
    ensures left > 0 && SaveBatch(fs, batches[i]).Some? ==>
              SaveAll(fs, batches[i..], left) == SaveAll(SaveBatch(fs, batches[i]).value, batches[i + 1..], left - 1)
    ensures SaveBatch(fs, batches[i]).Some? ==> Saveable(file, SaveBatch(fs, batches[i]).value, batches[i + 1..])
  {
    assert batches[i..][0] == batches[i] && batches[i..][1..] == batches[i + 1..];
    SaveNext(file, fs, batches[i..]);
  }

  method SaveOneBatch(store: Store, file: string, b: Batch) returns (ok: bool)
    requires store.Valid() && file in store.logFiles && Continues(file, View(store.State(), file), b)
    modifies store
    ensures store.Valid() && store.logFiles == old(store.logFiles)
    ensures ok <==> SaveBatch(old(View(store.State(), file)), b).Some?
    ensures ok ==> View(store.State(), file) == SaveBatch(old(View(store.State(), file)), b).value
    ensures !ok ==> store.State() == old(store.State())
    ensures OthersUntouched(old(store.State()), store.State(), file)
  {
    ghost var t := store.State();
    AcceptedIff(t, file, b);
    var r := store.CreateLogEntriesWithChunks(Given(b.entries), Given(b.chunks));
    ok := r.Success?;
    if ok {
      WrittenBatchIsSaved(t, file, b, r.value, store.State());
    }
  }

  /** Batches `i` onwards are still to be saved, and saving them completes what saving all of them would have done. */
  ghost predicate Pending(t: Tables, now: Tables, file: string, batches: seq<Batch>, i: nat, left: nat, budget: nat) {
    i <= |batches| && Saveable(file, View(now, file), batches[i..]) &&
    SaveAll(View(now, file), batches[i..], left) == SaveAll(View(t, file), batches, budget) &&
    now.logFiles == t.logFiles && OthersUntouched(t, now, file)
  }

  method SaveNextBatch(store: Store, ghost t: Tables, file: string, batches: seq<Batch>, i: nat, left: nat,
                       ghost budget: nat)
    returns (ok: bool)
    requires store.Valid() && file in store.logFiles && i < |batches|
    requires Pending(t, store.State(), file, batches, i, left, budget)
    modifies store
    ensures store.Valid()
    ensures ok ==> left > 0 && Pending(t, store.State(), file, batches, i + 1, left - 1, budget)
    ensures !ok ==> Saved(View(store.State(), file), false) == SaveAll(View(t, file), batches, budget)
    ensures store.logFiles == old(store.logFiles) && OthersUntouched(t, store.State(), file)
  {
    ghost var before := store.State();
    SaveStep(file, View(before, file), batches, i, left);
    if left == 0 {
      return false;
    }
    ok := SaveOneBatch(store, file, batches[i]);
    if ok {
      OthersUntouchedTwice(t, before, store.State(), file);
    }
  }

  /** Batches go to the repository one after the other until one is refused or the repository fails. `budget` is how
      many writes it serves before it fails. */
  method SaveEntriesAndChunks(store: Store, file: string, entries: seq<LogEntry>, chunks: seq<LogChunk>, batchSize: int,
                              budget: nat)
    returns (complete: bool, left: nat)
    requires store.Valid() && file in store.logFiles && chunks != []
    requires Saveable(file, View(store.State(), file), Pack(entries, chunks, batchSize))
    modifies store
    ensures store.Valid() && store.logFiles == old(store.logFiles)
    ensures Saved(View(store.State(), file), complete) ==
              SaveAll(old(View(store.State(), file)), Pack(entries, chunks, batchSize), budget)
    ensures complete ==> left == budget - |Pack(entries, chunks, batchSize)|
    ensures OthersUntouched(old(store.State()), store.State(), file)
  {
    var batches := SplitEntryChunkBatches(entries, chunks, batchSize);
    ghost var t := store.State();
    left := budget;
    assert batches[0..] == batches;
    for i := 0 to |batches|
      invariant store.Valid() && file in store.logFiles && left == budget - i
      invariant Pending(t, store.State(), file, batches, i, left, budget)
    {
      complete := SaveNextBatch(store, t, file, batches, i, left, budget);
      if !complete {
        return;
      }
      left := left - 1;
    }
    complete := true;
  }

  // ---- Collecting ----

  /** Clearing what was collected from a rotated file. */
  method ResetLogFileState(store: Store, file: string)
    requires store.Valid() && file in store.logFiles
    modifies store
    ensures store.Valid() && store.logFiles == old(store.logFiles)
    ensures View(store.State(), file) == old(View(store.State(), file)).(entries := [], chunks := [])
    ensures OthersUntouched(old(store.State()), store.State(), file)
  {
    ghost var t := store.State();
    DropRowsEmptiesView(t, file);
    store.DeleteLogEntriesByLogFile(file);
    store.DeleteLogChunksByLogFile(file);
  }

  lemma {:induction false} DropRowsEmptiesView(t: Tables, file: string)
    requires Consistent(t)
    ensures var t' := DropChunks(DropEntries(t, {file}), {file});
            View(t', file) == View(t, file).(entries := [], chunks := []) && OthersUntouched(t, t', file)
  {
    forall x ensures RowsDropped(t, DropChunks(DropEntries(t, {file}), {file}), file, x) {
      RowsAfterDrop(t, file, x);
    }
    ViewsAfterDrop(t, DropChunks(DropEntries(t, {file}), {file}), file);
  }

  ghost predicate RowsDropped(t: Tables, t': Tables, file: string, x: string) {
    EntryRows(t', x) == (if x == file then [] else EntryRows(t, x)) &&
    ChunkRows(t', x) == (if x == file then [] else ChunkRows(t, x))
  }

  lemma {:induction false} ViewsAfterDrop(t: Tables, t': Tables, file: string)
    requires OnlyRowsDiffer(t, t') && forall x :: RowsDropped(t, t', file, x)
    ensures View(t', file) == View(t, file).(entries := [], chunks := []) && OthersUntouched(t, t', file)
  {
    assert RowsDropped(t, t', file, file);
    forall other | other != file ensures View(t', other) == View(t, other) {
      assert RowsDropped(t, t', file, other);
    }
  }

  lemma {:induction false} RowsAfterDrop(t: Tables, file: string, x: string)
    requires Consistent(t)
    ensures RowsDropped(t, DropChunks(DropEntries(t, {file}), {file}), file, x)
  {
    var mid := DropEntries(t, {file});
    DropEntriesKeepsConsistent(t, file);
    EntriesAfterDrop(t, file, x);
    EntryRowsDependOn(mid, DropChunks(mid, {file}), x);
    ChunkRowsDependOn(t, mid, x);
    ChunksAfterDrop(mid, file, x);
  }

  method EntriesFromLines(cfg: Config, lines: seq<Line>, maxLine: int) returns (entries: seq<LogEntry>)
    ensures RowsOfLines(cfg, entries, LinesAbove(lines, maxLine))
    ensures entries == NewEntries(cfg, lines, maxLine)
  {
    NewEntriesAreRows(cfg, lines, maxLine);
    entries := [];
    for i := 0 to |lines|
      invariant entries == NewEntries(cfg, lines[..i], maxLine)
    {
      assert lines[..i + 1][..i] == lines[..i];
      var line := lines[i];
      if line.number <= maxLine {
        continue;
      }
      var content := line.content;
      if !cfg.options.storeRawContent {
        content := "";
      }
      entries := entries + [LogEntry("", cfg.logFileId, line.number, content, cfg.hasher.line(line.content))];
    }
    assert lines[..|lines|] == lines;
  }

  lemma {:induction false} MeasuresIgnoreIds(rows: seq<LogEntry>, chunks: seq<LogChunk>)
    ensures MaxLine(EraseEntryIds(rows)) == MaxLine(rows)
    ensures NextChunkNumber(EraseChunkIds(chunks)) == NextChunkNumber(chunks)
  {
  }

  lemma {:induction false} ViewMeasures(t: Tables, file: string)
    requires Consistent(t)
    ensures MaxLine(View(t, file).entries) == MaxLine(EntryRows(t, file))
    ensures NextChunkNumber(View(t, file).chunks) == NextChunkNumber(ChunkRows(t, file))
    ensures StrictlyAscending(View(t, file).entries)
  {
    MeasuresIgnoreIds(EntryRows(t, file), ChunkRows(t, file));
    assert StrictlyAscending(EntryRows(t, file)) by {
      EntryRowsFacts(t, file);
    }
    ErasingKeepsOrder(EntryRows(t, file));
  }

  lemma {:induction false} LatestNumber(t: Tables, file: string)
    ensures NextChunkNumber(View(t, file).chunks) ==
              (if ChunkRows(t, file) == [] then -1 else ChunkRows(t, file)[|ChunkRows(t, file)| - 1].chunkNumber) + 1
  {
  }

  lemma {:induction false} PlanOnStore(t: Tables, cfg: Config, lines: seq<Line>)
    requires Consistent(t) && ValidConfig(cfg) && SortedLines(lines)
    ensures var fs := View(t, cfg.logFileId);
            Saveable(cfg.logFileId, fs, BatchesFor(cfg, NewEntries(cfg, lines, MaxLine(fs.entries)),
                                                   NextChunkNumber(fs.chunks)))
  {
    ViewMeasures(t, cfg.logFileId);
    PlanIsSaveable(cfg, View(t, cfg.logFileId), lines);
  }

  method LatestChunkNumber(store: Store, file: string) returns (number: int)
    requires store.Valid()
    ensures number + 1 == NextChunkNumber(View(store.State(), file).chunks)
  {
    var latest := store.GetLatestLogChunk(file);
    number := if latest.Success? then latest.value.chunkNumber else -1;
    LatestNumber(store.State(), file);
  }

  /** Chunks for the new entries, and both saved. */
  method SaveNewEntries(store: Store, cfg: Config, ghost lines: seq<Line>, entries: seq<LogEntry>, budget: nat)
    returns (complete: bool, left: nat)
    requires store.Valid() && cfg.logFileId in store.logFiles && ValidConfig(cfg) && SortedLines(lines)
    requires entries == NewEntries(cfg, lines, MaxLine(View(store.State(), cfg.logFileId).entries))
    modifies store
    ensures store.Valid() && store.logFiles == old(store.logFiles)
    ensures var fs := old(View(store.State(), cfg.logFileId));
            var batches := BatchesFor(cfg, entries, NextChunkNumber(fs.chunks));
            Saved(View(store.State(), cfg.logFileId), complete) == SaveAll(fs, batches, budget) &&
            (complete ==> left == budget - |batches|)
    ensures OthersUntouched(old(store.State()), store.State(), cfg.logFileId)
  {
    complete, left := true, budget;
    if |entries| > 0 {
      ghost var fs := View(store.State(), cfg.logFileId);
      var latest := LatestChunkNumber(store, cfg.logFileId);
      var chunks := BuildChunks(cfg, entries, latest);
      assert Saveable(cfg.logFileId, fs, BatchesFor(cfg, entries, NextChunkNumber(fs.chunks))) by {
        PlanOnStore(store.State(), cfg, lines);
      }
      complete, left := SaveEntriesAndChunks(store, cfg.logFileId, entries, chunks, cfg.options.batchSize, budget);
    }
  }

  /** The row a completed run leaves for the log file. */
  function ScannedRow(f: LogFile, reset: bool, inspected: Option<FileIdentity>, lines: seq<Line>): LogFile {
    f.(identity := if inspected.Some? then inspected.value else f.identity,
       lastLineNumber := if lines != [] then lines[|lines| - 1].number else if reset then 0 else f.lastLineNumber,
       scanned := true)
  }

  /** Column by column: scanned now, with the identity just inspected and the number of the last line read; without
      lines the number is what it was, or none after a reset. */
  predicate IsScanned(f: LogFile, row: LogFile, reset: bool, inspected: Option<FileIdentity>, lines: seq<Line>) {
    row.scanned && row.id == f.id && row.serverId == f.serverId && row.path == f.path && row.logType == f.logType &&
    row.isActive == f.isActive &&
    (inspected.Some? ==> row.identity == inspected.value) && (inspected.None? ==> row.identity == f.identity) &&
    (lines != [] ==> row.lastLineNumber == lines[|lines| - 1].number) &&
    (lines == [] && reset ==> row.lastLineNumber == 0) &&
    (lines == [] && !reset ==> row.lastLineNumber == f.lastLineNumber)
  }

  lemma {:induction false} ViewAfterReplace(t: Tables, f: LogFile)
    requires f.id in t.logFiles
    ensures View(ReplaceFile(t, f), f.id) == View(t, f.id).(identity := f.identity)
    ensures OthersUntouched(t, ReplaceFile(t, f), f.id)
  {
    var t' := ReplaceFile(t, f);
    forall x ensures EntryRows(t', x) == EntryRows(t, x) && ChunkRows(t', x) == ChunkRows(t, x) {
      EntryRowsDependOn(t, t', x);
      ChunkRowsDependOn(t, t', x);
    }
  }

  lemma {:induction false} CurrentRowIsReplaceable(t: Tables, f: LogFile, f': LogFile)
    requires Consistent(t) && f.id in t.logFiles && t.logFiles[f.id] == f
    requires f'.id == f.id && f'.serverId == f.serverId && f'.path == f.path
    ensures Replaceable(t, f')
  {
    assert FileListed(t.logFiles, t.logFilesByServer, f.id);
  }

  method SetScanned(f: LogFile, reset: bool, inspected: Option<FileIdentity>, lines: seq<Line>) returns (row: LogFile)
    ensures row == ScannedRow(f, reset, inspected, lines) && IsScanned(f, row, reset, inspected, lines)
  {
    row := f;
    if reset {
      row := row.(lastLineNumber := 0);
    }
    if inspected.Some? {
      row := row.(identity := inspected.value);
    }
    if |lines| > 0 {
      row := row.(lastLineNumber := lines[|lines| - 1].number);
    }
    row := row.(scanned := true);
  }

  method UpdateScannedRow(store: Store, f: LogFile, reset: bool, inspected: Option<FileIdentity>, lines: seq<Line>)
    requires store.Valid() && f.id in store.logFiles && store.logFiles[f.id] == f
    modifies store
    ensures store.Valid() && f.id in store.logFiles
    ensures store.logFiles[f.id] == ScannedRow(f, reset, inspected, lines)
    ensures IsScanned(f, store.logFiles[f.id], reset, inspected, lines)
    ensures View(store.State(), f.id) ==
              old(View(store.State(), f.id)).(identity := ScannedRow(f, reset, inspected, lines).identity)
    ensures OthersUntouched(old(store.State()), store.State(), f.id)
  {
    var row := SetScanned(f, reset, inspected, lines);
    CurrentRowIsReplaceable(store.State(), f, row);
    ViewAfterReplace(store.State(), row);
    var r := store.UpdateLogFile(row);
  }

  ghost predicate RunAllowed(store: Store, cfg: Config, f: LogFile, c: Circumstances)
    reads store
  {
    store.Valid() && f.id in store.logFiles && store.logFiles[f.id] == f && cfg.logFileId == f.id &&
    ValidConfig(cfg) && SortedReads(c)
  }

  /** Where a run starts reading, and whether it starts over. */
  method StartOfRun(store: Store, f: LogFile, inspected: Option<FileIdentity>, ghost c: Circumstances)
    returns (reset: bool, maxLine: int)
    requires store.Valid() && f.id in store.logFiles && store.logFiles[f.id] == f && c.inspected == inspected
    ensures reset == Resets(View(store.State(), f.id), c) && maxLine == StartLine(View(store.State(), f.id), c)
  {
    ViewMeasures(store.State(), f.id);
    reset := inspected.Some? && ShouldReset(f.identity, inspected.value);
    maxLine := 0;
    if !reset {
      maxLine := store.GetMaxLineNumber(f.id);
    }
  }

  method PrepareBase(store: Store, f: LogFile, reset: bool, ghost c: Circumstances)
    requires store.Valid() && f.id in store.logFiles && reset == Resets(View(store.State(), f.id), c)
    modifies store
    ensures store.Valid() && store.logFiles == old(store.logFiles)
    ensures View(store.State(), f.id) == BaseStore(old(View(store.State(), f.id)), c)
    ensures MaxLine(View(store.State(), f.id).entries) == StartLine(old(View(store.State(), f.id)), c)
    ensures OthersUntouched(old(store.State()), store.State(), f.id)
  {
    if reset {
      ResetLogFileState(store, f.id);
    }
  }

  /** What a run leaves of the rows: all that were there, and those of the first lines read beyond them; all of these,
      and their number as the result, if it succeeds. A failed read changes nothing. */
  ghost predicate AddsWhatWasRead(cfg: Config, fs: FileStore, c: Circumstances, fs': FileStore, r: Outcome<nat>) {
    match c.read(StartLine(fs, c))
    case None => r.Failure? && fs' == fs
    case Some(read) =>
      var lines := LinesAbove(read, StartLine(fs, c));
      exists m: nat :: AddsRows(cfg, BaseStore(fs, c).entries, fs'.entries, lines, m) &&
                       (r.Success? ==> m == |lines| == r.value)
  }

  lemma {:induction false} RunAddsWhatWasRead(cfg: Config, fs: FileStore, c: Circumstances)
    requires ValidConfig(cfg) && SortedReads(c)
    ensures AddsWhatWasRead(cfg, fs, c, Collect(cfg, fs, c).fs, Collect(cfg, fs, c).outcome)
  {
    if c.read(StartLine(fs, c)).Some? {
      var m := RunAddsRows(cfg, fs, c);
    }
  }

  /** One collection run on the repository computes exactly the model's run on the log file's view, and no other log
      file, server or check result changes. */
  method CollectLogFile(store: Store, cfg: Config, f: LogFile, inspected: Option<FileIdentity>,
                        read: int -> Option<seq<Line>>, budget: nat)
    returns (r: Outcome<nat>)
    requires RunAllowed(store, cfg, f, Circumstances(inspected, read, budget))
    modifies store
    ensures store.Valid()
    ensures RunResult(View(store.State(), f.id), r) ==
              Collect(cfg, old(View(store.State(), f.id)), Circumstances(inspected, read, budget))
    ensures AddsWhatWasRead(cfg, old(View(store.State(), f.id)), Circumstances(inspected, read, budget),
                            View(store.State(), f.id), r)
    ensures OthersUntouched(old(store.State()), store.State(), f.id)
    ensures r.Success? ==>
              var c, fs := Circumstances(inspected, read, budget), old(View(store.State(), f.id));
              f.id in store.logFiles && read(StartLine(fs, c)).Some? &&
              store.logFiles[f.id] == ScannedRow(f, Resets(fs, c), inspected, read(StartLine(fs, c)).value) &&
              IsScanned(f, store.logFiles[f.id], Resets(fs, c), inspected, read(StartLine(fs, c)).value)
  {
    ghost var c := Circumstances(inspected, read, budget);
    ghost var t := store.State();
    RunAddsWhatWasRead(cfg, View(t, f.id), c);
    var reset, maxLine := StartOfRun(store, f, inspected, c);
    var got := read(maxLine);
    if got.None? {
      return Failure(Unavailable);
    }
    var lines := got.value;
    assert SortedLines(lines) by {
      assert c.read(maxLine).Some?;
    }
    PrepareBase(store, f, reset, c);
    ghost var base := store.State();
    var newEntries := EntriesFromLines(cfg, lines, maxLine);
    var complete, left := SaveNewEntries(store, cfg, lines, newEntries, budget);
    OthersUntouchedTwice(t, base, store.State(), f.id);
    if !complete || left == 0 {
      return Failure(Unavailable);
    }
    ghost var saved := store.State();
    UpdateScannedRow(store, f, reset, inspected, lines);
    OthersUntouchedTwice(t, saved, store.State(), f.id);
    return Success(|newEntries|);
  }
}

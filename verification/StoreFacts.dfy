/** What a well-grouped store means row by row, and what a run adds to it. */
module StoreFacts {
  import opened Prelude
  import opened Models
  import opened Hashing
  import opened Chunking
  import opened Batches
  import opened Collector

  ghost predicate Covers(c: LogChunk, e: LogEntry) {
    c.fromLine <= e.lineNumber <= c.toLine
  }

  /** The stored rows in a chunk's line range, their number and their hash are the ones the chunk records. */
  ghost predicate MatchesRows(h: Hasher, entries: seq<LogEntry>, c: LogChunk) {
    var rows := InRange(entries, c.fromLine, c.toLine);
    |rows| == c.entriesCount && c.hash == AggregateHash(h, rows)
  }

  ghost predicate RangesOrdered(chunks: seq<LogChunk>, i: int, j: int)
    requires 0 <= i < j < |chunks|
  {
    chunks[i].toLine < chunks[j].fromLine
  }

  ghost predicate CoveredOnce(fs: FileStore, k: int)
    requires 0 <= k < |fs.entries|
  {
    exists i :: 0 <= i < |fs.chunks| && Covers(fs.chunks[i], fs.entries[k]) &&
                forall j :: 0 <= j < |fs.chunks| && Covers(fs.chunks[j], fs.entries[k]) ==> j == i
  }

  ghost predicate ChunkInOrder(cfg: Config, fs: FileStore, i: int)
    requires 0 <= i < |fs.chunks|
  {
    var c := fs.chunks[i];
    c.chunkNumber == i && 0 < c.entriesCount <= cfg.options.chunkSize && c.fromLine <= c.toLine &&
    MatchesRows(cfg.hasher, fs.entries, c)
  }

  /** Chunks are numbered 0, 1, 2, ..., have disjoint and increasing line ranges, never exceed the chunk size, and
      describe the stored rows exactly; every stored row lies in exactly one chunk. */
  ghost predicate WellFormed(cfg: Config, fs: FileStore) {
    StrictlyAscending(fs.entries) &&
    (forall i :: 0 <= i < |fs.chunks| ==> ChunkInOrder(cfg, fs, i)) &&
    (forall i, j :: 0 <= i < j < |fs.chunks| ==> RangesOrdered(fs.chunks, i, j)) &&
    (forall k :: 0 <= k < |fs.entries| ==> CoveredOnce(fs, k))
  }

  /** Groups come one after the other. */
  lemma {:induction false} GroupsInOrder<T>(groups: seq<seq<T>>, i: nat, j: nat)
    requires i < j <= |groups|
    ensures |Concat(groups[..i])| + |groups[i]| <= |Concat(groups[..j])|
  {
    assert groups[..j] == groups[..j - 1] + [groups[j - 1]];
    ConcatSnoc(groups[..j - 1], groups[j - 1]);
    if i < j - 1 {
      GroupsInOrder(groups, i, j - 1);
    }
  }

  lemma {:induction false} GroupHolding<T>(groups: seq<seq<T>>, k: nat) returns (i: nat)
    requires k < |Concat(groups)|
    ensures i < |groups| && |Concat(groups[..i])| <= k < |Concat(groups[..i])| + |groups[i]|
  {
    var front, last := groups[..|groups| - 1], groups[|groups| - 1];
    assert groups == front + [last];
    ConcatSnoc(front, last);
    if k < |Concat(front)| {
      i := GroupHolding(front, k);
      assert front[..i] == groups[..i];
    } else {
      i := |groups| - 1;
    }
  }

  lemma {:induction false} GroupedChunk(cfg: Config, fs: FileStore, groups: seq<seq<LogEntry>>, i: nat) returns (a: nat)
    requires Grouped(cfg, fs, groups) && i < |fs.chunks|
    ensures a == |Concat(groups[..i])| && a + |groups[i]| <= |fs.entries| && groups[i] != []
    ensures fs.entries[a..a + |groups[i]|] == groups[i]
    ensures fs.chunks[i].fromLine == fs.entries[a].lineNumber
    ensures fs.chunks[i].toLine == fs.entries[a + |groups[i]| - 1].lineNumber
    ensures ChunkInOrder(cfg, fs, i)
    ensures InRange(fs.entries, fs.chunks[i].fromLine, fs.chunks[i].toLine) == groups[i]
  {
    a := GroupPosition(fs.entries, groups, i);
    var b := a + |groups[i]|;
    assert DescribesGroup(cfg, groups, fs.chunks, i);
    assert groups[i][0] == fs.entries[a] && groups[i][|groups[i]| - 1] == fs.entries[b - 1];
    assert InRange(fs.entries, fs.chunks[i].fromLine, fs.chunks[i].toLine) == groups[i] by {
      StrictRangeOfGroup(fs.entries, a, b);
    }
    assert b - 1 == a || Before(fs.entries, a, b - 1);
  }

  lemma {:induction false} GroupedRangesOrdered(cfg: Config, fs: FileStore, groups: seq<seq<LogEntry>>, i: nat, j: nat)
    requires Grouped(cfg, fs, groups) && i < j < |fs.chunks|
    ensures RangesOrdered(fs.chunks, i, j)
  {
    var a := GroupedChunk(cfg, fs, groups, i);
    var b := GroupedChunk(cfg, fs, groups, j);
    GroupsInOrder(groups, i, j);
    assert Before(fs.entries, a + |groups[i]| - 1, b);
  }

  lemma {:induction false} GroupedCovers(cfg: Config, fs: FileStore, groups: seq<seq<LogEntry>>, k: nat)
    returns (i: nat)
    requires Grouped(cfg, fs, groups) && k < |fs.entries|
    ensures i < |fs.chunks| && Covers(fs.chunks[i], fs.entries[k])
  {
    i := GroupHolding(groups, k);
    var a := GroupedChunk(cfg, fs, groups, i);
    var b := a + |groups[i]| - 1;
    assert a == k || Before(fs.entries, a, k);
    assert b == k || Before(fs.entries, k, b);
  }

  /** Well-grouped stores have every row-by-row property. */
  lemma {:induction false} GroupedIsWellFormed(cfg: Config, fs: FileStore)
    requires WellGrouped(cfg, fs)
    ensures WellFormed(cfg, fs)
  {
    var groups :| Grouped(cfg, fs, groups);
    forall i | 0 <= i < |fs.chunks| ensures ChunkInOrder(cfg, fs, i) {
      var _ := GroupedChunk(cfg, fs, groups, i);
    }
    forall i, j | 0 <= i < j < |fs.chunks| ensures RangesOrdered(fs.chunks, i, j) {
      GroupedRangesOrdered(cfg, fs, groups, i, j);
    }
    forall k | 0 <= k < |fs.entries| ensures CoveredOnce(fs, k) {
      var i := GroupedCovers(cfg, fs, groups, k);
      forall j | 0 <= j < |fs.chunks| && Covers(fs.chunks[j], fs.entries[k]) ensures j == i {
        if j < i {
          GroupedRangesOrdered(cfg, fs, groups, j, i);
        } else if i < j {
          GroupedRangesOrdered(cfg, fs, groups, i, j);
        }
      }
    }
  }

  // ---- What a run adds ----

  /** Without repeated lines nothing is rejected: the run stops only when the budget runs out, after a prefix. */
  lemma {:induction false} SaveAllSavesPrefix(fs: FileStore, batches: seq<Batch>, budget: nat) returns (m: nat)
    requires StrictlyAscending(fs.entries + Concat(EntryLists(batches)))
    ensures m <= |Concat(EntryLists(batches))|
    ensures SaveAll(fs, batches, budget).fs.entries == fs.entries + Concat(EntryLists(batches))[..m]
    ensures SaveAll(fs, batches, budget).complete <==> |batches| <= budget
    ensures |batches| <= budget ==> m == |Concat(EntryLists(batches))|
    decreases |batches|
  {
    m := 0;
    if batches != [] && budget > 0 {
      var b, rest := batches[0].entries, Concat(EntryLists(batches[1..]));
      assert EntryLists(batches)[1..] == EntryLists(batches[1..]);
      assert Concat(EntryLists(batches)) == b + rest;
      assert fs.entries + (b + rest) == (fs.entries + b) + rest;
      StrictlyAscendingParts(fs.entries + b, rest);
      var k := SaveAllSavesPrefix(SaveBatch(fs, batches[0]).value, batches[1..], budget - 1);
      m := |b| + k;
      assert (b + rest)[..m] == b + rest[..k];
    }
  }

  lemma {:induction false} SaveAllKeepsIdentity(fs: FileStore, batches: seq<Batch>, budget: nat)
    ensures SaveAll(fs, batches, budget).fs.identity == fs.identity
    decreases |batches|
  {
    if batches != [] && budget > 0 && SaveBatch(fs, batches[0]).Some? {
      SaveAllKeepsIdentity(SaveBatch(fs, batches[0]).value, batches[1..], budget - 1);
    }
  }

  // ---- What any run adds, with repeated lines too ----

  /** A run stops after some of its batches; what these hold follows the stored rows. */
  lemma {:induction false} SaveAllSavesSome(fs: FileStore, batches: seq<Batch>, budget: nat) returns (k: nat)
    ensures k <= |batches| && (SaveAll(fs, batches, budget).complete <==> k == |batches|)
    ensures SaveAll(fs, batches, budget).fs.entries == fs.entries + Concat(EntryLists(batches[..k]))
    ensures k > 0 ==> StrictlyAscending(SaveAll(fs, batches, budget).fs.entries)
    decreases |batches|
  {
    k := 0;
    assert EntryLists(batches[..0]) == [];
    if batches != [] && budget > 0 && SaveBatch(fs, batches[0]).Some? {
      var later := SaveAllSavesSome(SaveBatch(fs, batches[0]).value, batches[1..], budget - 1);
      k := later + 1;
      var next := SaveBatch(fs, batches[0]).value;
      if later == 0 {
        assert EntryLists(batches[1..][..later]) == [];
        assert SaveAll(fs, batches, budget).fs.entries == next.entries + [] == next.entries;
      }
      assert EntryLists(batches[..k])[1..] == EntryLists(batches[1..][..later]);
    }
  }

  /** The first batches of a plan hold its first rows. */
  lemma {:induction false} FirstBatchesHoldFirstRows(cfg: Config, added: seq<LogEntry>, next: int, k: nat)
    requires ValidConfig(cfg) && Ascending(added) && k <= |BatchesFor(cfg, added, next)|
    requires StrictlyAscending(Concat(EntryLists(BatchesFor(cfg, added, next)[..k])))
    ensures var rows := Concat(EntryLists(BatchesFor(cfg, added, next)[..k]));
            rows <= added && (k == |BatchesFor(cfg, added, next)| ==> rows == added)
  {
    if added != [] {
      var groups, batches := Split(added, cfg.options.chunkSize), BatchesFor(cfg, added, next);
      SplitBuildsFrom(cfg, added, next);
      var chunks := ChunksOf(cfg, groups, next);
      PackChunks(added, chunks, cfg.options.batchSize);
      PackRows(added, chunks, cfg.options.batchSize);
      BuiltBatchesHoldFirstRows(cfg, added, groups, chunks, batches, k);
    }
  }

  lemma {:induction false} BuiltBatchesHoldFirstRows(cfg: Config, added: seq<LogEntry>, groups: seq<seq<LogEntry>>,
                                                     chunks: seq<LogChunk>, batches: seq<Batch>, k: nat)
    requires Ascending(added) && BuiltFrom(cfg, added, groups, chunks) && k <= |batches|
    requires Concat(ChunkLists(batches)) == chunks && AllCarryOwnRows(added, batches)
    requires StrictlyAscending(Concat(EntryLists(batches[..k])))
    ensures Concat(EntryLists(batches[..k])) <= added
    ensures k == |batches| ==> Concat(EntryLists(batches[..k])) == added
  {
    var q := |Concat(ChunkLists(batches[..k]))|;
    FirstChunks(batches, k);
    RowsOfBatches(added, batches[..k]);
    RowsOfBuiltChunks(cfg, added, groups, chunks, 0, q);
    ConcatOfFirst(groups, q);
    assert k == |batches| ==> batches[..k] == batches && groups[0..q] == groups;
  }

  lemma {:induction false} FirstChunks(batches: seq<Batch>, k: nat)
    requires k <= |batches|
    ensures var first, all := Concat(ChunkLists(batches[..k])), Concat(ChunkLists(batches));
            |first| <= |all| && first == all[0..|first|]
  {
    assert ChunkLists(batches) == ChunkLists(batches[..k]) + ChunkLists(batches[k..]);
    ConcatAppend(ChunkLists(batches[..k]), ChunkLists(batches[k..]));
  }

  lemma {:induction false} ConcatOfFirst<T>(groups: seq<seq<T>>, q: nat)
    requires q <= |groups|
    ensures Concat(groups[0..q]) <= Concat(groups)
  {
    assert groups == groups[0..q] + groups[q..];
    ConcatAppend(groups[0..q], groups[q..]);
  }

  /** The rows of the first `m` of these lines were added, behind all others. */
  ghost predicate AddsRows(cfg: Config, before: seq<LogEntry>, after: seq<LogEntry>, lines: seq<Line>, m: nat) {
    m <= |lines| && |after| == |before| + m && after[..|before|] == before &&
    RowsOfLines(cfg, after[|before|..], lines[..m])
  }

  /** Whatever a run meets, it adds rows of the first of the lines it read beyond the stored ones, in order, and if it
      succeeds it adds and counts all of them. */
  lemma {:induction false} RunAddsRows(cfg: Config, fs: FileStore, c: Circumstances) returns (m: nat)
    requires ValidConfig(cfg) && SortedReads(c) && c.read(StartLine(fs, c)).Some?
    ensures var lines := LinesAbove(c.read(StartLine(fs, c)).value, StartLine(fs, c));
            var r := Collect(cfg, fs, c);
            AddsRows(cfg, BaseStore(fs, c).entries, r.fs.entries, lines, m) &&
            (r.outcome.Success? ==> m == |lines| == r.outcome.value)
  {
    var start, base := StartLine(fs, c), BaseStore(fs, c);
    var lines := c.read(start).value;
    var added, next := NewEntries(cfg, lines, start), NextChunkNumber(base.chunks);
    var batches := BatchesFor(cfg, added, next);
    NewEntriesSorted(cfg, lines, start);
    NewEntriesAreRows(cfg, lines, start);
    var k := SaveAllSavesSome(base, batches, c.budget);
    var rows := Concat(EntryLists(batches[..k]));
    assert StrictlyAscending(rows) by {
      if k > 0 {
        StrictlyAscendingParts(base.entries, rows);
      } else {
        assert EntryLists(batches[..0]) == [];
      }
    }
    FirstBatchesHoldFirstRows(cfg, added, next, k);
    m := |rows|;
    assert Collect(cfg, fs, c).fs.entries == base.entries + rows;
  }
}

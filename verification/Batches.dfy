/** Why packing is a partition: the batches, taken in order, hold every entry and every chunk once, and each chunk
    travels with exactly its own entries. */
module Batches {
  import opened Prelude
  import opened Models
  import opened Hashing
  import opened Chunking

  function ChunkLists(batches: seq<Batch>): seq<seq<LogChunk>> {
    seq(|batches|, i requires 0 <= i < |batches| => batches[i].chunks)
  }

  function EntryLists(batches: seq<Batch>): seq<seq<LogEntry>> {
    seq(|batches|, i requires 0 <= i < |batches| => batches[i].entries)
  }

  /** The entries a list of chunks selects, chunk by chunk. */
  function RowsOf(entries: seq<LogEntry>, chunks: seq<LogChunk>): seq<LogEntry> {
    if chunks == [] then [] else
      var last := chunks[|chunks| - 1];
      RowsOf(entries, chunks[..|chunks| - 1]) + InRange(entries, last.fromLine, last.toLine)
  }

  lemma {:induction false} RowsOfConcat(entries: seq<LogEntry>, a: seq<LogChunk>, b: seq<LogChunk>)
    ensures RowsOf(entries, a + b) == RowsOf(entries, a) + RowsOf(entries, b)
  {
    if b == [] {
      assert a + b == a;
    } else {
      assert (a + b)[..|a + b| - 1] == a + b[..|b| - 1];
      RowsOfConcat(entries, a, b[..|b| - 1]);
    }
  }

  /** A batch carries its chunks' own rows, and at least one chunk. */
  ghost predicate CarriesOwnRows(entries: seq<LogEntry>, b: Batch) {
    b.chunks != [] && b.entries == RowsOf(entries, b.chunks)
  }

  ghost predicate SelectsAtMost(entries: seq<LogEntry>, chunks: seq<LogChunk>, size: int) {
    forall i :: 0 <= i < |chunks| ==> |InRange(entries, chunks[i].fromLine, chunks[i].toLine)| <= size
  }

  lemma {:induction false} RowsOfSnoc(entries: seq<LogEntry>, chunks: seq<LogChunk>, c: LogChunk)
    ensures RowsOf(entries, chunks + [c]) == RowsOf(entries, chunks) + InRange(entries, c.fromLine, c.toLine)
  {
    assert (chunks + [c])[..|chunks|] == chunks;
  }

  lemma {:induction false} ChunkListsSnoc(batches: seq<Batch>, b: Batch)
    ensures Concat(ChunkLists(batches + [b])) == Concat(ChunkLists(batches)) + b.chunks
  {
    assert ChunkLists(batches + [b]) == ChunkLists(batches) + [b.chunks];
    ConcatSnoc(ChunkLists(batches), b.chunks);
  }

  lemma {:induction false} EntryListsSnoc(batches: seq<Batch>, b: Batch)
    ensures Concat(EntryLists(batches + [b])) == Concat(EntryLists(batches)) + b.entries
  {
    assert EntryLists(batches + [b]) == EntryLists(batches) + [b.entries];
    ConcatSnoc(EntryLists(batches), b.entries);
  }

  lemma {:induction false} AddChunkChunks(packed: seq<Batch>, own: seq<LogEntry>, c: LogChunk, size: int)
    ensures Concat(ChunkLists(AddChunk(packed, own, c, size))) == Concat(ChunkLists(packed)) + [c]
  {
    if packed == [] {
      ChunkListsSnoc([], Batch(own, [c]));
      assert [] + [Batch(own, [c])] == [Batch(own, [c])];
    } else {
      var m := |packed| - 1;
      var current := packed[m];
      assert packed == packed[..m] + [current];
      ChunkListsSnoc(packed[..m], current);
      ChunkListsSnoc(packed[..m], Batch(current.entries + own, current.chunks + [c]));
      ChunkListsSnoc(packed, Batch(own, [c]));
    }
  }

  lemma {:induction false} AddChunkRows(entries: seq<LogEntry>, packed: seq<Batch>, c: LogChunk, size: int)
    requires AllCarryOwnRows(entries, packed)
    ensures AllCarryOwnRows(entries, AddChunk(packed, InRange(entries, c.fromLine, c.toLine), c, size))
  {
    var own := InRange(entries, c.fromLine, c.toLine);
    assert CarriesOwnRows(entries, Batch(own, [c])) by {
      RowsOfSnoc(entries, [], c);
      assert [] + [c] == [c] && RowsOf(entries, []) + own == own;
    }
    if packed != [] {
      var current := packed[|packed| - 1];
      assert CarriesOwnRows(entries, Batch(current.entries + own, current.chunks + [c])) by {
        RowsOfSnoc(entries, current.chunks, c);
      }
    }
  }

  ghost predicate AllCarryOwnRows(entries: seq<LogEntry>, batches: seq<Batch>) {
    forall i :: 0 <= i < |batches| ==> CarriesOwnRows(entries, batches[i])
  }

  ghost predicate Bounded(batches: seq<Batch>, size: int) {
    forall i :: 0 <= i < |batches| ==> |batches[i].entries| <= size
  }

  lemma {:induction false} AddChunkBound(packed: seq<Batch>, own: seq<LogEntry>, c: LogChunk, size: int)
    requires Bounded(packed, size) && |own| <= size
    ensures Bounded(AddChunk(packed, own, c, size), size)
  {
  }

  lemma {:induction false} PackChunks(entries: seq<LogEntry>, chunks: seq<LogChunk>, size: int)
    ensures Concat(ChunkLists(Pack(entries, chunks, size))) == chunks
  {
    if chunks != [] {
      var n := |chunks| - 1;
      PackChunks(entries, chunks[..n], size);
      AddChunkChunks(Pack(entries, chunks[..n], size), InRange(entries, chunks[n].fromLine, chunks[n].toLine),
                     chunks[n], size);
      assert chunks == chunks[..n] + [chunks[n]];
    }
  }

  lemma {:induction false} PackRows(entries: seq<LogEntry>, chunks: seq<LogChunk>, size: int)
    ensures AllCarryOwnRows(entries, Pack(entries, chunks, size))
  {
    if chunks != [] {
      var n := |chunks| - 1;
      PackRows(entries, chunks[..n], size);
      AddChunkRows(entries, Pack(entries, chunks[..n], size), chunks[n], size);
    }
  }

  /** The chunk that starts the next batch did not fit into this one. */
  ghost predicate NoRoom(entries: seq<LogEntry>, b: Batch, next: Batch, size: int) {
    b.entries != [] && next.chunks != [] &&
    |b.entries| + |InRange(entries, next.chunks[0].fromLine, next.chunks[0].toLine)| > size
  }

  ghost predicate FullBatches(entries: seq<LogEntry>, batches: seq<Batch>, size: int) {
    (forall i :: 0 <= i < |batches| ==> batches[i].chunks != []) &&
    forall i :: 0 <= i < |batches| - 1 ==> NoRoom(entries, batches[i], batches[i + 1], size)
  }

  /** Packing is greedy: a batch is closed only when the next chunk does not fit. */
  lemma {:induction false} PackIsGreedy(entries: seq<LogEntry>, chunks: seq<LogChunk>, size: int)
    ensures FullBatches(entries, Pack(entries, chunks, size), size)
  {
    if chunks != [] {
      var n := |chunks| - 1;
      PackIsGreedy(entries, chunks[..n], size);
      AddChunkStaysFull(entries, Pack(entries, chunks[..n], size), chunks[n], size);
    }
  }

  lemma {:induction false} AddChunkStaysFull(entries: seq<LogEntry>, packed: seq<Batch>, c: LogChunk, size: int)
    requires FullBatches(entries, packed, size)
    ensures FullBatches(entries, AddChunk(packed, InRange(entries, c.fromLine, c.toLine), c, size), size)
  {
    var all := AddChunk(packed, InRange(entries, c.fromLine, c.toLine), c, size);
    forall i | 0 <= i < |all| - 1 ensures NoRoom(entries, all[i], all[i + 1], size) {
      if i < |packed| - 1 {
        assert NoRoom(entries, packed[i], packed[i + 1], size);
      }
    }
  }

  lemma {:induction false} PackBound(entries: seq<LogEntry>, chunks: seq<LogChunk>, size: int)
    requires SelectsAtMost(entries, chunks, size)
    ensures Bounded(Pack(entries, chunks, size), size)
  {
    if chunks != [] {
      var n := |chunks| - 1;
      PackBound(entries, chunks[..n], size);
      AddChunkBound(Pack(entries, chunks[..n], size), InRange(entries, chunks[n].fromLine, chunks[n].toLine),
                    chunks[n], size);
    }
  }

  // ---- The chunks a run builds ----

  ghost predicate DescribesGroup(cfg: Config, groups: seq<seq<LogEntry>>, chunks: seq<LogChunk>, i: int)
    requires 0 <= i < |groups| == |chunks|
  {
    DescribesRows(cfg, chunks[i], groups[i])
  }

  /** The groups cover the entries in order, and the i-th chunk was computed from the i-th group. */
  ghost predicate BuiltFrom(cfg: Config, entries: seq<LogEntry>, groups: seq<seq<LogEntry>>, chunks: seq<LogChunk>) {
    Concat(groups) == entries && |groups| == |chunks| &&
    forall i :: 0 <= i < |groups| ==> DescribesGroup(cfg, groups, chunks, i)
  }

  /** The rows of freshly built chunks are their groups, read from one chunk to the next. */
  lemma {:induction false} RowsOfBuiltChunks(cfg: Config, entries: seq<LogEntry>, groups: seq<seq<LogEntry>>,
                                             chunks: seq<LogChunk>, p: nat, q: nat)
    requires Ascending(entries) && BuiltFrom(cfg, entries, groups, chunks) && p <= q <= |groups|
    requires StrictlyAscending(RowsOf(entries, chunks[p..q])) || StrictlyAscending(entries)
    ensures RowsOf(entries, chunks[p..q]) == Concat(groups[p..q])
  {
    if p < q {
      var before, own := RowsOf(entries, chunks[p..q - 1]),
        InRange(entries, chunks[q - 1].fromLine, chunks[q - 1].toLine);
      RowsOfMoreChunks(entries, chunks, p, q);
      ConcatOfMoreGroups(groups, p, q);
      if !StrictlyAscending(entries) {
        StrictlyAscendingParts(before, own);
      }
      RowsOfBuiltChunks(cfg, entries, groups, chunks, p, q - 1);
      RowsOfBuiltChunk(cfg, entries, groups, chunks, q - 1);
    }
  }

  lemma {:induction false} RowsOfMoreChunks(entries: seq<LogEntry>, chunks: seq<LogChunk>, p: nat, q: nat)
    requires p < q <= |chunks|
    ensures RowsOf(entries, chunks[p..q]) ==
              RowsOf(entries, chunks[p..q - 1]) + InRange(entries, chunks[q - 1].fromLine, chunks[q - 1].toLine)
  {
    assert chunks[p..q] == chunks[p..q - 1] + [chunks[q - 1]];
    RowsOfSnoc(entries, chunks[p..q - 1], chunks[q - 1]);
  }

  lemma {:induction false} ConcatOfMoreGroups(groups: seq<seq<LogEntry>>, p: nat, q: nat)
    requires p < q <= |groups|
    ensures Concat(groups[p..q]) == Concat(groups[p..q - 1]) + groups[q - 1]
  {
    assert groups[p..q] == groups[p..q - 1] + [groups[q - 1]];
    ConcatSnoc(groups[p..q - 1], groups[q - 1]);
  }

  lemma {:induction false} StrictlyAscendingParts(a: seq<LogEntry>, b: seq<LogEntry>)
    requires StrictlyAscending(a + b)
    ensures StrictlyAscending(a) && StrictlyAscending(b)
  {
    forall i, j | 0 <= i < j < |a| ensures Before(a, i, j) {
      assert Before(a + b, i, j);
    }
    forall i, j | 0 <= i < j < |b| ensures Before(b, i, j) {
      assert Before(a + b, |a| + i, |a| + j);
    }
  }

  /** Where the k-th group sits inside the whole. */
  lemma {:induction false} GroupPosition<T>(entries: seq<T>, groups: seq<seq<T>>, k: nat) returns (a: nat)
    requires k < |groups| && Concat(groups) == entries
    ensures a == |Concat(groups[..k])|
    ensures a + |groups[k]| <= |entries| && entries[a..a + |groups[k]|] == groups[k]
  {
    a := |Concat(groups[..k])|;
    assert groups == groups[..k] + ([groups[k]] + groups[k + 1..]);
    ConcatAppend(groups[..k], [groups[k]] + groups[k + 1..]);
    assert ([groups[k]] + groups[k + 1..])[1..] == groups[k + 1..];
    assert entries == Concat(groups[..k]) + (groups[k] + Concat(groups[k + 1..]));
  }

  lemma {:induction false} RowsOfOneChunk(entries: seq<LogEntry>, groups: seq<seq<LogEntry>>, k: nat)
    requires Ascending(entries) && Concat(groups) == entries && k < |groups| && groups[k] != []
    ensures var selected := InRange(entries, groups[k][0].lineNumber, groups[k][|groups[k]| - 1].lineNumber);
            StrictlyAscending(selected) || StrictlyAscending(entries) ==> selected == groups[k]
  {
    var a := GroupPosition(entries, groups, k);
    var b := a + |groups[k]|;
    assert entries[a..b][0] == entries[a] && entries[a..b][|groups[k]| - 1] == entries[b - 1];
    if StrictlyAscending(entries) {
      StrictRangeOfGroup(entries, a, b);
    } else if StrictlyAscending(InRange(entries, entries[a].lineNumber, entries[b - 1].lineNumber)) {
      RangeOfGroup(entries, a, b);
    }
  }

  lemma {:induction false} RowsOfBuiltChunk(cfg: Config, entries: seq<LogEntry>, groups: seq<seq<LogEntry>>,
                                            chunks: seq<LogChunk>, k: nat)
    requires Ascending(entries) && BuiltFrom(cfg, entries, groups, chunks) && k < |groups|
    ensures var selected := InRange(entries, chunks[k].fromLine, chunks[k].toLine);
            StrictlyAscending(selected) || StrictlyAscending(entries) ==> selected == groups[k]
  {
    assert DescribesGroup(cfg, groups, chunks, k);
    RowsOfOneChunk(entries, groups, k);
  }

  lemma {:induction false} RowsOfBatches(entries: seq<LogEntry>, batches: seq<Batch>)
    requires AllCarryOwnRows(entries, batches)
    ensures Concat(EntryLists(batches)) == RowsOf(entries, Concat(ChunkLists(batches)))
  {
    if batches != [] {
      var front, last := batches[..|batches| - 1], batches[|batches| - 1];
      assert batches == front + [last];
      RowsOfBatches(entries, front);
      EntryListsSnoc(front, last);
      ChunkListsSnoc(front, last);
      RowsOfConcat(entries, Concat(ChunkLists(front)), last.chunks);
    }
  }

  /** What the collector saves for a list of new entries, batch by batch. */
  function BatchesFor(cfg: Config, entries: seq<LogEntry>, next: int): seq<Batch>
    requires ValidConfig(cfg)
  {
    if entries == [] then [] else
      var groups := Split(entries, cfg.options.chunkSize);
      SplitPartitions(entries, cfg.options.chunkSize);
      Pack(entries, ChunksOf(cfg, groups, next), cfg.options.batchSize)
  }

  lemma {:induction false} SplitBuildsFrom(cfg: Config, entries: seq<LogEntry>, next: int)
    requires ValidConfig(cfg) && entries != []
    ensures var groups := Split(entries, cfg.options.chunkSize);
            BoundedGroups(groups, cfg.options.chunkSize) &&
            BuiltFrom(cfg, entries, groups, ChunksOf(cfg, groups, next))
  {
    SplitPartitions(entries, cfg.options.chunkSize);
  }

  /** Inside its own batch every chunk selects exactly the rows its count and hash were computed from. */
  ghost predicate ChunksMatchRows(cfg: Config, b: Batch) {
    forall k :: 0 <= k < |b.chunks| ==>
      DescribesRows(cfg, b.chunks[k], InRange(b.entries, b.chunks[k].fromLine, b.chunks[k].toLine))
  }

  /** Packing strictly increasing entries is a partition into bounded batches: nothing is lost, repeated or moved, and
      every chunk travels with exactly its own rows. */
  lemma {:induction false} BatchesPartition(cfg: Config, entries: seq<LogEntry>, next: int)
    requires ValidConfig(cfg) && StrictlyAscending(entries)
    ensures var bs := BatchesFor(cfg, entries, next);
            Concat(EntryLists(bs)) == entries &&
            (entries != [] ==>
               var groups := Split(entries, cfg.options.chunkSize);
               BoundedGroups(groups, cfg.options.chunkSize) && Concat(ChunkLists(bs)) == ChunksOf(cfg, groups, next)) &&
            Bounded(bs, cfg.options.batchSize) &&
            forall i :: 0 <= i < |bs| ==> ChunksMatchRows(cfg, bs[i])
  {
    if entries != [] {
      var groups := Split(entries, cfg.options.chunkSize);
      SplitBuildsFrom(cfg, entries, next);
      StrictlyAscendingIsAscending(entries);
      var chunks := ChunksOf(cfg, groups, next);
      var bs := BatchesFor(cfg, entries, next);
      PackChunks(entries, chunks, cfg.options.batchSize);
      PackRows(entries, chunks, cfg.options.batchSize);
      assert Concat(EntryLists(bs)) == entries by {
        AllRowsOfBuiltChunks(cfg, entries, groups, chunks);
        RowsOfBatches(entries, bs);
      }
      assert Bounded(bs, cfg.options.batchSize) by {
        BuiltChunksSelectAtMost(cfg, entries, groups, chunks, cfg.options.batchSize);
        PackBound(entries, chunks, cfg.options.batchSize);
      }
      forall i | 0 <= i < |bs| ensures ChunksMatchRows(cfg, bs[i]) {
        BatchMatchesRows(cfg, entries, groups, chunks, bs, i);
      }
    }
  }

  /** All chunks but the last are full and describe consecutive groups of the entries, and a batch is closed only when
      the next chunk does not fit. */
  lemma {:induction false} BatchesAreFull(cfg: Config, entries: seq<LogEntry>, next: int)
    requires ValidConfig(cfg) && entries != []
    ensures var groups, bs := Split(entries, cfg.options.chunkSize), BatchesFor(cfg, entries, next);
            BoundedGroups(groups, cfg.options.chunkSize) && FullGroups(groups, cfg.options.chunkSize) &&
            Concat(groups) == entries && DescribeGroups(cfg, Concat(ChunkLists(bs)), groups, next) &&
            FullBatches(entries, bs, cfg.options.batchSize)
  {
    SplitPartitions(entries, cfg.options.chunkSize);
    var groups := Split(entries, cfg.options.chunkSize);
    var chunks := ChunksOf(cfg, groups, next);
    assert DescribeGroups(cfg, Concat(ChunkLists(BatchesFor(cfg, entries, next))), groups, next) by {
      PackChunks(entries, chunks, cfg.options.batchSize);
      BuiltChunksDescribe(cfg, groups, next);
    }
    assert FullBatches(entries, BatchesFor(cfg, entries, next), cfg.options.batchSize) by {
      PackIsGreedy(entries, chunks, cfg.options.batchSize);
    }
  }

  lemma {:induction false} AllRowsOfBuiltChunks(cfg: Config, entries: seq<LogEntry>, groups: seq<seq<LogEntry>>,
                                                chunks: seq<LogChunk>)
    requires StrictlyAscending(entries) && Ascending(entries) && BuiltFrom(cfg, entries, groups, chunks)
    ensures RowsOf(entries, chunks) == entries
  {
    RowsOfBuiltChunks(cfg, entries, groups, chunks, 0, |chunks|);
    assert chunks[0..|chunks|] == chunks && groups[0..|groups|] == groups;
  }

  lemma {:induction false} BuiltChunksSelectAtMost(cfg: Config, entries: seq<LogEntry>, groups: seq<seq<LogEntry>>,
                                chunks: seq<LogChunk>, size: int)
    requires StrictlyAscending(entries) && Ascending(entries) && BuiltFrom(cfg, entries, groups, chunks)
    requires 0 <= cfg.options.chunkSize <= size && BoundedGroups(groups, cfg.options.chunkSize)
    ensures SelectsAtMost(entries, chunks, size)
  {
    forall i | 0 <= i < |chunks| ensures |InRange(entries, chunks[i].fromLine, chunks[i].toLine)| <= size {
      assert DescribesGroup(cfg, groups, chunks, i);
      RowsOfOneChunk(entries, groups, i);
    }
  }

  lemma {:induction false} SliceOfGroups(entries: seq<LogEntry>, groups: seq<seq<LogEntry>>, p: nat, q: nat)
    requires StrictlyAscending(entries) && Concat(groups) == entries && p <= q <= |groups|
    ensures StrictlyAscending(Concat(groups[p..q]))
  {
    assert groups == (groups[..p] + groups[p..q]) + groups[q..];
    ConcatAppend(groups[..p] + groups[p..q], groups[q..]);
    ConcatAppend(groups[..p], groups[p..q]);
    StrictlyAscendingParts(Concat(groups[..p]) + Concat(groups[p..q]), Concat(groups[q..]));
    StrictlyAscendingParts(Concat(groups[..p]), Concat(groups[p..q]));
  }

  lemma {:induction false} BatchMatchesRows(cfg: Config, entries: seq<LogEntry>, groups: seq<seq<LogEntry>>,
                                            chunks: seq<LogChunk>, bs: seq<Batch>, i: nat)
    requires StrictlyAscending(entries) && Ascending(entries) && BuiltFrom(cfg, entries, groups, chunks)
    requires Concat(ChunkLists(bs)) == chunks && AllCarryOwnRows(entries, bs) && i < |bs|
    ensures ChunksMatchRows(cfg, bs[i])
  {
    var b := bs[i];
    var p := GroupPosition(chunks, ChunkLists(bs), i);
    var q := p + |b.chunks|;
    var own := groups[p..q];
    assert b.entries == Concat(own) by {
      assert CarriesOwnRows(entries, b);
      RowsOfBuiltChunks(cfg, entries, groups, chunks, p, q);
    }
    SliceOfGroups(entries, groups, p, q);
    StrictlyAscendingIsAscending(b.entries);
    forall k | 0 <= k < |b.chunks|
      ensures DescribesRows(cfg, b.chunks[k], InRange(b.entries, b.chunks[k].fromLine, b.chunks[k].toLine))
    {
      assert DescribesGroup(cfg, groups, chunks, p + k) && DescribesGroup(cfg, own, b.chunks, k);
      RowsOfOneChunk(b.entries, own, k);
    }
  }
}

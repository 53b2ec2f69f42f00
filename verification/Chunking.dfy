/** How the collector groups new entries into chunks and packs chunks into bounded batches. */
module Chunking {
  import opened Prelude
  import opened Models
  import opened Hashing

  const DEFAULT_BATCH_SIZE := 5000
  const DEFAULT_CHUNK_SIZE := 1000

  datatype Options = Options(batchSize: int, chunkSize: int, storeRawContent: bool, chunkHashAlgo: string)

  /** Safe defaults for the collection settings. A chunk never exceeds a batch, which is what bounds batches below. */
  function NormalizeOptions(o: Options): (r: Options)
    ensures 0 < r.chunkSize <= r.batchSize
    ensures 0 < o.chunkSize <= o.batchSize && o.chunkHashAlgo != "" ==> r == o
    ensures r.batchSize == (if o.batchSize > 0 then o.batchSize else 5000)
    ensures o.chunkSize <= 0 ==> r.chunkSize == Min(1000, r.batchSize)
    ensures o.chunkSize > 0 ==> r.chunkSize == Min(o.chunkSize, r.batchSize)
    ensures r.chunkHashAlgo == (if o.chunkHashAlgo != "" then o.chunkHashAlgo else "sha256")
    ensures r.storeRawContent == o.storeRawContent
    ensures SafeOptions(r)
  {
    var batchSize := if o.batchSize <= 0 then DEFAULT_BATCH_SIZE else o.batchSize;
    var chunkSize := if o.chunkSize <= 0 then DEFAULT_CHUNK_SIZE else o.chunkSize;
    Options(batchSize, if chunkSize > batchSize then batchSize else chunkSize, o.storeRawContent,
            if o.chunkHashAlgo == "" then "sha256" else o.chunkHashAlgo)
  }

  ghost predicate SafeOptions(o: Options) {
    0 < o.chunkSize <= o.batchSize && o.chunkHashAlgo != ""
  }

  ghost predicate NotAfter(s: seq<LogEntry>, i: int, j: int)
    requires 0 <= i < |s| && 0 <= j < |s|
  {
    s[i].lineNumber <= s[j].lineNumber
  }

  ghost predicate Before(s: seq<LogEntry>, i: int, j: int)
    requires 0 <= i < |s| && 0 <= j < |s|
  {
    s[i].lineNumber < s[j].lineNumber
  }

  /** Line numbers in read order; equal neighbours are possible because remote output may repeat a number. */
  ghost predicate Ascending(s: seq<LogEntry>) {
    forall i, j :: 0 <= i < j < |s| ==> NotAfter(s, i, j)
  }

  ghost predicate StrictlyAscending(s: seq<LogEntry>) {
    forall i, j :: 0 <= i < j < |s| ==> Before(s, i, j)
  }

  lemma {:induction false} StrictlyAscendingIsAscending(s: seq<LogEntry>)
    requires StrictlyAscending(s)
    ensures Ascending(s)
  {
    forall i, j | 0 <= i < j < |s| ensures NotAfter(s, i, j) {
      assert Before(s, i, j);
    }
  }

  function Hashes(entries: seq<LogEntry>): seq<string> {
    seq(|entries|, i requires 0 <= i < |entries| => entries[i].hash)
  }

  // ---- Splitting into groups of at most `size` entries ----

  /** A size that is not positive asks for one group. */
  function Split(entries: seq<LogEntry>, size: int): seq<seq<LogEntry>>
    decreases |entries|
  {
    if size <= 0 || |entries| <= size then [entries] else [entries[..size]] + Split(entries[size..], size)
  }

  ghost predicate BoundedGroups(groups: seq<seq<LogEntry>>, size: int) {
    forall i :: 0 <= i < |groups| ==> 0 < |groups[i]| <= size
  }

  /** Every group but the last has exactly this size. */
  ghost predicate FullGroups(groups: seq<seq<LogEntry>>, size: int) {
    forall i :: 0 <= i < |groups| - 1 ==> |groups[i]| == size
  }

  lemma {:induction false} SplitPartitions(entries: seq<LogEntry>, size: int)
    requires entries != []
    ensures Concat(Split(entries, size)) == entries
    ensures BoundedGroups(Split(entries, size), if size > 0 then size else |entries|)
    ensures FullGroups(Split(entries, size), if size > 0 then size else |entries|)
    decreases |entries|
  {
    if size <= 0 || |entries| <= size {
      assert Concat([entries]) == entries + [];
    } else {
      SplitPartitions(entries[size..], size);
      var rest := Split(entries[size..], size);
      assert Concat([entries[..size]] + rest) == entries[..size] + Concat(rest);
      assert entries[..size] + entries[size..] == entries;
    }
  }

  method SplitEntries(entries: seq<LogEntry>, size: int) returns (result: seq<seq<LogEntry>>)
    ensures result == Split(entries, size)
  {
    if size <= 0 || size >= |entries| {
      return [entries];
    }
    result := [];
    var start := 0;
    while start < |entries|
      invariant 0 <= start
      invariant start < |entries| ==> result + Split(entries[start..], size) == Split(entries, size)
      invariant start >= |entries| ==> result == Split(entries, size)
    {
      var end := if start + size > |entries| then |entries| else start + size;
      if |entries| - start <= size {
        assert entries[start..end] == entries[start..];
      } else {
        assert entries[start..][size..] == entries[start + size..] && entries[start..][..size] == entries[start..end];
      }
      result := result + [entries[start..end]];
      start := start + size;
    }
  }

  // ---- Chunks ----

  /** Everything a collection run needs to know besides the data: hash functions, settings and the log file id. */
  datatype Config = Config(hasher: Hasher, options: Options, logFileId: string)

  ghost predicate ValidConfig(cfg: Config) {
    0 < cfg.options.chunkSize <= cfg.options.batchSize
  }

  function AggregateHash(h: Hasher, entries: seq<LogEntry>): string {
    h.aggregate(JoinHashes(Hashes(entries)))
  }

  method HashEntryBatch(h: Hasher, entries: seq<LogEntry>) returns (hash: string)
    ensures hash == AggregateHash(h, entries)
  {
    var builder := "";
    for i := 0 to |entries|
      invariant builder == JoinHashes(Hashes(entries)[..i])
    {
      assert Hashes(entries)[..i + 1][..i] == Hashes(entries)[..i];
      builder := builder + entries[i].hash;
      builder := builder + "\n";
    }
    assert Hashes(entries)[..|entries|] == Hashes(entries);
    hash := h.aggregate(builder);
  }

  function ChunkOf(cfg: Config, group: seq<LogEntry>, number: int): LogChunk
    requires group != []
  {
    LogChunk("", cfg.logFileId, number, group[0].lineNumber, group[|group| - 1].lineNumber, |group|,
             AggregateHash(cfg.hasher, group), cfg.options.chunkHashAlgo)
  }

  function ChunksOf(cfg: Config, groups: seq<seq<LogEntry>>, next: int): seq<LogChunk>
    requires forall i :: 0 <= i < |groups| ==> groups[i] != []
  {
    seq(|groups|, i requires 0 <= i < |groups| => ChunkOf(cfg, groups[i], next + i))
  }

  /** A chunk over these rows: the lines it spans, how many there are, and the hash of their hashes. */
  ghost predicate DescribesRows(cfg: Config, c: LogChunk, rows: seq<LogEntry>) {
    rows != [] && c.id == "" && c.logFileId == cfg.logFileId &&
    c.fromLine == rows[0].lineNumber && c.toLine == rows[|rows| - 1].lineNumber && c.entriesCount == |rows| &&
    c.hash == cfg.hasher.aggregate(JoinHashes(Hashes(rows))) && c.hashAlgorithm == cfg.options.chunkHashAlgo
  }

  ghost predicate DescribeGroups(cfg: Config, chunks: seq<LogChunk>, groups: seq<seq<LogEntry>>, next: int) {
    |chunks| == |groups| &&
    forall i :: 0 <= i < |chunks| ==> DescribesRows(cfg, chunks[i], groups[i]) && chunks[i].chunkNumber == next + i
  }

  lemma {:induction false} BuiltChunksDescribe(cfg: Config, groups: seq<seq<LogEntry>>, next: int)
    requires forall i :: 0 <= i < |groups| ==> groups[i] != []
    ensures DescribeGroups(cfg, ChunksOf(cfg, groups, next), groups, next)
  {
  }

  method ChunkGroups(cfg: Config, groups: seq<seq<LogEntry>>, latestChunkNumber: int) returns (chunks: seq<LogChunk>)
    requires forall i :: 0 <= i < |groups| ==> |groups[i]| > 0 || |groups| == 1
    ensures if groups == [[]] then chunks == []
            else (forall i :: 0 <= i < |groups| ==> groups[i] != []) &&
                 chunks == ChunksOf(cfg, groups, latestChunkNumber + 1)
  {
    chunks := [];
    for i := 0 to |groups|
      invariant groups == [[]] ==> chunks == []
      invariant groups != [[]] ==> chunks == ChunksOf(cfg, groups[..i], latestChunkNumber + 1)
    {
      var batch := groups[i];
      if |batch| == 0 {
        continue;
      }
      var hash := HashEntryBatch(cfg.hasher, batch);
      chunks := chunks + [LogChunk("", cfg.logFileId, latestChunkNumber + i + 1, batch[0].lineNumber,
                                   batch[|batch| - 1].lineNumber, |batch|, hash, cfg.options.chunkHashAlgo)];
    }
    assert groups[..|groups|] == groups;
  }

  method BuildChunks(cfg: Config, entries: seq<LogEntry>, latestChunkNumber: int) returns (chunks: seq<LogChunk>)
    requires ValidConfig(cfg)
    ensures entries == [] ==> chunks == []
    ensures entries != [] ==>
              var groups := Split(entries, cfg.options.chunkSize);
              BoundedGroups(groups, cfg.options.chunkSize) && FullGroups(groups, cfg.options.chunkSize) &&
              Concat(groups) == entries && DescribeGroups(cfg, chunks, groups, latestChunkNumber + 1) &&
              chunks == ChunksOf(cfg, groups, latestChunkNumber + 1)
  {
    var groups := SplitEntries(entries, cfg.options.chunkSize);
    if entries != [] {
      SplitPartitions(entries, cfg.options.chunkSize);
      BuiltChunksDescribe(cfg, groups, latestChunkNumber + 1);
    }
    chunks := ChunkGroups(cfg, groups, latestChunkNumber);
  }

  // ---- Entries selected by a line range ----

  function InRange(entries: seq<LogEntry>, from: int, to: int): seq<LogEntry> {
    if entries == [] then [] else
      var last := entries[|entries| - 1];
      InRange(entries[..|entries| - 1], from, to) + if from <= last.lineNumber <= to then [last] else []
  }

  lemma {:induction false} InRangeMembers(entries: seq<LogEntry>, from: int, to: int, e: LogEntry)
    ensures e in InRange(entries, from, to) <==> e in entries && from <= e.lineNumber <= to
  {
    if entries != [] {
      InRangeMembers(entries[..|entries| - 1], from, to, e);
      assert entries == entries[..|entries| - 1] + [entries[|entries| - 1]];
    }
  }

  method EntriesForChunk(entries: seq<LogEntry>, chunk: LogChunk) returns (result: seq<LogEntry>)
    ensures result == InRange(entries, chunk.fromLine, chunk.toLine)
  {
    result := [];
    for i := 0 to |entries|
      invariant result == InRange(entries[..i], chunk.fromLine, chunk.toLine)
    {
      assert entries[..i + 1][..i] == entries[..i];
      if entries[i].lineNumber >= chunk.fromLine && entries[i].lineNumber <= chunk.toLine {
        result := result + [entries[i]];
      }
    }
    assert entries[..|entries|] == entries;
  }

  lemma {:induction false} InRangeConcat(a: seq<LogEntry>, b: seq<LogEntry>, from: int, to: int)
    ensures InRange(a + b, from, to) == InRange(a, from, to) + InRange(b, from, to)
  {
    if b == [] {
      assert a + b == a;
    } else {
      var n := |b| - 1;
      assert (a + b)[..|a + b| - 1] == a + b[..n];
      InRangeConcat(a, b[..n], from, to);
      assert b == b[..n] + [b[n]];
    }
  }

  lemma {:induction false} InRangeAll(s: seq<LogEntry>, from: int, to: int)
    requires forall i :: 0 <= i < |s| ==> from <= s[i].lineNumber <= to
    ensures InRange(s, from, to) == s
  {
    if s != [] {
      InRangeAll(s[..|s| - 1], from, to);
    }
  }

  lemma {:induction false} InRangeNone(s: seq<LogEntry>, from: int, to: int)
    requires forall i :: 0 <= i < |s| ==> !(from <= s[i].lineNumber <= to)
    ensures InRange(s, from, to) == []
  {
    if s != [] {
      InRangeNone(s[..|s| - 1], from, to);
    }
  }

  lemma {:induction false} HeadOutsideRange(before: seq<LogEntry>, group: seq<LogEntry>, tail: seq<LogEntry>, hi: int)
    requires group != [] && forall i :: 0 <= i < |before| ==> before[i].lineNumber <= group[0].lineNumber
    requires StrictlyAscending(InRange(before, group[0].lineNumber, hi) + group + tail)
    ensures InRange(before, group[0].lineNumber, hi) == []
  {
    var head := InRange(before, group[0].lineNumber, hi);
    var all := head + group + tail;
    assert head != [] ==> all[0] == head[0] && all[|head|] == group[0] && Before(all, 0, |head|);
    if head != [] {
      InRangeMembers(before, group[0].lineNumber, hi, head[0]);
    }
  }

  lemma {:induction false} TailOutsideRange(head: seq<LogEntry>, group: seq<LogEntry>, after: seq<LogEntry>, lo: int)
    requires group != []
    requires forall i :: 0 <= i < |after| ==> after[i].lineNumber >= group[|group| - 1].lineNumber
    requires StrictlyAscending(head + group + InRange(after, lo, group[|group| - 1].lineNumber))
    ensures InRange(after, lo, group[|group| - 1].lineNumber) == []
  {
    var tail := InRange(after, lo, group[|group| - 1].lineNumber);
    var all := head + group + tail;
    var k := |head| + |group|;
    assert tail != [] ==> all[k] == tail[0] && all[k - 1] == group[|group| - 1] && Before(all, k - 1, k);
    if tail != [] {
      InRangeMembers(after, lo, group[|group| - 1].lineNumber, tail[0]);
    }
  }

  lemma {:induction false} InRangeThirds(entries: seq<LogEntry>, a: nat, b: nat, lo: int, hi: int)
    requires a <= b <= |entries|
    ensures InRange(entries, lo, hi) ==
              InRange(entries[..a], lo, hi) + InRange(entries[a..b], lo, hi) + InRange(entries[b..], lo, hi)
  {
    assert entries == (entries[..a] + entries[a..b]) + entries[b..];
    InRangeConcat(entries[..a] + entries[a..b], entries[b..], lo, hi);
    InRangeConcat(entries[..a], entries[a..b], lo, hi);
  }

  lemma {:induction false} GroupInRange(entries: seq<LogEntry>, a: nat, b: nat, lo: int, hi: int)
    requires a < b <= |entries| && forall i :: a <= i < b ==> lo <= entries[i].lineNumber <= hi
    ensures InRange(entries, lo, hi) == InRange(entries[..a], lo, hi) + entries[a..b] + InRange(entries[b..], lo, hi)
  {
    InRangeThirds(entries, a, b, lo, hi);
    InRangeAll(entries[a..b], lo, hi);
  }

  lemma {:induction false} GroupBounds(entries: seq<LogEntry>, a: nat, b: nat)
    requires a < b <= |entries| && Ascending(entries)
    ensures forall i :: 0 <= i < a ==> entries[i].lineNumber <= entries[a].lineNumber
    ensures forall i :: a <= i < b ==> entries[a].lineNumber <= entries[i].lineNumber <= entries[b - 1].lineNumber
    ensures forall i :: b <= i < |entries| ==> entries[i].lineNumber >= entries[b - 1].lineNumber
  {
    forall i | 0 <= i < a ensures entries[i].lineNumber <= entries[a].lineNumber {
      assert NotAfter(entries, i, a);
    }
    forall i | a <= i < b ensures entries[a].lineNumber <= entries[i].lineNumber <= entries[b - 1].lineNumber {
      assert i == a || NotAfter(entries, a, i);
      assert i == b - 1 || NotAfter(entries, i, b - 1);
    }
    forall i | b <= i < |entries| ensures entries[i].lineNumber >= entries[b - 1].lineNumber {
      assert NotAfter(entries, b - 1, i);
    }
  }

  /** Without repeated line numbers a group is exactly what its first and last line select. */
  lemma {:induction false} StrictRangeOfGroup(entries: seq<LogEntry>, a: nat, b: nat)
    requires a < b <= |entries| && StrictlyAscending(entries)
    ensures InRange(entries, entries[a].lineNumber, entries[b - 1].lineNumber) == entries[a..b]
  {
    var lo, hi := entries[a].lineNumber, entries[b - 1].lineNumber;
    assert Ascending(entries) by {
      StrictlyAscendingIsAscending(entries);
    }
    GroupBounds(entries, a, b);
    assert InRange(entries, lo, hi) ==
           InRange(entries[..a], lo, hi) + entries[a..b] + InRange(entries[b..], lo, hi) by {
      GroupInRange(entries, a, b, lo, hi);
    }
    assert InRange(entries[..a], lo, hi) == [] by {
      forall i | 0 <= i < a ensures entries[i].lineNumber < lo {
        assert Before(entries, i, a);
      }
      InRangeNone(entries[..a], lo, hi);
    }
    assert InRange(entries[b..], lo, hi) == [] by {
      forall i | b <= i < |entries| ensures entries[i].lineNumber > hi {
        assert Before(entries, b - 1, i);
      }
      InRangeNone(entries[b..], lo, hi);
    }
  }

  /** With repeated line numbers the selection either is the group or shows a repetition itself. */
  lemma {:induction false} RangeOfGroup(entries: seq<LogEntry>, a: nat, b: nat)
    requires a < b <= |entries| && Ascending(entries)
    requires StrictlyAscending(InRange(entries, entries[a].lineNumber, entries[b - 1].lineNumber))
    ensures InRange(entries, entries[a].lineNumber, entries[b - 1].lineNumber) == entries[a..b]
  {
    var lo, hi := entries[a].lineNumber, entries[b - 1].lineNumber;
    var before, group, after := entries[..a], entries[a..b], entries[b..];
    var head, tail := InRange(before, lo, hi), InRange(after, lo, hi);
    GroupBounds(entries, a, b);
    assert InRange(entries, lo, hi) == head + group + tail by {
      GroupInRange(entries, a, b, lo, hi);
    }
    assert head == [] by {
      HeadOutsideRange(before, group, tail, hi);
    }
    assert tail == [] by {
      TailOutsideRange(head, group, after, lo);
    }
  }

  // ---- Packing chunks and their entries into batches ----

  datatype Batch = Batch(entries: seq<LogEntry>, chunks: seq<LogChunk>)

  /** A chunk joins the last batch unless that batch would outgrow `size`. */
  function AddChunk(packed: seq<Batch>, own: seq<LogEntry>, chunk: LogChunk, size: int): seq<Batch> {
    if packed == [] then [Batch(own, [chunk])]
    else
      var current := packed[|packed| - 1];
      if |current.entries| > 0 && |current.entries| + |own| > size then packed + [Batch(own, [chunk])]
      else packed[..|packed| - 1] + [Batch(current.entries + own, current.chunks + [chunk])]
  }

  function Pack(entries: seq<LogEntry>, chunks: seq<LogChunk>, size: int): seq<Batch> {
    if chunks == [] then [] else
      var chunk := chunks[|chunks| - 1];
      AddChunk(Pack(entries, chunks[..|chunks| - 1], size), InRange(entries, chunk.fromLine, chunk.toLine), chunk, size)
  }

  method SplitEntryChunkBatches(entries: seq<LogEntry>, chunks: seq<LogChunk>, batchSize: int)
    returns (result: seq<Batch>)
    ensures chunks == [] ==> result == [Batch(entries, [])]
    ensures chunks != [] ==> result == Pack(entries, chunks, batchSize)
  {
    if |chunks| == 0 {
      return [Batch(entries, [])];
    }
    result := [];
    var current := Batch([], []);
    for i := 0 to |chunks|
      invariant i == 0 ==> result == [] && current == Batch([], [])
      invariant i > 0 ==> result + [current] == Pack(entries, chunks[..i], batchSize)
      invariant i > 0 ==> current.chunks != []
    {
      var chunk := chunks[i];
      ghost var packed := Pack(entries, chunks[..i], batchSize);
      assert chunks[..i + 1][..i] == chunks[..i];
      assert i > 0 ==> packed[|packed| - 1] == current && packed[..|packed| - 1] == result;
      var chunkEntries := EntriesForChunk(entries, chunk);
      if |current.entries| > 0 && |current.entries| + |chunkEntries| > batchSize {
        result := result + [current];
        current := Batch([], []);
      }
      assert [] + chunkEntries == chunkEntries && [] + [chunk] == [chunk];
      current := Batch(current.entries + chunkEntries, current.chunks + [chunk]);
    }
    assert chunks[..|chunks|] == chunks;
    if |current.entries| > 0 || |current.chunks| > 0 {
      result := result + [current];
    }
  }
}
